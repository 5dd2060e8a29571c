/** `time.Parse` for the layouts that the normalisers try, and `DateToISO`. */
module Dates {
  import opened Text
  import opened Domain

  datatype Date = Date(year: int, month: int, day: int)

  predicate IsLeap(y: int) { y % 4 == 0 && (y % 100 != 0 || y % 400 == 0) }

  function DaysIn(m: int, y: int): (n: int)
    ensures 28 <= n <= 31
  {
    if m == 2 then (if IsLeap(y) then 29 else 28) else if m in {4, 6, 9, 11} then 30 else 31
  }

  predicate IsCalendar(d: Date) { 0 <= d.year <= 9999 && 1 <= d.month <= 12 && 1 <= d.day <= DaysIn(d.month, d.year) }

  const MONTH_DAYS: seq<int> := [31, 28, 31, 30, 31, 30, 31, 31, 30, 31, 30, 31]

  /** The calendar: the month lengths of the table, one more in the February of a leap year, and leap years are every
      fourth, but of the full centuries only every fourth. */
  lemma CalendarExact(m: int, y: int)
    requires 1 <= m <= 12
    ensures DaysIn(m, y) == MONTH_DAYS[m - 1] + (if m == 2 && IsLeap(y) then 1 else 0)
    ensures !IsLeap(y) <==> y % 4 != 0 || (y % 100 == 0 && y % 400 != 0)
    ensures IsLeap(2000) && IsLeap(2024) && !IsLeap(1900) && !IsLeap(2100) && !IsLeap(2023)
  {
  }

  // ---- pieces of a layout ----

  /** A number read off the front, and what is left. */
  datatype Read = Read(n: int, rest: string)

  function Val(c: char): (v: int)
    requires IsDigit(c)
    ensures 0 <= v <= 9
  {
    c as int - '0' as int
  }

  /** `getnum`: two digits if there are two; one digit only if the field is not of fixed width. */
  function GetNum(v: string, fixed: bool): Option<Read> {
    if v == [] || !IsDigit(v[0]) then None
    else if |v| < 2 || !IsDigit(v[1]) then (if fixed then None else Some(Read(Val(v[0]), v[1..])))
    else Some(Read(10 * Val(v[0]) + Val(v[1]), v[2..]))
  }

  function Skip(v: string, c: char): Option<string> { if v != [] && v[0] == c then Some(v[1..]) else None }

  /** "2006". */
  function Year4(v: string): Option<Read> {
    if |v| >= 4 && IsDigit(v[0]) && IsDigit(v[1]) && IsDigit(v[2]) && IsDigit(v[3])
    then Some(Read(1000 * Val(v[0]) + 100 * Val(v[1]) + 10 * Val(v[2]) + Val(v[3]), v[4..]))
    else None
  }

  /** "06": two digits, or a sign and one digit; 69 to 99 are in the nineteen hundreds. */
  function Year2(v: string): Option<Read> {
    if |v| < 2 || !IsDigit(v[1]) then None
    else if IsDigit(v[0]) then
      var y := 10 * Val(v[0]) + Val(v[1]);
      Some(Read(if y >= 69 then 1900 + y else 2000 + y, v[2..]))
    else if v[0] == '+' then Some(Read(2000 + Val(v[1]), v[2..]))
    else if v[0] == '-' then Some(Read(2000 - Val(v[1]), v[2..]))
    else None
  }

  function Year(v: string, long: bool): Option<Read> { if long then Year4(v) else Year2(v) }

  function Month(v: string, fixed: bool): Option<Read> {
    var m :- GetNum(v, fixed);
    if 1 <= m.n <= 12 then Some(m) else None
  }

  // ---- whole layouts ----

  /** The layouts of `DateToISO`: "02/01/2006", "2/1/2006", "02/01/06", "2/1/06" and "2006/01/02", "2006/1/2". */
  datatype Layout = DayFirst(fixed: bool, long: bool) | YearFirst(fixed: bool)

  function MakeDate(y: int, m: int, d: int, rest: string): Option<Date> {
    if rest == [] && 1 <= d <= DaysIn(m, y) then Some(Date(y, m, d)) else None
  }

  function Parse(l: Layout, v: string): Option<Date> {
    match l
    case DayFirst(fixed, long) =>
      var d :- GetNum(v, fixed);
      var v1 :- Skip(d.rest, '/');
      var m :- Month(v1, fixed);
      var v2 :- Skip(m.rest, '/');
      var y :- Year(v2, long);
      MakeDate(y.n, m.n, d.n, y.rest)
    case YearFirst(fixed) =>
      var y :- Year4(v);
      var v1 :- Skip(y.rest, '/');
      var m :- Month(v1, fixed);
      var v2 :- Skip(m.rest, '/');
      var d :- GetNum(v2, fixed);
      MakeDate(y.n, m.n, d.n, d.rest)
  }

  const LAYOUTS: seq<Layout> :=
    [DayFirst(true, true), DayFirst(false, true), DayFirst(true, false), DayFirst(false, false), YearFirst(true),
     YearFirst(false)]

  /** The first layout of a list that accepts. */
  function FirstOf(ls: seq<Layout>, v: string): Option<Date> {
    if ls == [] then None
    else match Parse(ls[0], v)
      case Some(d) => Some(d)
      case None => FirstOf(ls[1..], v)
  }

  // ---- any two layouts that accept a text agree on its date ----

  /** A day-first text starts with one or two digits and a slash, a year-first text with four digits. */
  lemma KindsApart(v: string, l: Layout, k: Layout)
    requires Parse(l, v).Some? && Parse(k, v).Some?
    ensures l.DayFirst? == k.DayFirst?
  {
    hide MakeDate, Month, Year;
  }

  /** Fixed width or not, a number that is followed by a slash or by nothing reads the same. */
  lemma GetNumAgree(v: string, f: bool, g: bool)
    requires GetNum(v, f).Some? && GetNum(v, g).Some?
    ensures GetNum(v, f) == GetNum(v, g)
  {
  }

  lemma DayFirstAgree(v: string, f: bool, a: bool, g: bool, b: bool)
    requires Parse(DayFirst(f, a), v).Some? && Parse(DayFirst(g, b), v).Some?
    ensures Parse(DayFirst(f, a), v) == Parse(DayFirst(g, b), v)
  {
    hide DaysIn;
    GetNumAgree(v, f, g);
    var v1 := Skip(GetNum(v, f).value.rest, '/').value;
    GetNumAgree(v1, f, g);
    var v2 := Skip(GetNum(v1, f).value.rest, '/').value;
    YearAgree(v2, a, b);
  }

  /** A rest of four characters is no two-digit year, and the other way round. */
  lemma YearAgree(v: string, a: bool, b: bool)
    requires Year(v, a).Some? && Year(v, b).Some? && Year(v, a).value.rest == [] && Year(v, b).value.rest == []
    ensures a == b
  {
  }

  lemma YearFirstAgree(v: string, f: bool, g: bool)
    requires Parse(YearFirst(f), v).Some? && Parse(YearFirst(g), v).Some?
    ensures Parse(YearFirst(f), v) == Parse(YearFirst(g), v)
  {
    hide DaysIn;
    var v1 := Skip(Year4(v).value.rest, '/').value;
    GetNumAgree(v1, f, g);
    var v2 := Skip(GetNum(v1, f).value.rest, '/').value;
    GetNumAgree(v2, f, g);
  }

  lemma LayoutsAgree(v: string, l: Layout, k: Layout)
    requires Parse(l, v).Some? && Parse(k, v).Some?
    ensures Parse(l, v) == Parse(k, v)
  {
    hide Parse;
    KindsApart(v, l, k);
    match l {
      case DayFirst(f, a) => DayFirstAgree(v, f, a, k.fixed, k.long);
      case YearFirst(f) => YearFirstAgree(v, f, k.fixed);
    }
  }

  lemma {:induction false} FirstOfAccepts(ls: seq<Layout>, v: string, l: Layout)
    requires l in ls && Parse(l, v).Some?
    ensures FirstOf(ls, v) == Parse(l, v)
  {
    hide Parse;
    if Parse(ls[0], v).Some? {
      LayoutsAgree(v, ls[0], l);
    } else {
      FirstOfAccepts(ls[1..], v, l);
    }
  }

  lemma {:induction false} FirstOfSound(ls: seq<Layout>, v: string)
    ensures FirstOf(ls, v).Some? ==> exists l :: l in ls && Parse(l, v) == FirstOf(ls, v)
  {
    hide Parse;
    if ls != [] && Parse(ls[0], v).None? {
      FirstOfSound(ls[1..], v);
      if FirstOf(ls, v).Some? {
        var l :| l in ls[1..] && Parse(l, v) == FirstOf(ls[1..], v);
        assert l in ls;
      }
    } else if ls != [] {
      assert ls[0] in ls;
    }
  }

  /** The order in which the layouts are tried does not matter. */
  lemma OrderIrrelevant(ls: seq<Layout>, ks: seq<Layout>, v: string)
    requires forall l :: l in ls <==> l in ks
    ensures FirstOf(ls, v) == FirstOf(ks, v)
  {
    hide Parse;
    FirstOfSound(ls, v);
    FirstOfSound(ks, v);
    if FirstOf(ls, v).Some? {
      var l :| l in ls && Parse(l, v) == FirstOf(ls, v);
      FirstOfAccepts(ks, v, l);
    } else if FirstOf(ks, v).Some? {
      var l :| l in ks && Parse(l, v) == FirstOf(ks, v);
      FirstOfAccepts(ls, v, l);
    }
  }

  // ---- writing ----

  function DigitChar(n: int): (c: char)
    requires 0 <= n <= 9
    ensures IsDigit(c) && Val(c) == n
  {
    '0' + n as char
  }

  function Pad2(n: int): string
    requires 0 <= n <= 99
  {
    [DigitChar(n / 10), DigitChar(n % 10)]
  }

  function Pad4(n: int): string
    requires 0 <= n <= 9999
  {
    [DigitChar(n / 10 / 10 / 10), DigitChar(n / 10 / 10 % 10), DigitChar(n / 10 % 10), DigitChar(n % 10)]
  }

  function Iso(d: Date): string
    requires IsCalendar(d)
  {
    Pad4(d.year) + "-" + Pad2(d.month) + "-" + Pad2(d.day)
  }

  /** Every date that a layout yields is on the calendar, in the years 0 to 9999. */
  lemma ParsedIsCalendar(l: Layout, v: string)
    requires Parse(l, v).Some?
    ensures IsCalendar(Parse(l, v).value)
  {
    hide DaysIn, GetNum, Year, Year4, Skip;
    match l {
      case DayFirst(fixed, long) =>
        var v1 := Skip(GetNum(v, fixed).value.rest, '/').value;
        YearInRange(Skip(Month(v1, fixed).value.rest, '/').value, long);
      case YearFirst(_) =>
        YearInRange(v, true);
        LongYear(v);
    }
  }

  lemma YearInRange(v: string, long: bool)
    ensures Year(v, long).Some? ==> 0 <= Year(v, long).value.n <= 9999
  {
  }

  lemma ReadPad2(n: int, rest: string, fixed: bool)
    requires 0 <= n <= 99
    ensures GetNum(Pad2(n) + rest, fixed) == Some(Read(n, rest))
  {
    var v := Pad2(n) + rest;
    assert v[0] == Pad2(n)[0] && v[1] == Pad2(n)[1] && v[2..] == rest;
  }

  lemma ReadPad4(n: int, rest: string)
    requires 0 <= n <= 9999
    ensures Year4(Pad4(n) + rest) == Some(Read(n, rest))
  {
    hide Val, DigitChar;
    var v, p := Pad4(n) + rest, Pad4(n);
    assert v[0] == p[0] && v[1] == p[1] && v[2] == p[2] && v[3] == p[3] && v[4..] == rest;
  }

  lemma SkipChar(c: char, rest: string)
    ensures Skip([c] + rest, c) == Some(rest)
  {
    assert ([c] + rest)[1..] == rest;
  }

  /** Reading back: day first with a four-digit year, and year first. */
  lemma ParseWritten(d: Date, fixed: bool)
    requires IsCalendar(d)
    ensures Parse(DayFirst(fixed, true), Pad2(d.day) + "/" + Pad2(d.month) + "/" + Pad4(d.year)) == Some(d)
    ensures Parse(YearFirst(fixed), Pad4(d.year) + "/" + Pad2(d.month) + "/" + Pad2(d.day)) == Some(d)
  {
    hide DaysIn, GetNum, Year4, Pad2, Pad4, Skip;
    var y, m, e := Pad4(d.year), Pad2(d.month), Pad2(d.day);
    assert e + "/" + m + "/" + y == e + ("/" + (m + ("/" + (y + []))));
    ReadPad2(d.day, "/" + (m + ("/" + (y + []))), fixed);
    SkipChar('/', m + ("/" + (y + [])));
    ReadPad2(d.month, "/" + (y + []), fixed);
    SkipChar('/', y + []);
    ReadPad4(d.year, []);
    assert y + "/" + m + "/" + e == y + ("/" + (m + ("/" + (e + []))));
    ReadPad4(d.year, "/" + (m + ("/" + (e + []))));
    SkipChar('/', m + ("/" + (e + [])));
    ReadPad2(d.month, "/" + (e + []), fixed);
    SkipChar('/', e + []);
    ReadPad2(d.day, [], fixed);
  }

  lemma ReadYear2(y: int)
    requires 1969 <= y <= 2068
    ensures Year2(Pad2(y % 100) + []) == Some(Read(y, []))
  {
    var v := Pad2(y % 100) + [];
    assert v == Pad2(y % 100) && v[2..] == [];
  }

  /** Two-digit years stand for 1969 to 2068. */
  lemma ParseShortYear(d: Date, fixed: bool)
    requires IsCalendar(d) && 1969 <= d.year <= 2068
    ensures Parse(DayFirst(fixed, false), Pad2(d.day) + "/" + Pad2(d.month) + "/" + Pad2(d.year % 100)) == Some(d)
  {
    hide DaysIn, GetNum, Year2, Pad2, Skip;
    var y, m, e := Pad2(d.year % 100), Pad2(d.month), Pad2(d.day);
    assert e + "/" + m + "/" + y == e + ("/" + (m + ("/" + (y + []))));
    ReadPad2(d.day, "/" + (m + ("/" + (y + []))), fixed);
    SkipChar('/', m + ("/" + (y + [])));
    ReadPad2(d.month, "/" + (y + []), fixed);
    SkipChar('/', y + []);
    ReadYear2(d.year);
  }

  // ---- without leading zeros ----

  /** A day or a month, with or without its leading zero. */
  function Num(n: int, padded: bool): string
    requires 1 <= n <= 99
  {
    if padded || n >= 10 then Pad2(n) else [DigitChar(n)]
  }

  lemma ReadNum(n: int, padded: bool, rest: string)
    requires 1 <= n <= 99 && (rest != [] ==> !IsDigit(rest[0]))
    ensures GetNum(Num(n, padded) + rest, false) == Some(Read(n, rest))
  {
    var v := Num(n, padded) + rest;
    if padded || n >= 10 {
      ReadPad2(n, rest, false);
    } else {
      assert v[0] == DigitChar(n) && v[1..] == rest;
      assert |v| >= 2 ==> v[1] == rest[0];
    }
  }

  lemma NumDigits(n: int, padded: bool)
    requires 1 <= n <= 99
    ensures |Num(n, padded)| >= 1 && forall i :: 0 <= i < |Num(n, padded)| ==> IsDigit(Num(n, padded)[i])
  {
  }

  /** Reading back dates whose day and month may lack their leading zeros. */
  lemma ParseLoose(d: Date, p: bool, q: bool)
    requires IsCalendar(d)
    ensures Parse(DayFirst(false, true), Num(d.day, p) + "/" + Num(d.month, q) + "/" + Pad4(d.year)) == Some(d)
    ensures Parse(YearFirst(false), Pad4(d.year) + "/" + Num(d.month, q) + "/" + Num(d.day, p)) == Some(d)
  {
    hide DaysIn, GetNum, Year4, Num, Pad4, Skip;
    var y, m, e := Pad4(d.year), Num(d.month, q), Num(d.day, p);
    assert e + "/" + m + "/" + y == e + ("/" + (m + ("/" + (y + []))));
    ReadNum(d.day, p, "/" + (m + ("/" + (y + []))));
    SkipChar('/', m + ("/" + (y + [])));
    ReadNum(d.month, q, "/" + (y + []));
    SkipChar('/', y + []);
    ReadPad4(d.year, []);
    assert y + "/" + m + "/" + e == y + ("/" + (m + ("/" + (e + []))));
    ReadPad4(d.year, "/" + (m + ("/" + (e + []))));
    SkipChar('/', m + ("/" + (e + [])));
    ReadNum(d.month, q, "/" + (e + []));
    SkipChar('/', e + []);
    ReadNum(d.day, p, []);
  }

  lemma ParseLooseShort(d: Date, p: bool, q: bool)
    requires IsCalendar(d) && 1969 <= d.year <= 2068
    ensures Parse(DayFirst(false, false), Num(d.day, p) + "/" + Num(d.month, q) + "/" + Pad2(d.year % 100)) == Some(d)
  {
    hide DaysIn, GetNum, Year2, Pad2, Num, Skip;
    var y, m, e := Pad2(d.year % 100), Num(d.month, q), Num(d.day, p);
    assert e + "/" + m + "/" + y == e + ("/" + (m + ("/" + (y + []))));
    ReadNum(d.day, p, "/" + (m + ("/" + (y + []))));
    SkipChar('/', m + ("/" + (y + [])));
    ReadNum(d.month, q, "/" + (y + []));
    SkipChar('/', y + []);
    ReadYear2(d.year);
  }

  // ---- DateToISO ----

  /** Dots and dashes become slashes. */
  function Slashes(s: string): (t: string)
    ensures |t| == |s|
  {
    ReplaceChar(ReplaceChar(s, '.', '/'), '-', '/')
  }

  lemma SlashesAt(s: string)
    ensures forall i :: 0 <= i < |s| ==> Slashes(s)[i] == if s[i] == '.' || s[i] == '-' then '/' else s[i]
    ensures forall i :: 0 <= i < |s| ==> IsSpace(Slashes(s)[i]) == IsSpace(s[i])
  {
  }

  lemma SlashesTwice(s: string)
    ensures Slashes(Slashes(s)) == Slashes(s)
  {
    SlashesAt(s);
    SlashesAt(Slashes(s));
  }

  lemma SlashesConcat(a: string, b: string)
    ensures Slashes(a + b) == Slashes(a) + Slashes(b)
  {
    SlashesAt(a);
    SlashesAt(b);
    SlashesAt(a + b);
  }

  lemma SlashesOfWord(w: string)
    requires IsWord(w)
    ensures IsWord(Slashes(w)) && Fields(Slashes(w)) == [Slashes(w)] && Fields(w) == [w]
  {
    SlashesAt(w);
    FieldsOfWord(w);
    FieldsOfWord(Slashes(w));
  }

  lemma FieldsOfWord(w: string)
    requires IsWord(w)
    ensures Fields(w) == [w]
  {
    assert w + [] == w;
    FieldsWord(w, []);
  }

  function SlashesAll(ws: seq<string>): seq<string> {
    if ws == [] then [] else [Slashes(ws[0])] + SlashesAll(ws[1..])
  }

  /** Splitting into tokens and replacing separators commute. */
  lemma {:induction false} FieldsSlashes(s: string)
    ensures Fields(Slashes(s)) == SlashesAll(Fields(s))
    decreases |s|
  {
    hide IsSpace, Slashes;
    SlashesAt(s);
    if s == [] {
    } else if IsSpace(s[0]) {
      assert Slashes(s)[1..] == Slashes(s[1..]) by { SlashesAt(s[1..]); }
      FieldsSlashes(s[1..]);
    } else {
      var n := WordLen(s);
      var w, rest := s[..n], s[n..];
      assert s == w + rest;
      SlashesConcat(w, rest);
      SlashesAt(w);
      SlashesAt(rest);
      FieldsWord(w, rest);
      FieldsWord(Slashes(w), Slashes(rest));
      FieldsSlashes(rest);
    }
  }

  /** The date of the first token, in ISO form. */
  function DateToISO(s: string): Option<string> {
    var ws := Fields(Slashes(s));
    if ws == [] then None else ReadToken(ws[0])
  }

  function ReadToken(v: string): Option<string> {
    FirstOfIsCalendar(v);
    match FirstOf(LAYOUTS, v)
    case Some(d) => Some(Iso(d))
    case None => None
  }

  lemma FirstOfIsCalendar(v: string)
    ensures FirstOf(LAYOUTS, v).Some? ==> IsCalendar(FirstOf(LAYOUTS, v).value)
  {
    hide Parse, FirstOf;
    FirstOfSound(LAYOUTS, v);
    if FirstOf(LAYOUTS, v).Some? {
      var l :| l in LAYOUTS && Parse(l, v) == FirstOf(LAYOUTS, v);
      ParsedIsCalendar(l, v);
    }
  }

  // ---- no layout accepts white space ----

  lemma NumNoSpace(v: string, fixed: bool)
    requires GetNum(v, fixed).Some? && NoSpace(GetNum(v, fixed).value.rest)
    ensures NoSpace(v)
  {
    var rest := GetNum(v, fixed).value.rest;
    assert forall i :: |v| - |rest| <= i < |v| ==> v[i] == rest[i - (|v| - |rest|)];
  }

  lemma SkipNoSpace(v: string)
    requires Skip(v, '/').Some? && NoSpace(Skip(v, '/').value)
    ensures NoSpace(v)
  {
    assert forall i :: 1 <= i < |v| ==> v[i] == v[1..][i - 1];
  }

  lemma YearNoSpace(v: string, long: bool)
    requires Year(v, long).Some? && NoSpace(Year(v, long).value.rest)
    ensures NoSpace(v)
  {
    var rest := Year(v, long).value.rest;
    assert forall i :: |v| - |rest| <= i < |v| ==> v[i] == rest[i - (|v| - |rest|)];
  }

  lemma AcceptsNoSpace(l: Layout, v: string)
    requires Parse(l, v).Some?
    ensures NoSpace(v)
  {
    hide GetNum, Skip, Year, Year4, NoSpace, DaysIn;
    match l {
      case DayFirst(fixed, long) =>
        var d := GetNum(v, fixed).value;
        var v1 := Skip(d.rest, '/').value;
        var m := GetNum(v1, fixed).value;
        var v2 := Skip(m.rest, '/').value;
        Nothing();
        YearNoSpace(v2, long);
        SkipNoSpace(m.rest);
        NumNoSpace(v1, fixed);
        SkipNoSpace(d.rest);
        NumNoSpace(v, fixed);
      case YearFirst(fixed) =>
        LongYear(v);
        var y := Year(v, true).value;
        var v1 := Skip(y.rest, '/').value;
        var m := GetNum(v1, fixed).value;
        var v2 := Skip(m.rest, '/').value;
        Nothing();
        NumNoSpace(v2, fixed);
        SkipNoSpace(m.rest);
        NumNoSpace(v1, fixed);
        SkipNoSpace(y.rest);
        YearNoSpace(v, true);
    }
  }

  lemma Nothing()
    ensures NoSpace([])
  {
  }

  lemma LongYear(v: string)
    ensures Year(v, true) == Year4(v)
  {
  }

  // ---- the code ----

  lemma {:induction false} CollapseLength(s: string)
    ensures |JoinSpace(Fields(s))| <= |s|
    decreases |s|
  {
    if s == [] {
    } else if IsSpace(s[0]) {
      CollapseLength(s[1..]);
    } else {
      var n := WordLen(s);
      var rest := s[n..];
      FieldsWord(s[..n], rest);
      assert s == s[..n] + rest;
      if Fields(rest) != [] {
        assert rest != [] && IsSpace(rest[0]);
        CollapseLength(rest[1..]);
        assert Fields(rest) == Fields(rest[1..]);
        assert Fields(s)[1..] == Fields(rest);
      }
    }
  }

  /** Shape of a collapsed text: its first word, and a blank behind it if there are more. */
  lemma CollapsedShape(ws: seq<string>)
    requires ws != [] && forall i :: 0 <= i < |ws| ==> IsWord(ws[i])
    ensures var s := JoinSpace(ws);
            && WordLen(s) == |ws[0]| && s[..WordLen(s)] == ws[0]
            && (|ws| == 1 <==> s == ws[0]) && (|ws| > 1 ==> |ws[0]| < |s| && !NoSpace(s))
  {
    var s := JoinSpace(ws);
    if |ws| == 1 {
      assert s == ws[0] + [];
      WordLenWord(ws[0], []);
    } else {
      var rest := " " + JoinSpace(ws[1..]);
      assert s == ws[0] + rest;
      WordLenWord(ws[0], rest);
      assert s[|ws[0]|] == ' ';
    }
  }

  lemma CleanFields(s0: string)
    ensures Fields(Slashes(TrimSpace(s0))) == Fields(Slashes(s0))
  {
    FieldsSlashes(TrimSpace(s0));
    FieldsSlashes(s0);
    FieldsOfTrim(s0);
  }

  lemma {:induction false} FirstOfTail(ls: seq<Layout>, v: string, i: nat)
    requires i < |ls| && Parse(ls[i], v).None?
    ensures FirstOf(ls[i..], v) == FirstOf(ls[i + 1..], v)
  {
    assert ls[i..][0] == ls[i] && ls[i..][1..] == ls[i + 1..];
  }

  /** `DateToISO` as it is written: the layouts are tried on the whole cleaned text and then, if it has a
      blank, once more on what stands before the blank. `depth` counts the recursive calls. */
  method DateToIso(input: string) returns (iso: Option<string>, depth: nat)
    ensures iso == DateToISO(input)
    ensures depth <= 1 && (depth == 1 ==> |Fields(input)| > 1)
    decreases |input|
  {
    hide Parse, IsSpace, Slashes, TrimSpace, Fields, JoinSpace, WordLen, NoSpace, IsCalendar, Iso, FirstOf;
    depth := 0;
    ghost var ws := Fields(Slashes(input));
    CleanFields(input);
    var s := TrimSpace(input);
    if s == "" {
      NoFields();
      return None, depth;
    }
    s := Slashes(s);
    CollapseLength(s);
    s := Collapse(s);
    if ws == [] {
      NoFields();
    } else {
      CollapsedShape(ws);
    }
    var i := 0;
    while i < |LAYOUTS|
      invariant 0 <= i <= |LAYOUTS|
      invariant FirstOf(LAYOUTS[i..], s) == FirstOf(LAYOUTS, s)
    {
      var t := Parse(LAYOUTS[i], s);
      if t.Some? {
        FirstOfAccepts(LAYOUTS, s, LAYOUTS[i]);
        ParsedIsCalendar(LAYOUTS[i], s);
        AcceptsNoSpace(LAYOUTS[i], s);
        AcceptsSomething(LAYOUTS[i], s);
        return Some(Iso(t.value)), depth;
      }
      FirstOfTail(LAYOUTS, s, i);
      i := i + 1;
    }
    NoLayoutLeft(s);
    var n := WordLen(s);
    if 0 < n < |s| {
      FirstToken(input);
      var inner: nat;
      iso, inner := DateToIso(s[..n]);
      depth := inner + 1;
      TokenAlone(ws[0]);
      return iso, depth;
    }
    return None, depth;
  }

  lemma NoFields()
    ensures Fields(Slashes("")) == [] && JoinSpace([]) == ""
  {
  }

  lemma NoLayoutLeft(s: string)
    ensures FirstOf(LAYOUTS[|LAYOUTS|..], s) == None
  {
  }

  lemma AcceptsSomething(l: Layout, v: string)
    requires Parse(l, v).Some?
    ensures v != []
  {
  }

  /** The slashed first token of a text is a token by itself. */
  lemma TokenAlone(w: string)
    requires IsWord(w) && Slashes(w) == w
    ensures DateToISO(w) == ReadToken(w) && |Fields(w)| == 1
  {
    hide FirstOf;
    SlashesOfWord(w);
  }

  lemma FirstToken(s: string)
    ensures var ws := Fields(Slashes(s)); |ws| == |Fields(s)| && (ws != [] ==> Slashes(ws[0]) == ws[0])
  {
    hide IsSpace, Slashes;
    FieldsSlashes(s);
    SlashesAllLength(Fields(s));
    if Fields(s) != [] {
      SlashesTwice(Fields(s)[0]);
    }
  }

  lemma {:induction false} SlashesAllLength(ws: seq<string>)
    ensures |SlashesAll(ws)| == |ws|
  {
    if ws != [] {
      SlashesAllLength(ws[1..]);
    }
  }

  // ---- theorems ----

  /** The answer depends on the first token alone. */
  lemma FirstTokenDecides(s: string)
    ensures Fields(s) == [] ==> DateToISO(s) == None
    ensures Fields(s) != [] ==> DateToISO(s) == DateToISO(Fields(s)[0])
  {
    hide FirstOf, IsSpace, Slashes;
    FieldsSlashes(s);
    if Fields(s) != [] {
      SlashesOfWord(Fields(s)[0]);
    }
  }

  /** A token that some layout reads as `d` once its separators are slashes. */
  lemma TokenRead(w: string, l: Layout, d: Date)
    requires IsWord(w) && l in LAYOUTS && Parse(l, Slashes(w)) == Some(d) && IsCalendar(d)
    ensures DateToISO(w) == Some(Iso(d))
  {
    hide FirstOf, Parse, IsSpace, Slashes, IsCalendar;
    SlashesOfWord(w);
    FirstOfAccepts(LAYOUTS, Slashes(w), l);
  }

  lemma DigitsAreWord(a: string, b: string, c: string, sep: char)
    requires sep in {'/', '-', '.'} && |a| >= 1
    requires forall i :: 0 <= i < |a| ==> IsDigit(a[i])
    requires forall i :: 0 <= i < |b| ==> IsDigit(b[i])
    requires forall i :: 0 <= i < |c| ==> IsDigit(c[i])
    ensures IsWord(a + [sep] + b + [sep] + c)
    ensures Slashes(a + [sep] + b + [sep] + c) == a + "/" + b + "/" + c
  {
    var s := a + [sep] + b + [sep] + c;
    SlashesAt(s);
    assert forall i :: 0 <= i < |s| ==> IsDigit(s[i]) || s[i] == sep;
  }

  /** Every calendar date, written day first or year first with slashes, dashes or dots, comes back in
      ISO form; so do two-digit years, read as 1969 to 2068. */
  lemma WrittenDatesRead(d: Date, sep: char)
    requires IsCalendar(d) && sep in {'/', '-', '.'}
    ensures DateToISO(Pad2(d.day) + [sep] + Pad2(d.month) + [sep] + Pad4(d.year)) == Some(Iso(d))
    ensures DateToISO(Pad4(d.year) + [sep] + Pad2(d.month) + [sep] + Pad2(d.day)) == Some(Iso(d))
    ensures 1969 <= d.year <= 2068 ==>
              DateToISO(Pad2(d.day) + [sep] + Pad2(d.month) + [sep] + Pad2(d.year % 100)) == Some(Iso(d))
  {
    hide DateToISO, Iso, Parse, DaysIn;
    var y, m, e := Pad4(d.year), Pad2(d.month), Pad2(d.day);
    ParseWritten(d, true);
    DigitsAreWord(e, m, y, sep);
    TokenRead(e + [sep] + m + [sep] + y, DayFirst(true, true), d);
    DigitsAreWord(y, m, e, sep);
    TokenRead(y + [sep] + m + [sep] + e, YearFirst(true), d);
    if 1969 <= d.year <= 2068 {
      var z := Pad2(d.year % 100);
      ParseShortYear(d, true);
      DigitsAreWord(e, m, z, sep);
      TokenRead(e + [sep] + m + [sep] + z, DayFirst(true, false), d);
    }
  }

  /** Every answer is the ISO form of a calendar date, and is its own answer. */
  lemma IsoIsStable(s: string)
    requires DateToISO(s).Some?
    ensures exists d :: IsCalendar(d) && DateToISO(s).value == Iso(d)
    ensures DateToISO(DateToISO(s).value) == DateToISO(s)
  {
    hide FirstOf, Slashes, Fields, IsSpace;
    var d := FirstOf(LAYOUTS, Fields(Slashes(s))[0]).value;
    FirstOfIsCalendar(Fields(Slashes(s))[0]);
    assert DateToISO(s).value == Iso(d);
    WrittenDatesRead(d, '-');
  }

  /** The same without leading zeros, on the day, on the month, or on both: "5/3/2020" and "2020-3-05" are read. */
  lemma LooseDatesRead(d: Date, p: bool, q: bool, sep: char)
    requires IsCalendar(d) && sep in {'/', '-', '.'}
    ensures DateToISO(Num(d.day, p) + [sep] + Num(d.month, q) + [sep] + Pad4(d.year)) == Some(Iso(d))
    ensures DateToISO(Pad4(d.year) + [sep] + Num(d.month, q) + [sep] + Num(d.day, p)) == Some(Iso(d))
    ensures 1969 <= d.year <= 2068 ==>
              DateToISO(Num(d.day, p) + [sep] + Num(d.month, q) + [sep] + Pad2(d.year % 100)) == Some(Iso(d))
  {
    hide DateToISO, Iso, Parse, DaysIn, Num;
    var y, m, e := Pad4(d.year), Num(d.month, q), Num(d.day, p);
    NumDigits(d.month, q);
    NumDigits(d.day, p);
    ParseLoose(d, p, q);
    DigitsAreWord(e, m, y, sep);
    TokenRead(e + [sep] + m + [sep] + y, DayFirst(false, true), d);
    DigitsAreWord(y, m, e, sep);
    TokenRead(y + [sep] + m + [sep] + e, YearFirst(false), d);
    if 1969 <= d.year <= 2068 {
      var z := Pad2(d.year % 100);
      ParseLooseShort(d, p, q);
      DigitsAreWord(e, m, z, sep);
      TokenRead(e + [sep] + m + [sep] + z, DayFirst(false, false), d);
    }
  }

  /** Nothing that is no calendar date is read as one: the thirty-first of June, or the twenty-ninth of February in a
      common year, gives no date in any of the written forms. */
  lemma WrongDaysRefused(y: int, m: int, e: int, sep: char)
    requires 0 <= y <= 9999 && 1 <= m <= 99 && 1 <= e <= 99 && !IsCalendar(Date(y, m, e)) && sep in {'/', '-', '.'}
    ensures DateToISO(Pad2(e) + [sep] + Pad2(m) + [sep] + Pad4(y)) == None
  {
    hide Parse, FirstOf, DaysIn, Slashes, IsSpace;
    var v := Pad2(e) + "/" + Pad2(m) + "/" + Pad4(y);
    DigitsAreWord(Pad2(e), Pad2(m), Pad4(y), sep);
    SlashesOfWord(Pad2(e) + [sep] + Pad2(m) + [sep] + Pad4(y));
    FirstOfSound(LAYOUTS, v);
    if FirstOf(LAYOUTS, v).Some? {
      var l :| l in LAYOUTS && Parse(l, v) == FirstOf(LAYOUTS, v);
      ReadsItself(l, v, y, m, e);
      ParsedIsCalendar(l, v);
    }
  }

  /** Whatever layout reads a padded day-first text reads its own numbers. */
  lemma ReadsItself(l: Layout, v: string, y: int, m: int, e: int)
    requires 0 <= y <= 9999 && 1 <= m <= 99 && 1 <= e <= 99 && v == Pad2(e) + "/" + Pad2(m) + "/" + Pad4(y)
    requires Parse(l, v).Some?
    ensures Parse(l, v) == Some(Date(y, m, e))
  {
    hide DaysIn, GetNum, Year4, Year2, Pad2, Pad4, Skip;
    var a, b, c := Pad2(e), Pad2(m), Pad4(y);
    assert v == a + ("/" + (b + ("/" + (c + []))));
    ReadPad2(e, "/" + (b + ("/" + (c + []))), l.fixed);
    SkipChar('/', b + ("/" + (c + [])));
    ReadPad2(m, "/" + (c + []), l.fixed);
    SkipChar('/', c + []);
    ReadPad4(y, []);
    PadLengths(e, m, y);
    FourDigits(c);
    NoYearInFront(v);
  }

  lemma PadLengths(e: int, m: int, y: int)
    requires 0 <= y <= 9999 && 1 <= m <= 99 && 1 <= e <= 99
    ensures |Pad2(e)| == 2 && |Pad2(m)| == 2 && |Pad4(y)| == 4
  {
  }

  lemma FourDigits(c: string)
    requires |c| == 4
    ensures Year2(c + []).Some? ==> Year2(c + []).value.rest != []
  {
  }

  lemma NoYearInFront(v: string)
    requires |v| > 2 && v[2] == '/'
    ensures Year4(v) == None
  {
  }
}
