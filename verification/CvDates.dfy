/** `normalizeCVDate`: full dates, month-precision dates, and Portuguese month names tried through a map
    whose iteration order is not fixed. */
module CvDates {
  import opened Text
  import opened Domain
  import opened Dates

  datatype YearMonth = YearMonth(year: int, month: int)

  predicate IsMonth(ym: YearMonth) { 0 <= ym.year <= 9999 && 1 <= ym.month <= 12 }

  /** "2006-01". */
  function Written(ym: YearMonth): string
    requires IsMonth(ym)
  {
    Pad4(ym.year) + "-" + Pad2(ym.month)
  }

  // ---- month names ----

  const LONG: seq<string> :=
    ["January", "February", "March", "April", "May", "June", "July", "August", "September", "October", "November",
     "December"]

  const SHORT: seq<string> := ["Jan", "Feb", "Mar", "Apr", "May", "Jun", "Jul", "Aug", "Sep", "Oct", "Nov", "Dec"]

  predicate IsLetter(c: char) { 'a' <= c <= 'z' || 'A' <= c <= 'Z' }

  function LowerAscii(c: char): char { if 'A' <= c <= 'Z' then c + ' ' else c }

  /** The case-insensitive comparison of the `time` package: ASCII letters only. */
  predicate MatchFold(a: string, b: string) {
    |a| == |b| && forall i :: 0 <= i < |a| ==> a[i] == b[i] || (IsLetter(a[i]) && LowerAscii(a[i]) == LowerAscii(b[i]))
  }

  /** The first name of the table, from entry `k` on, that the text starts with. */
  function LookupFrom(tab: seq<string>, v: string, k: nat): (r: Option<Read>)
    requires k <= |tab|
    ensures r.Some? ==> k < r.value.n <= |tab|
    decreases |tab| - k
  {
    if k == |tab| then None
    else if |v| >= |tab[k]| && MatchFold(v[..|tab[k]|], tab[k]) then Some(Read(k + 1, v[|tab[k]|..]))
    else LookupFrom(tab, v, k + 1)
  }

  function MonthName(v: string, long: bool): Option<Read> { LookupFrom(if long then LONG else SHORT, v, 0) }

  function CutSpace(v: string): string { if v != [] && v[0] == ' ' then CutSpace(v[1..]) else v }

  /** A literal of a layout; a blank stands for any number of blanks, and matches the end of the text. */
  function SkipLiteral(v: string, c: char): Option<string> {
    if c != ' ' then Skip(v, c) else if v != [] && v[0] != ' ' then None else Some(CutSpace(v))
  }

  // ---- month layouts ----

  /** "2006/01", "2006/1"; "01/2006", "1/2006", "01/06", "1/06"; "January 2006" and the like. */
  datatype MonthLayout =
    | YearThenMonth(fixed: bool)
    | MonthThenYear(fixed: bool, long: bool)
    | Named(long: bool, sep: char)

  function Whole(y: Read, m: int): Option<YearMonth> { if y.rest == [] then Some(YearMonth(y.n, m)) else None }

  function ParseMonth(l: MonthLayout, v: string): (r: Option<YearMonth>)
    ensures r.Some? ==> IsMonth(r.value)
  {
    match l
    case YearThenMonth(fixed) =>
      var y :- Year4(v);
      var v1 :- Skip(y.rest, '/');
      var m :- Month(v1, fixed);
      Whole(Read(y.n, m.rest), m.n)
    case MonthThenYear(fixed, long) =>
      var m :- Month(v, fixed);
      var v1 :- Skip(m.rest, '/');
      var y :- Year(v1, long);
      Whole(y, m.n)
    case Named(long, sep) =>
      var m :- MonthName(v, long);
      var v1 :- SkipLiteral(m.rest, sep);
      var y :- Year4(v1);
      Whole(y, m.n)
  }

  const MONTH_LAYOUTS: seq<MonthLayout> :=
    [YearThenMonth(true), YearThenMonth(false), MonthThenYear(true, true), MonthThenYear(false, true),
     MonthThenYear(true, false), MonthThenYear(false, false), Named(true, ' '), Named(false, ' '), Named(true, '/'),
     Named(false, '/')]

  const NAMED_LAYOUTS: seq<MonthLayout> := [Named(true, ' '), Named(false, ' ')]

  function FirstMonth(ls: seq<MonthLayout>, v: string): (r: Option<YearMonth>)
    ensures r.Some? ==> IsMonth(r.value)
  {
    if ls == [] then None
    else match ParseMonth(ls[0], v)
      case Some(ym) => Some(ym)
      case None => FirstMonth(ls[1..], v)
  }

  // ---- the Portuguese map ----

  /** The map from Portuguese to English month names. */
  function English(name: string): Option<string> {
    if name == "janeiro" then Some("January") else if name == "fevereiro" then Some("February")
    else if name == "mar\U{E7}o" then Some("March") else if name == "marco" then Some("March")
    else if name == "abril" then Some("April") else if name == "maio" then Some("May")
    else EnglishLate(name)
  }

  function EnglishLate(name: string): Option<string> {
    if name == "junho" then Some("June") else if name == "julho" then Some("July")
    else if name == "agosto" then Some("August") else if name == "setembro" then Some("September")
    else if name == "outubro" then Some("October") else if name == "novembro" then Some("November")
    else if name == "dezembro" then Some("December")
    else EnglishShort(name)
  }

  function EnglishShort(name: string): Option<string> {
    if name == "jan" then Some("Jan") else if name == "fev" then Some("Feb") else if name == "mar" then Some("Mar")
    else if name == "abr" then Some("Apr") else if name == "mai" then Some("May") else if name == "jun" then Some("Jun")
    else if name == "jul" then Some("Jul") else if name == "ago" then Some("Aug") else if name == "set" then Some("Sep")
    else if name == "out" then Some("Oct") else if name == "nov" then Some("Nov") else if name == "dez" then Some("Dec")
    else None
  }

  predicate IsNameChar(c: char) { 'a' <= c <= 'z' || c == '\U{E7}' }

  predicate IsName(s: string) { s != [] && forall i :: 0 <= i < |s| ==> IsNameChar(s[i]) }

  lemma NamesAreLetters(name: string)
    ensures English(name).Some? ==> IsName(name) && ' ' !in English(name).value
  {
    hide EnglishLate;
    LateNamesAreLetters(name);
  }

  lemma LateNamesAreLetters(name: string)
    ensures EnglishLate(name).Some? ==> IsName(name) && ' ' !in EnglishLate(name).value
  {
    hide EnglishShort;
    ShortNamesAreLetters(name);
  }

  lemma ShortNamesAreLetters(name: string)
    ensures EnglishShort(name).Some? ==> IsName(name) && ' ' !in EnglishShort(name).value
  {
    hide IsName;
    if EnglishShort(name).Some? {
      ThreeLetters(name);
      NoBlankInThree(EnglishShort(name).value);
    }
  }

  lemma ThreeLetters(s: string)
    requires |s| == 3 && IsNameChar(s[0]) && IsNameChar(s[1]) && IsNameChar(s[2])
    ensures IsName(s)
  {
  }

  lemma NoBlankInThree(s: string)
    requires |s| == 3 && s[0] != ' ' && s[1] != ' ' && s[2] != ' '
    ensures ' ' !in s
  {
  }

  /** An enumeration of the map: every entry, in any order. */
  ghost predicate Enumerates(order: seq<(string, string)>) {
    && (forall p :: p in order ==> English(p.0) == Some(p.1))
    && (forall name :: English(name).Some? ==> (name, English(name).value) in order)
  }

  predicate InCutset(c: char) { c == ' ' || c == '/' || c == '.' || c == '-' }

  /** `strings.TrimLeft(s, " /.-")`. */
  function TrimCutset(s: string): (t: string)
    ensures t != [] ==> !InCutset(t[0])
    ensures s != [] && !InCutset(s[0]) ==> t == s
  {
    if s != [] && InCutset(s[0]) then TrimCutset(s[1..]) else s
  }

  /** One entry of the map tried on the lower-cased text. */
  function TryName(name: string, english: string, v: string): (r: Option<YearMonth>)
    ensures r.Some? ==> IsMonth(r.value)
  {
    if !HasPrefix(v, name) then None
    else FirstMonth(NAMED_LAYOUTS, english + " " + TrimCutset(TrimSpace(TrimPrefix(v, name))))
  }

  function FirstName(order: seq<(string, string)>, v: string): (r: Option<YearMonth>)
    ensures r.Some? ==> IsMonth(r.value)
  {
    if order == [] then None
    else match TryName(order[0].0, order[0].1, v)
      case Some(ym) => Some(ym)
      case None => FirstName(order[1..], v)
  }

  /** `normalizeCVDate` for a given iteration order of the map. */
  function CvDate(lower: char -> char, order: seq<(string, string)>, s: string): string {
    var t := TrimSpace(s);
    if t == "" then ""
    else match DateToISO(t)
      case Some(iso) => iso
      case None =>
        var u := Collapse(Slashes(t));
        match FirstMonth(MONTH_LAYOUTS, u)
        case Some(ym) => Written(ym)
        case None => match FirstName(order, Lower(lower, u))
          case Some(ym) => Written(ym)
          case None => ""
  }

  // ---- at most one name fits ----

  lemma CutSpaceKeeps(v: string)
    requires v != [] && v[0] != ' '
    ensures CutSpace(v) == v && CutSpace(" " + v) == v
  {
    assert (" " + v)[1..] == v;
  }

  lemma {:induction false} LookupTaken(tab: seq<string>, v: string, k: nat)
    requires k <= |tab| && LookupFrom(tab, v, k).Some?
    requires forall i :: 0 <= i < |tab| ==> ' ' !in tab[i]
    ensures var r := LookupFrom(tab, v, k).value;
            |r.rest| <= |v| && v[|v| - |r.rest|..] == r.rest && ' ' !in v[..|v| - |r.rest|] && k < r.n <= |tab|
    decreases |tab| - k
  {
    if |v| >= |tab[k]| && MatchFold(v[..|tab[k]|], tab[k]) {
      var n := |tab[k]|;
      forall i | 0 <= i < n ensures v[..n][i] != ' ' {
        assert tab[k][i] in tab[k];
      }
    } else {
      LookupTaken(tab, v, k + 1);
    }
  }

  lemma NoBlanksInTables(long: bool)
    ensures var tab := if long then LONG else SHORT; |tab| == 12 && forall i :: 0 <= i < |tab| ==> ' ' !in tab[i]
  {
  }

  /** "<name> <rest>" is read as month and year only if the rest is exactly a year. */
  lemma NamedNeedsYear(long: bool, name: string, rest: string)
    requires ' ' !in name && (rest != [] ==> rest[0] != ' ')
    requires ParseMonth(Named(long, ' '), name + " " + rest).Some?
    ensures rest != [] && IsDigit(rest[0])
  {
    hide MonthName, CutSpace;
    var v := name + " " + rest;
    var tab := if long then LONG else SHORT;
    var r := MonthName(v, long).value;
    NoBlanksInTables(long);
    TakenByName(v, long);
    var n := |v| - |r.rest|;
    assert v[|name|] == ' ' && forall i :: 0 <= i < |name| ==> v[i] == name[i];
    BlankEnds(v, n, name);
    assert r.rest == v[n..];
    if n == |name| {
      assert r.rest == " " + rest;
      if rest != [] {
        CutSpaceKeeps(rest);
      } else {
        CutBlank();
      }
    }
  }

  lemma TakenByName(v: string, long: bool)
    requires MonthName(v, long).Some?
    ensures var r := MonthName(v, long).value;
            |r.rest| <= |v| && v[|v| - |r.rest|..] == r.rest && ' ' !in v[..|v| - |r.rest|]
    ensures 1 <= MonthName(v, long).value.n <= 12
  {
    NoBlanksInTables(long);
    LookupTaken(if long then LONG else SHORT, v, 0);
  }

  lemma CutBlank()
    ensures CutSpace(" " + []) == []
  {
    assert (" " + [])[1..] == [];
  }

  /** A blank-free prefix that is followed by a blank, or by nothing, is the whole first word. */
  lemma BlankEnds(v: string, n: nat, name: string)
    requires n <= |v| && |name| < |v| && v[|name|] == ' ' && ' ' !in v[..n]
    requires forall i :: 0 <= i < |name| ==> v[i] == name[i] && name[i] != ' '
    ensures n <= |name| && (n < |v| && v[n] == ' ' ==> n == |name|)
  {
    assert forall i :: 0 <= i < n ==> v[i] == v[..n][i];
  }

  /** A name that leads to a date is not followed by a letter. */
  lemma NoLetterBehind(name: string, english: string, v: string)
    requires TryName(name, english, v).Some? && ' ' !in english
    ensures |v| > |name| && name == v[..|name|] && !IsNameChar(v[|name|])
  {
    hide ParseMonth, IsSpace, FirstMonth, TrimSpace, TrimCutset;
    var tail := v[|name|..];
    var rest := TrimCutset(TrimSpace(tail));
    FirstMonthSound(NAMED_LAYOUTS, english + " " + rest);
    var l :| l in NAMED_LAYOUTS && ParseMonth(l, english + " " + rest).Some?;
    NamedNeedsYear(l.long, english, rest);
    TrimKeepsFirst(tail);
  }

  lemma {:induction false} FirstMonthSound(ls: seq<MonthLayout>, v: string)
    ensures FirstMonth(ls, v).Some? ==> exists l :: l in ls && ParseMonth(l, v) == FirstMonth(ls, v)
    ensures FirstMonth(ls, v).None? ==> forall l :: l in ls ==> ParseMonth(l, v).None?
  {
    hide ParseMonth;
    if ls != [] {
      FirstMonthSound(ls[1..], v);
      if ParseMonth(ls[0], v).Some? {
        assert ls[0] in ls;
      } else if FirstMonth(ls, v).Some? {
        var l :| l in ls[1..] && ParseMonth(l, v) == FirstMonth(ls[1..], v);
        assert l in ls;
      }
    }
  }

  /** Trimming keeps a leading letter, and finds nothing in nothing. */
  lemma TrimKeepsFirst(s: string)
    ensures var t := TrimCutset(TrimSpace(s)); t != [] ==> s != [] && (IsNameChar(s[0]) ==> t[0] == s[0])
  {
    hide IsSpace, TrimSpace, InCutset, IsNameChar;
    if s != [] && IsNameChar(s[0]) {
      LettersAreNoSpace(s[0]);
      TrimSpaceFirst(s);
    }
  }

  lemma TrimSpaceFirst(s: string)
    requires s != [] && !IsSpace(s[0])
    ensures var t := TrimSpace(s); t != [] && t[0] == s[0]
  {
    hide IsSpace;
    assert TrimLeft(s) == s;
    var t := TrimRight(s);
    forall i | |t| <= i < |s| ensures IsSpace(s[i]) {
      assert s[i] == s[|t|..][i - |t|];
    }
    assert t[0] == s[0];
  }

  lemma LettersAreNoSpace(c: char)
    requires IsNameChar(c)
    ensures !IsSpace(c) && !InCutset(c) && !IsDigit(c)
  {
  }

  /** Letters go on no further than the first character that is none. */
  lemma LettersEnd(v: string, n: nat, name: string)
    requires n < |v| && !IsNameChar(v[n]) && IsName(name) && |name| <= |v| && name == v[..|name|]
    ensures |name| <= n
  {
    hide IsNameChar;
    assert forall i :: 0 <= i < |name| ==> v[i] == name[i];
  }

  /** Two entries of the map that both lead to a date are the same entry. */
  lemma OneNameFits(a: string, b: string, v: string)
    requires English(a).Some? && English(b).Some?
    requires TryName(a, English(a).value, v).Some? && TryName(b, English(b).value, v).Some?
    ensures a == b
  {
    hide English, TryName;
    NamesAreLetters(a);
    NamesAreLetters(b);
    NoLetterBehind(a, English(a).value, v);
    NoLetterBehind(b, English(b).value, v);
    LettersEnd(v, |a|, b);
    LettersEnd(v, |b|, a);
  }

  lemma {:induction false} FirstNameSound(order: seq<(string, string)>, v: string)
    ensures FirstName(order, v).Some? ==> exists p :: p in order && TryName(p.0, p.1, v) == FirstName(order, v)
    ensures FirstName(order, v).None? ==> forall p :: p in order ==> TryName(p.0, p.1, v).None?
  {
    hide TryName;
    if order != [] {
      FirstNameSound(order[1..], v);
      if TryName(order[0].0, order[0].1, v).Some? {
        assert order[0] in order;
      } else if FirstName(order, v).Some? {
        var p :| p in order[1..] && TryName(p.0, p.1, v) == FirstName(order[1..], v);
        assert p in order;
      }
    }
  }

  lemma NamesInAnyOrder(order: seq<(string, string)>, other: seq<(string, string)>, v: string)
    requires Enumerates(order) && Enumerates(other)
    ensures FirstName(order, v) == FirstName(other, v)
  {
    hide FirstName, Enumerates;
    NameFound(order, other, v);
    NameFound(other, order, v);
  }

  lemma NameFound(order: seq<(string, string)>, other: seq<(string, string)>, v: string)
    requires Enumerates(order) && Enumerates(other)
    ensures FirstName(order, v).Some? ==> FirstName(other, v) == FirstName(order, v)
  {
    hide TryName, English, FirstName;
    FirstNameSound(order, v);
    FirstNameSound(other, v);
    if FirstName(order, v).Some? {
      var p :| p in order && TryName(p.0, p.1, v) == FirstName(order, v);
      assert (p.0, English(p.0).value) in other;
      var q :| q in other && TryName(q.0, q.1, v) == FirstName(other, v);
      OneNameFits(p.0, q.0, v);
    }
  }

  /** `normalizeCVDate` gives the same answer for every iteration order of its map. */
  lemma MapOrderIrrelevant(lower: char -> char, order: seq<(string, string)>, other: seq<(string, string)>, s: string)
    requires Enumerates(order) && Enumerates(other)
    ensures CvDate(lower, order, s) == CvDate(lower, other, s)
  {
    hide FirstName, FirstMonth, DateToISO, Collapse, Slashes, TrimSpace, Enumerates;
    NamesInAnyOrder(order, other, Lower(lower, Collapse(Slashes(TrimSpace(s)))));
  }

  // ---- the code ----

  lemma FirstMonthTail(ls: seq<MonthLayout>, v: string, i: nat)
    requires i < |ls|
    ensures FirstMonth(ls[i..], v) == (if ParseMonth(ls[i], v).Some? then ParseMonth(ls[i], v)
              else FirstMonth(ls[i + 1..], v))
  {
    hide ParseMonth;
    assert ls[i..][0] == ls[i] && ls[i..][1..] == ls[i + 1..];
  }

  lemma FirstNameTail(order: seq<(string, string)>, v: string, i: nat)
    requires i < |order|
    ensures FirstName(order[i..], v) ==
            var r := TryName(order[i].0, order[i].1, v); if r.Some? then r else FirstName(order[i + 1..], v)
  {
    hide TryName;
    assert order[i..][0] == order[i] && order[i..][1..] == order[i + 1..];
  }

  /** One of the two layout loops: the first layout that parses. */
  method TryLayouts(ls: seq<MonthLayout>, v: string) returns (r: Option<YearMonth>)
    ensures r == FirstMonth(ls, v)
  {
    hide ParseMonth, FirstMonth;
    assert ls[0..] == ls;
    for i := 0 to |ls|
      invariant FirstMonth(ls[i..], v) == FirstMonth(ls, v)
    {
      FirstMonthTail(ls, v, i);
      var t := ParseMonth(ls[i], v);
      if t.Some? {
        return t;
      }
    }
    assert ls[|ls|..] == [];
    NoMonthLeft(v);
    return None;
  }

  lemma NoMonthLeft(v: string)
    ensures FirstMonth([], v) == None
  {
  }

  /** `normalizeCVDate` as it is written, with the map's entries met in the order `order`. */
  method NormalizeCvDate(lower: char -> char, order: seq<(string, string)>, input: string) returns (r: string)
    ensures r == CvDate(lower, order, input)
  {
    hide FirstName, FirstMonth, DateToISO, Collapse, Slashes, TrimSpace, Lower, IsMonth, Written, TrimCutset;
    var s := TrimSpace(input);
    if s == "" {
      return "";
    }
    var iso, _ := DateToIso(s);
    if iso.Some? {
      return iso.value;
    }
    s := Collapse(Slashes(s));
    var t := TryLayouts(MONTH_LAYOUTS, s);
    if t.Some? {
      return Written(t.value);
    }
    var low := Lower(lower, s);
    assert order[0..] == order;
    for i := 0 to |order|
      invariant FirstName(order[i..], low) == FirstName(order, low)
    {
      FirstNameTail(order, low, i);
      if !HasPrefix(low, order[i].0) {
        continue;
      }
      var rest := TrimCutset(TrimSpace(TrimPrefix(low, order[i].0)));
      t := TryLayouts(NAMED_LAYOUTS, order[i].1 + " " + rest);
      if t.Some? {
        return Written(t.value);
      }
    }
    assert order[|order|..] == [];
    NoNameLeft(low);
    return "";
  }

  lemma NoNameLeft(v: string)
    ensures FirstName([], v) == None
  {
  }

  // ---- what comes out, and reading it again ----

  /** The answer is empty, a month of the years 0 to 9999, or a calendar date. */
  lemma AnswerShape(lower: char -> char, order: seq<(string, string)>, s: string)
    ensures var r := CvDate(lower, order, s);
            || r == ""
            || (exists ym :: IsMonth(ym) && r == Written(ym))
            || (exists d :: IsCalendar(d) && r == Iso(d))
  {
    hide FirstName, FirstMonth, DateToISO, Collapse, Slashes, TrimSpace, Lower, IsMonth, Written, Iso, IsCalendar;
    var t := TrimSpace(s);
    if DateToISO(t).Some? {
      IsoIsStable(t);
    }
  }

  /** A text that is one token and no full date. */
  lemma OneToken(lower: char -> char, order: seq<(string, string)>, w: string)
    requires IsWord(w) && DateToISO(w) == None && FirstMonth(MONTH_LAYOUTS, Slashes(w)).Some?
    ensures CvDate(lower, order, w) == Written(FirstMonth(MONTH_LAYOUTS, Slashes(w)).value)
  {
    hide FirstName, FirstMonth, DateToISO, Slashes, TrimSpace, Lower, IsMonth, Written, IsSpace;
    TrimSpaceOfTrimmed(w);
    SlashesOfWord(w);
    JoinOne(Slashes(w));
  }

  lemma JoinOne(w: string)
    ensures JoinSpace([w]) == w
  {
  }

  lemma TwoNumbers(a: string, b: string, sep: char)
    requires sep in {'/', '-', '.'} && |a| >= 1
    requires forall i :: 0 <= i < |a| ==> IsDigit(a[i])
    requires forall i :: 0 <= i < |b| ==> IsDigit(b[i])
    ensures IsWord(a + [sep] + b)
    ensures Slashes(a + [sep] + b) == a + "/" + b
  {
    var s := a + [sep] + b;
    SlashesAt(s);
    assert forall i :: 0 <= i < |s| ==> IsDigit(s[i]) || s[i] == sep;
  }

  /** A full date has two separators. */
  lemma TwoSlashes(l: Layout, v: string)
    requires Parse(l, v).Some?
    ensures exists i, j :: 0 <= i < j < |v| && v[i] == '/' && v[j] == '/'
  {
    hide MakeDate, Year;
    var first := if l.DayFirst? then GetNum(v, l.fixed).value.rest else Year4(v).value.rest;
    var i := |v| - |first|;
    assert first == v[i..] && v[i] == '/';
    var v1 := Skip(first, '/').value;
    assert v1 == v[i + 1..];
    var second := Month(v1, l.fixed).value.rest;
    var j := |v| - |second|;
    assert second == v[j..] && v[j] == '/';
  }

  lemma OneSeparatorNoDate(a: string, b: string, sep: char)
    requires sep in {'/', '-', '.'} && |a| >= 1
    requires forall i :: 0 <= i < |a| ==> IsDigit(a[i])
    requires forall i :: 0 <= i < |b| ==> IsDigit(b[i])
    ensures DateToISO(a + [sep] + b) == None
  {
    hide Parse, Slashes, IsSpace, FirstOf, IsWord;
    var v := a + "/" + b;
    TwoNumbers(a, b, sep);
    SlashesOfWord(a + [sep] + b);
    FirstOfSound(LAYOUTS, v);
    if FirstOf(LAYOUTS, v).Some? {
      var l :| l in LAYOUTS && Parse(l, v).Some?;
      TwoSlashes(l, v);
    }
  }

  /** The layouts that read a month and a year off two numbers. */
  lemma NumericMonths(ym: YearMonth)
    requires IsMonth(ym)
    ensures FirstMonth(MONTH_LAYOUTS, Pad4(ym.year) + "/" + Pad2(ym.month)) == Some(ym)
    ensures FirstMonth(MONTH_LAYOUTS, Pad2(ym.month) + "/" + Pad4(ym.year)) == Some(ym)
    ensures 1969 <= ym.year <= 2068 ==>
              FirstMonth(MONTH_LAYOUTS, Pad2(ym.month) + "/" + Pad2(ym.year % 100)) == Some(ym)
  {
    hide ParseMonth, FirstMonth, Pad2, Pad4;
    YearMonthRead(ym);
    FirstMonthTail(MONTH_LAYOUTS, Pad4(ym.year) + "/" + Pad2(ym.month), 0);
    MonthYearRead(ym, Pad4(ym.year), true);
    MonthYearFirst(Pad2(ym.month) + "/" + Pad4(ym.year), true);
    if 1969 <= ym.year <= 2068 {
      MonthYearRead(ym, Pad2(ym.year % 100), false);
      MonthYearFirst(Pad2(ym.month) + "/" + Pad2(ym.year % 100), false);
    }
  }

  lemma YearMonthRead(ym: YearMonth)
    requires IsMonth(ym)
    ensures ParseMonth(YearThenMonth(true), Pad4(ym.year) + "/" + Pad2(ym.month)) == Some(ym)
  {
    hide GetNum, Year4, Pad2, Pad4, Skip;
    var y, m := Pad4(ym.year), Pad2(ym.month);
    assert y + "/" + m == y + ("/" + (m + []));
    ReadPad4(ym.year, "/" + (m + []));
    SkipChar('/', m + []);
    ReadPad2(ym.month, [], true);
  }

  lemma MonthYearRead(ym: YearMonth, y: string, long: bool)
    requires IsMonth(ym) && (if long then y == Pad4(ym.year) else 1969 <= ym.year <= 2068 && y == Pad2(ym.year % 100))
    ensures var v := Pad2(ym.month) + "/" + y;
            ParseMonth(MonthThenYear(true, long), v) == Some(ym) && |v| == (if long then 7 else 5) && v[2] == '/'
  {
    hide GetNum, Year2, Year4, Skip;
    var m := Pad2(ym.month);
    assert m + "/" + y == m + ("/" + (y + []));
    ReadPad2(ym.month, "/" + (y + []), true);
    SkipChar('/', y + []);
    if long {
      ReadPad4(ym.year, []);
    } else {
      ReadYear2(ym.year);
    }
  }

  /** Earlier layouts want four digits in front, or four digits behind. */
  lemma MonthYearFirst(v: string, long: bool)
    requires ParseMonth(MonthThenYear(true, long), v).Some? && |v| == (if long then 7 else 5) && v[2] == '/'
    ensures FirstMonth(MONTH_LAYOUTS, v) == ParseMonth(MonthThenYear(true, long), v)
  {
    hide ParseMonth, FirstMonth;
    assert MONTH_LAYOUTS[0..] == MONTH_LAYOUTS;
    NoYearInFront(v, true);
    NoYearInFront(v, false);
    FirstMonthTail(MONTH_LAYOUTS, v, 0);
    FirstMonthTail(MONTH_LAYOUTS, v, 1);
    FirstMonthTail(MONTH_LAYOUTS, v, 2);
    if !long {
      NoLongYear(v, true);
      NoLongYear(v, false);
      FirstMonthTail(MONTH_LAYOUTS, v, 3);
      FirstMonthTail(MONTH_LAYOUTS, v, 4);
    }
  }

  lemma NoYearInFront(v: string, fixed: bool)
    requires |v| > 2 && v[2] == '/'
    ensures ParseMonth(YearThenMonth(fixed), v) == None
  {
  }

  lemma NoLongYear(v: string, fixed: bool)
    requires |v| == 5 && v[2] == '/'
    ensures ParseMonth(MonthThenYear(fixed, true), v) == None
  {
  }

  /** Every month written in numbers, year or month first, with slash, dash or dot, is read. */
  lemma WrittenMonthsRead(lower: char -> char, order: seq<(string, string)>, ym: YearMonth, sep: char)
    requires IsMonth(ym) && sep in {'/', '-', '.'}
    ensures CvDate(lower, order, Pad4(ym.year) + [sep] + Pad2(ym.month)) == Written(ym)
    ensures CvDate(lower, order, Pad2(ym.month) + [sep] + Pad4(ym.year)) == Written(ym)
    ensures 1969 <= ym.year <= 2068 ==>
              CvDate(lower, order, Pad2(ym.month) + [sep] + Pad2(ym.year % 100)) == Written(ym)
  {
    hide CvDate, Written, FirstMonth, DateToISO, Slashes, IsWord;
    var y, m := Pad4(ym.year), Pad2(ym.month);
    NumericMonths(ym);
    TwoNumbers(y, m, sep);
    OneSeparatorNoDate(y, m, sep);
    OneToken(lower, order, y + [sep] + m);
    TwoNumbers(m, y, sep);
    OneSeparatorNoDate(m, y, sep);
    OneToken(lower, order, m + [sep] + y);
    if 1969 <= ym.year <= 2068 {
      var z := Pad2(ym.year % 100);
      TwoNumbers(m, z, sep);
      OneSeparatorNoDate(m, z, sep);
      OneToken(lower, order, m + [sep] + z);
    }
  }

  lemma LooseMonthRead(ym: YearMonth)
    requires IsMonth(ym) && ym.month < 10
    ensures FirstMonth(MONTH_LAYOUTS, Pad4(ym.year) + "/" + Num(ym.month, false)) == Some(ym)
    ensures FirstMonth(MONTH_LAYOUTS, Num(ym.month, false) + "/" + Pad4(ym.year)) == Some(ym)
    ensures 1969 <= ym.year <= 2068 ==>
              FirstMonth(MONTH_LAYOUTS, Num(ym.month, false) + "/" + Pad2(ym.year % 100)) == Some(ym)
  {
    hide ParseMonth, FirstMonth, Num, Pad2, Pad4;
    var m, y := Num(ym.month, false), Pad4(ym.year);
    LooseYearMonth(ym);
    assert MONTH_LAYOUTS[0..] == MONTH_LAYOUTS;
    FirstMonthTail(MONTH_LAYOUTS, y + "/" + m, 0);
    FirstMonthTail(MONTH_LAYOUTS, y + "/" + m, 1);
    LooseMonthYear(ym, y, true);
    LooseFirst(m + "/" + y, true);
    if 1969 <= ym.year <= 2068 {
      LooseMonthYear(ym, Pad2(ym.year % 100), false);
      LooseFirst(m + "/" + Pad2(ym.year % 100), false);
    }
  }

  lemma LooseYearMonth(ym: YearMonth)
    requires IsMonth(ym) && ym.month < 10
    ensures ParseMonth(YearThenMonth(false), Pad4(ym.year) + "/" + Num(ym.month, false)) == Some(ym)
    ensures ParseMonth(YearThenMonth(true), Pad4(ym.year) + "/" + Num(ym.month, false)) == None
  {
    hide Year4, Num, Pad4, Skip;
    var y, m := Pad4(ym.year), Num(ym.month, false);
    assert y + "/" + m == y + ("/" + (m + []));
    ReadPad4(ym.year, "/" + (m + []));
    SkipChar('/', m + []);
    ReadNum(ym.month, false, []);
    OneDigit(ym.month, []);
  }

  /** A single digit is no number of fixed width. */
  lemma OneDigit(n: int, rest: string)
    requires 1 <= n < 10 && (rest != [] ==> !IsDigit(rest[0]))
    ensures |Num(n, false)| == 1 && GetNum(Num(n, false) + rest, true) == None
  {
    var v := Num(n, false) + rest;
    assert |v| >= 2 ==> v[1] == rest[0];
  }

  lemma LooseMonthYear(ym: YearMonth, y: string, long: bool)
    requires IsMonth(ym) && ym.month < 10
    requires if long then y == Pad4(ym.year) else 1969 <= ym.year <= 2068 && y == Pad2(ym.year % 100)
    ensures var v := Num(ym.month, false) + "/" + y;
            && ParseMonth(MonthThenYear(false, long), v) == Some(ym) && GetNum(v, true) == None
            && |v| == (if long then 6 else 4) && v[1] == '/'
  {
    hide GetNum, Year2, Year4, Num, Skip;
    var m := Num(ym.month, false);
    assert m + "/" + y == m + ("/" + (y + []));
    ReadNum(ym.month, false, "/" + (y + []));
    OneDigit(ym.month, "/" + (y + []));
    SkipChar('/', y + []);
    if long {
      ReadPad4(ym.year, []);
    } else {
      ReadYear2(ym.year);
    }
  }

  lemma LooseFirst(v: string, long: bool)
    requires ParseMonth(MonthThenYear(false, long), v).Some? && GetNum(v, true) == None
    requires |v| == (if long then 6 else 4) && v[1] == '/'
    ensures FirstMonth(MONTH_LAYOUTS, v) == ParseMonth(MonthThenYear(false, long), v)
  {
    hide ParseMonth, FirstMonth, GetNum;
    assert MONTH_LAYOUTS[0..] == MONTH_LAYOUTS;
    NotFixed(v, true);
    NotFixed(v, false);
    NoYearThere(v, true);
    NoYearThere(v, false);
    FirstMonthTail(MONTH_LAYOUTS, v, 0);
    FirstMonthTail(MONTH_LAYOUTS, v, 1);
    FirstMonthTail(MONTH_LAYOUTS, v, 2);
    FirstMonthTail(MONTH_LAYOUTS, v, 3);
    if !long {
      NoLongYearThere(v);
      FirstMonthTail(MONTH_LAYOUTS, v, 4);
      FirstMonthTail(MONTH_LAYOUTS, v, 5);
    }
  }

  lemma NotFixed(v: string, long: bool)
    requires GetNum(v, true) == None
    ensures ParseMonth(MonthThenYear(true, long), v) == None
  {
    hide GetNum;
  }

  lemma NoYearThere(v: string, fixed: bool)
    requires |v| > 1 && v[1] == '/'
    ensures ParseMonth(YearThenMonth(fixed), v) == None
  {
  }

  lemma NoLongYearThere(v: string)
    requires |v| == 4 && v[1] == '/'
    ensures ParseMonth(MonthThenYear(false, true), v) == None
  {
  }

  /** The same without the leading zero of the month: "2020-3", "3/2020" and "3.20" are read. */
  lemma LooseMonthsRead(lower: char -> char, order: seq<(string, string)>, ym: YearMonth, sep: char)
    requires IsMonth(ym) && ym.month < 10 && sep in {'/', '-', '.'}
    ensures CvDate(lower, order, Pad4(ym.year) + [sep] + Num(ym.month, false)) == Written(ym)
    ensures CvDate(lower, order, Num(ym.month, false) + [sep] + Pad4(ym.year)) == Written(ym)
    ensures 1969 <= ym.year <= 2068 ==>
              CvDate(lower, order, Num(ym.month, false) + [sep] + Pad2(ym.year % 100)) == Written(ym)
  {
    hide CvDate, Written, FirstMonth, DateToISO, Slashes, IsWord, Num;
    var y, m := Pad4(ym.year), Num(ym.month, false);
    NumDigits(ym.month, false);
    LooseMonthRead(ym);
    TwoNumbers(y, m, sep);
    OneSeparatorNoDate(y, m, sep);
    OneToken(lower, order, y + [sep] + m);
    TwoNumbers(m, y, sep);
    OneSeparatorNoDate(m, y, sep);
    OneToken(lower, order, m + [sep] + y);
    if 1969 <= ym.year <= 2068 {
      var z := Pad2(ym.year % 100);
      TwoNumbers(m, z, sep);
      OneSeparatorNoDate(m, z, sep);
      OneToken(lower, order, m + [sep] + z);
    }
  }

  /** A second pass changes nothing. */
  lemma NormalizedOnce(lower: char -> char, order: seq<(string, string)>, other: seq<(string, string)>, s: string)
    ensures CvDate(lower, other, CvDate(lower, order, s)) == CvDate(lower, order, s)
  {
    hide Written, Iso, IsMonth, IsCalendar, CvDate;
    var r := CvDate(lower, order, s);
    AnswerShape(lower, order, s);
    if r == "" {
      NothingRead(lower, other);
    } else if ym :| IsMonth(ym) && r == Written(ym) {
      MonthStable(lower, other, ym);
    } else {
      var d :| IsCalendar(d) && r == Iso(d);
      DateStable(lower, other, d);
    }
  }

  lemma NothingRead(lower: char -> char, order: seq<(string, string)>)
    ensures CvDate(lower, order, "") == ""
  {
    TrimSpaceOfTrimmed("");
  }

  lemma MonthStable(lower: char -> char, order: seq<(string, string)>, ym: YearMonth)
    requires IsMonth(ym)
    ensures CvDate(lower, order, Written(ym)) == Written(ym)
  {
    hide CvDate;
    WrittenMonthsRead(lower, order, ym, '-');
  }

  lemma DateStable(lower: char -> char, order: seq<(string, string)>, d: Date)
    requires IsCalendar(d)
    ensures CvDate(lower, order, Iso(d)) == Iso(d)
  {
    hide DateToISO, Slashes, Lower, IsCalendar, TrimSpace, IsSpace, Pad2, Pad4;
    WrittenDatesRead(d, '-');
    IsoTrimmed(d);
  }

  lemma IsoTrimmed(d: Date)
    requires IsCalendar(d)
    ensures TrimSpace(Iso(d)) == Iso(d) && Iso(d) != ""
  {
    hide TrimSpace;
    TrimSpaceOfTrimmed(Iso(d));
  }

  // ---- month names are read ----

  const PORTUGUESE: seq<string> :=
    ["janeiro", "fevereiro", "mar\U{E7}o", "abril", "maio", "junho", "julho", "agosto", "setembro", "outubro",
     "novembro", "dezembro"]

  const PORTUGUESE_SHORT: seq<string> :=
    ["jan", "fev", "mar", "abr", "mai", "jun", "jul", "ago", "set", "out", "nov", "dez"]

  /** The word names the month in Portuguese, in any casing. */
  predicate NamesPortuguese(lower: char -> char, w: string, m: int) {
    1 <= m <= 12 &&
    var low := Lower(lower, w);
    low == PORTUGUESE[m - 1] || low == PORTUGUESE_SHORT[m - 1] || (m == 3 && low == "marco")
  }

  /** The word names the month in English, in any casing. */
  predicate NamesEnglish(w: string, m: int) {
    1 <= m <= 12 && (MatchFold(w, LONG[m - 1]) || MatchFold(w, SHORT[m - 1]))
  }

  function Sig(s: string): string
    requires |s| >= 3
  {
    [LowerAscii(s[0]), LowerAscii(s[1]), LowerAscii(s[2])]
  }

  /** The English month that starts with three letters. */
  function MonthOfSig(g: string): int {
    if g == "jan" then 1 else if g == "feb" then 2 else if g == "mar" then 3 else if g == "apr" then 4
    else if g == "may" then 5 else if g == "jun" then 6 else if g == "jul" then 7 else if g == "aug" then 8
    else if g == "sep" then 9 else if g == "oct" then 10 else if g == "nov" then 11 else if g == "dec" then 12 else 0
  }

  lemma SigOfTables(k: nat)
    requires k < 12
    ensures |LONG| == 12 && |SHORT| == 12 && |LONG[k]| >= 3 && |SHORT[k]| == 3
    ensures MonthOfSig(Sig(LONG[k])) == k + 1 && MonthOfSig(Sig(SHORT[k])) == k + 1
  {
  }

  lemma LettersOnly(k: nat)
    requires k < 12
    ensures forall i :: 0 <= i < |LONG[k]| ==> IsLetter(LONG[k][i])
    ensures forall i :: 0 <= i < |SHORT[k]| ==> IsLetter(SHORT[k][i])
  {
  }

  lemma FoldSig(a: string, b: string)
    requires |a| >= |b| >= 3 && MatchFold(a[..|b|], b)
    ensures Sig(a) == Sig(b)
  {
  }

  function Table(long: bool): seq<string> { if long then LONG else SHORT }

  lemma {:induction false} LookupHit(tab: seq<string>, v: string, k: nat)
    requires k <= |tab|
    ensures var r := LookupFrom(tab, v, k);
            if r.None? then forall j :: k <= j < |tab| ==> !(|v| >= |tab[j]| && MatchFold(v[..|tab[j]|], tab[j]))
            else var t := tab[r.value.n - 1]; |v| >= |t| && MatchFold(v[..|t|], t) && r.value.rest == v[|t|..]
    decreases |tab| - k
  {
    hide MatchFold;
    if k < |tab| && !(|v| >= |tab[k]| && MatchFold(v[..|tab[k]|], tab[k])) {
      LookupHit(tab, v, k + 1);
    }
  }

  /** A name without separators, a separator and a year. */
  function NameYear(w: string, c: char, y: int): string
    requires 0 <= y <= 9999
  {
    w + [c] + Pad4(y)
  }

  predicate IsSeparator(c: char) { c == ' ' || c == '/' }

  predicate PlainName(w: string) { |w| >= 3 && !IsDigit(w[0]) && forall i :: 0 <= i < |w| ==> !IsSeparator(w[i]) }

  lemma NameYearParts(w: string, c: char, y: int)
    requires 0 <= y <= 9999
    ensures var v := NameYear(w, c, y); |v| == |w| + 5 && v[..|w|] == w && v[|w|] == c && v[|w|..] == [c] + Pad4(y)
    ensures forall i :: 0 <= i < |w| ==> NameYear(w, c, y)[i] == w[i]
  {
  }

  /** After a name, the separator and the year are read exactly. */
  lemma YearBehind(c: char, sep: char, y: int)
    requires 0 <= y <= 9999 && IsSeparator(c)
    ensures SkipLiteral([c] + Pad4(y), c) == Some(Pad4(y)) && Year4(Pad4(y)) == Some(Read(y, []))
    ensures IsSeparator(sep) && sep != c ==> SkipLiteral([c] + Pad4(y), sep) == None
  {
    hide Year4;
    var p := Pad4(y);
    assert p + [] == p && ([c] + p)[1..] == p;
    ReadPad4(y, []);
    CutSpaceKeeps(p);
  }

  /** The table entry that a lookup hits ends where the name ends, if a separator has to follow. */
  lemma HitIsName(w: string, c: char, y: int, t: string, sep: char)
    requires 0 <= y <= 9999 && PlainName(w) && IsSeparator(c) && IsSeparator(sep)
    requires forall i :: 0 <= i < |t| ==> IsLetter(t[i])
    requires var v := NameYear(w, c, y); |v| >= |t| && MatchFold(v[..|t|], t) && SkipLiteral(v[|t|..], sep).Some?
    ensures |t| == |w| && MatchFold(w, t)
  {
    hide CutSpace, Pad4;
    var v := NameYear(w, c, y);
    NameYearParts(w, c, y);
    assert forall i :: 0 <= i < |t| ==> v[..|t|][i] == v[i];
    assert forall i :: 0 <= i < |t| ==> IsLetter(v[i]);
    assert |t| <= |w|;
    assert v[|t|..][0] == v[|t|];
  }

  lemma NamedSound(long: bool, sep: char, w: string, c: char, y: int)
    requires 0 <= y <= 9999 && PlainName(w) && IsSeparator(c) && IsSeparator(sep)
    ensures var r := ParseMonth(Named(long, sep), NameYear(w, c, y)); r.Some? ==>
              r.value.year == y && NamesEnglish(w, r.value.month)
  {
    hide LookupFrom, MatchFold, SkipLiteral, Year4, Pad4;
    var v := NameYear(w, c, y);
    if ParseMonth(Named(long, sep), v).Some? {
      LookupHit(Table(long), v, 0);
      var k := MonthName(v, long).value.n - 1;
      LettersOnly(k);
      HitIsName(w, c, y, Table(long)[k], sep);
      NameYearParts(w, c, y);
      YearBehind(c, sep, y);
    }
  }

  lemma NamedComplete(long: bool, w: string, m: int, c: char, y: int)
    requires 0 <= y <= 9999 && |w| >= 3 && IsSeparator(c) && 1 <= m <= 12 && MatchFold(w, Table(long)[m - 1])
    ensures ParseMonth(Named(long, c), NameYear(w, c, y)) == Some(YearMonth(y, m))
  {
    hide LookupFrom, MatchFold, SkipLiteral, Year4, Pad4, Sig, MonthOfSig;
    var v := NameYear(w, c, y);
    NameYearParts(w, c, y);
    LookupHit(Table(long), v, 0);
    SigOfTables(m - 1);
    FoldLength(w, Table(long)[m - 1]);
    var r := MonthName(v, long);
    assert r.Some?;
    SigOfTables(r.value.n - 1);
    FoldSig(v, Table(long)[m - 1]);
    FoldSig(v, Table(long)[r.value.n - 1]);
    YearBehind(c, c, y);
  }

  lemma FoldSelf(a: string)
    ensures MatchFold(a, a)
  {
  }

  lemma FoldLength(a: string, b: string)
    requires MatchFold(a, b)
    ensures |a| == |b|
  {
  }

  lemma EnglishSig(w: string, m: int)
    requires NamesEnglish(w, m)
    ensures 1 <= m <= 12 && |w| >= 3 && MonthOfSig(Sig(w)) == m && forall i :: 0 <= i < |w| ==> IsLetter(w[i])
  {
    hide Sig, MonthOfSig;
    SigOfTables(m - 1);
    LettersOnly(m - 1);
    assert w[..|w|] == w;
    FoldSig(w, if MatchFold(w, LONG[m - 1]) then LONG[m - 1] else SHORT[m - 1]);
  }

  lemma NumbersOnly(l: MonthLayout, v: string)
    requires v != [] && !IsDigit(v[0]) && ParseMonth(l, v).Some?
    ensures l.Named?
  {
  }

  predicate NamedSeparators(ls: seq<MonthLayout>) { forall l :: l in ls && l.Named? ==> IsSeparator(l.sep) }

  /** Whatever the layouts read off a name and a year, it is that year and the month of that name. */
  lemma NameReadSound(ls: seq<MonthLayout>, w: string, c: char, y: int)
    requires 0 <= y <= 9999 && PlainName(w) && IsSeparator(c) && NamedSeparators(ls)
    ensures var r := FirstMonth(ls, NameYear(w, c, y)); r.Some? ==> r.value.year == y && NamesEnglish(w, r.value.month)
  {
    hide ParseMonth, FirstMonth, NamesEnglish, NameYear;
    var v := NameYear(w, c, y);
    FirstMonthSound(ls, v);
    NameYearParts(w, c, y);
    if FirstMonth(ls, v).Some? {
      var l :| l in ls && ParseMonth(l, v) == FirstMonth(ls, v);
      NumbersOnly(l, v);
      NamedSound(l.long, l.sep, w, c, y);
    }
  }

  lemma NameReadComplete(ls: seq<MonthLayout>, w: string, m: int, c: char, y: int)
    requires 0 <= y <= 9999 && PlainName(w) && IsSeparator(c) && NamedSeparators(ls) && NamesEnglish(w, m)
    requires Named(true, c) in ls && Named(false, c) in ls
    ensures FirstMonth(ls, NameYear(w, c, y)) == Some(YearMonth(y, m))
  {
    hide ParseMonth, FirstMonth, NameYear, MatchFold, Sig, MonthOfSig, PlainName;
    var v := NameYear(w, c, y);
    EnglishSig(w, m);
    NamedComplete(MatchFold(w, LONG[m - 1]), w, m, c, y);
    FirstMonthSound(ls, v);
    NameReadSound(ls, w, c, y);
    EnglishSig(w, FirstMonth(ls, v).value.month);
  }

  // ---- Portuguese ----

  lemma LongEntry(m: int)
    requires 1 <= m <= 12
    ensures English(PORTUGUESE[m - 1]) == Some(LONG[m - 1])
  {
    hide EnglishShort;
    if m <= 5 {
      hide EnglishLate;
    }
  }

  lemma ShortEntry(m: int)
    requires 1 <= m <= 12
    ensures English(PORTUGUESE_SHORT[m - 1]) == Some(SHORT[m - 1])
  {
    var name := PORTUGUESE_SHORT[m - 1];
    assert |name| == 3;
    assert English(name) == EnglishShort(name) by {
      hide EnglishShort;
    }
    hide English;
  }

  lemma PortugueseSig(m: int)
    requires 1 <= m <= 12
    ensures |PORTUGUESE[m - 1]| >= 3 && |PORTUGUESE_SHORT[m - 1]| == 3
    ensures MonthOfSig(Sig(PORTUGUESE[m - 1])) in {0, m} && MonthOfSig(Sig(PORTUGUESE_SHORT[m - 1])) in {0, m}
  {
  }

  /** The map has an entry for every Portuguese name, with the right month; where the name also starts
      like an English month, it is that month. */
  lemma EntryOf(lower: char -> char, w: string, m: int)
    requires NamesPortuguese(lower, w, m)
    ensures var name := Lower(lower, w);
            && (English(name) == Some(LONG[m - 1]) || English(name) == Some(SHORT[m - 1]))
            && |name| >= 3 && MonthOfSig(Sig(name)) in {0, m}
    ensures 1 <= m <= 12
  {
    hide English, Lower, MonthOfSig, Sig;
    LongEntry(m);
    ShortEntry(m);
    PortugueseSig(m);
    Marco();
  }

  lemma Marco()
    ensures English("marco") == Some(LONG[2]) && MonthOfSig(Sig("marco")) == 3
  {
  }

  /** Lower-casing leaves digits, blanks and separators alone, and makes none. */
  lemma PlainPortuguese(lower: char -> char, w: string, m: int)
    requires LowersAscii(lower) && NamesPortuguese(lower, w, m)
    ensures PlainName(w) && '.' !in w && '-' !in w
  {
    hide English, PORTUGUESE, PORTUGUESE_SHORT, Sig, MonthOfSig;
    EntryOf(lower, w, m);
    var name := Lower(lower, w);
    NamesAreLetters(name);
    forall i | 0 <= i < |w| ensures !IsSeparator(w[i]) && !IsDigit(w[i]) && w[i] != '.' && w[i] != '-' {
      assert IsNameChar(name[i]);
    }
  }

  /** A word that is a month name in both languages names one month. */
  lemma BothLanguages(lower: char -> char, w: string, k: int, m: int)
    requires LowersAscii(lower) && NamesEnglish(w, k) && NamesPortuguese(lower, w, m)
    ensures k == m
  {
    hide NamesEnglish, NamesPortuguese, MonthOfSig, English, Sig;
    EntryOf(lower, w, m);
    EnglishSig(w, k);
    LowerSig(lower, w);
  }

  lemma LowerSig(lower: char -> char, w: string)
    requires LowersAscii(lower) && |w| >= 3 && forall i :: 0 <= i < |w| ==> IsLetter(w[i])
    ensures Sig(Lower(lower, w)) == Sig(w)
  {
    assert forall i :: 0 <= i < |w| ==> lower(w[i]) == LowerAscii(w[i]) == LowerAscii(LowerAscii(w[i]));
  }

  lemma LowerOfNameYear(lower: char -> char, w: string, c: char, y: int)
    requires LowersAscii(lower) && 0 <= y <= 9999 && IsSeparator(c)
    ensures Lower(lower, NameYear(w, c, y)) == NameYear(Lower(lower, w), c, y)
  {
    hide DigitChar, Pad4;
    NameYearParts(w, c, y);
    NameYearParts(Lower(lower, w), c, y);
    YearIsWord(y);
    var v, n, p := NameYear(w, c, y), NameYear(Lower(lower, w), c, y), Pad4(y);
    assert lower(c) == c;
    forall i | |w| < i < |v| ensures lower(v[i]) == v[i] == n[i] {
      assert v[i] == p[i - |w| - 1];
    }
  }

  lemma RestIsYear(name: string, c: char, y: int)
    requires 0 <= y <= 9999 && IsSeparator(c)
    ensures HasPrefix(NameYear(name, c, y), name)
    ensures TrimCutset(TrimSpace(TrimPrefix(NameYear(name, c, y), name))) == Pad4(y)
  {
    hide TrimSpace, Pad4;
    NameYearParts(name, c, y);
    var p := Pad4(y);
    YearIsWord(y);
    if c == ' ' {
      assert " " + p + [] == [c] + p;
      TrimSpaceExact(" ", p, []);
    } else {
      TrimSpaceOfTrimmed([c] + p);
      assert ([c] + p)[1..] == p;
    }
  }

  lemma YearIsWord(y: int)
    requires 0 <= y <= 9999
    ensures var p := Pad4(y); |p| == 4 && IsWord(p) && forall i :: 0 <= i < |p| ==> IsDigit(p[i])
    ensures !InCutset(Pad4(y)[0])
  {
  }

  /** The entry of a Portuguese name reads the year behind it. */
  lemma EntryReads(lower: char -> char, w: string, m: int, c: char, y: int)
    requires 0 <= y <= 9999 && IsSeparator(c) && NamesPortuguese(lower, w, m)
    ensures var name := Lower(lower, w);
            English(name).Some? && TryName(name, English(name).value, NameYear(name, c, y)) == Some(YearMonth(y, m))
  {
    hide English, FirstMonth, TrimSpace, TrimCutset, NamesPortuguese, Lower, MonthOfSig, Sig, Pad4;
    var name := Lower(lower, w);
    EntryOf(lower, w, m);
    RestIsYear(name, c, y);
    var e := English(name).value;
    LettersOnly(m - 1);
    SigOfTables(m - 1);
    FoldSelf(e);
    NameReadComplete(NAMED_LAYOUTS, e, m, ' ', y);
  }

  lemma NameFirst(order: seq<(string, string)>, name: string, v: string)
    requires Enumerates(order) && English(name).Some? && TryName(name, English(name).value, v).Some?
    ensures FirstName(order, v) == TryName(name, English(name).value, v)
  {
    hide TryName, English, FirstName;
    FirstNameSound(order, v);
    assert (name, English(name).value) in order;
    var q :| q in order && TryName(q.0, q.1, v) == FirstName(order, v);
    OneNameFits(name, q.0, v);
  }

  lemma NameYearFields(w: string, c: char, y: int)
    requires IsWord(w) && PlainName(w) && '.' !in w && '-' !in w && 0 <= y <= 9999 && c in {' ', '/', '-', '.'}
    ensures Fields(Slashes(NameYear(w, c, y))) == if c == ' ' then [w, Pad4(y)] else [NameYear(w, '/', y)]
  {
    hide Slashes, Fields, Pad4, IsSpace, IsDigit, PlainName;
    var p := Pad4(y);
    YearIsWord(y);
    SlashesNameYear(w, c, y);
    if c == ' ' {
      assert NameYear(w, ' ', y) == w + (" " + p);
      BlankIsSpace();
      FieldsWord(w, " " + p);
      FieldsBlank(p);
    } else {
      var u := NameYear(w, '/', y);
      SlashIsNoSpace();
      assert forall i :: |w| < i < |u| ==> u[i] == p[i - |w| - 1];
      FieldsOfWord(u);
    }
  }

  lemma CleanNameYear(w: string, c: char, y: int)
    requires IsWord(w) && PlainName(w) && '.' !in w && '-' !in w && 0 <= y <= 9999 && c in {' ', '/', '-', '.'}
    ensures TrimSpace(NameYear(w, c, y)) == NameYear(w, c, y)
    ensures Collapse(Slashes(NameYear(w, c, y))) == NameYear(w, if c == ' ' then ' ' else '/', y)
    ensures DateToISO(NameYear(w, c, y)) == None
  {
    hide TrimSpace, Slashes, Fields, Pad4, IsSpace, JoinSpace, FirstOf;
    var s, p := NameYear(w, c, y), Pad4(y);
    YearIsWord(y);
    assert s[0] == w[0] && s[|s| - 1] == p[3];
    TrimSpaceOfTrimmed(s);
    NameYearFields(w, c, y);
    JoinTwo(w, p);
    JoinOne(NameYear(w, '/', y));
    NoDigitNoDate(Fields(Slashes(s))[0]);
  }

  lemma BlankIsSpace()
    ensures IsSpace(' ')
  {
  }

  lemma SlashIsNoSpace()
    ensures !IsSpace('/')
  {
  }

  lemma FieldsBlank(p: string)
    requires IsWord(p)
    ensures Fields(" " + p) == [p]
  {
    assert (" " + p)[1..] == p;
    FieldsOfWord(p);
  }

  lemma JoinTwo(a: string, b: string)
    ensures JoinSpace([a, b]) == a + " " + b && JoinSpace([a] + [b]) == a + " " + b
  {
    assert [a, b][1..] == [b] && [a] + [b] == [a, b];
  }

  lemma SlashesNameYear(w: string, c: char, y: int)
    requires PlainName(w) && '.' !in w && '-' !in w && 0 <= y <= 9999 && c in {' ', '/', '-', '.'}
    ensures Slashes(NameYear(w, c, y)) == NameYear(w, if c == ' ' then ' ' else '/', y)
  {
    hide Pad4, Slashes;
    var s, u, p := NameYear(w, c, y), NameYear(w, if c == ' ' then ' ' else '/', y), Pad4(y);
    SlashesAt(s);
    NameYearParts(w, c, y);
    YearIsWord(y);
    assert forall i :: |w| < i < |s| ==> s[i] == p[i - |w| - 1] && u[i] == p[i - |w| - 1];
  }

  lemma NoDigitNoDate(v: string)
    requires v != [] && !IsDigit(v[0])
    ensures FirstOf(LAYOUTS, v) == None
  {
    hide FirstOf, Parse;
    FirstOfSound(LAYOUTS, v);
    if FirstOf(LAYOUTS, v).Some? {
      var l :| l in LAYOUTS && Parse(l, v).Some?;
      DatesStartWithDigit(l, v);
    }
  }

  lemma DatesStartWithDigit(l: Layout, v: string)
    requires v != [] && Parse(l, v).Some?
    ensures IsDigit(v[0])
  {
  }

  lemma PlainInput(lower: char -> char, w: string, m: int)
    requires LowersAscii(lower) && (NamesEnglish(w, m) || NamesPortuguese(lower, w, m))
    ensures PlainName(w) && '.' !in w && '-' !in w && |w| >= 3 && !IsDigit(w[0])
  {
    hide NamesEnglish, NamesPortuguese, Sig, MonthOfSig;
    if NamesEnglish(w, m) {
      EnglishSig(w, m);
    } else {
      PlainPortuguese(lower, w, m);
    }
  }

  /** A cleaned name and year, through the layouts and then the map. */
  lemma MonthsOfName(lower: char -> char, order: seq<(string, string)>, w: string, m: int, c: char, y: int)
    requires LowersAscii(lower) && Enumerates(order) && PlainName(w) && 0 <= y <= 9999 && IsSeparator(c)
    requires NamesEnglish(w, m) || NamesPortuguese(lower, w, m)
    ensures var u := NameYear(w, c, y);
            || FirstMonth(MONTH_LAYOUTS, u) == Some(YearMonth(y, m))
            || (FirstMonth(MONTH_LAYOUTS, u) == None && FirstName(order, Lower(lower, u)) == Some(YearMonth(y, m)))
  {
    hide FirstMonth, FirstName, Lower, NamesPortuguese, NamesEnglish, Enumerates, LowersAscii, TryName, English,
      PlainName, NameYear;
    if NamesEnglish(w, m) {
      NameReadComplete(MONTH_LAYOUTS, w, m, c, y);
    } else {
      var r := FirstMonth(MONTH_LAYOUTS, NameYear(w, c, y));
      NameReadSound(MONTH_LAYOUTS, w, c, y);
      if r.Some? {
        BothLanguages(lower, w, r.value.month, m);
      } else {
        LowerOfNameYear(lower, w, c, y);
        EntryReads(lower, w, m, c, y);
        NameFirst(order, Lower(lower, w), NameYear(Lower(lower, w), c, y));
      }
    }
  }

  /** Every month name of either language, in any casing, with a blank, slash, dash or dot and a
      four-digit year, is read as that month of that year. */
  lemma NamedMonthsRead(lower: char -> char, order: seq<(string, string)>, w: string, m: int, c: char, y: int)
    requires LowersAscii(lower) && Enumerates(order)
    requires IsWord(w) && (NamesEnglish(w, m) || NamesPortuguese(lower, w, m))
    requires 0 <= y <= 9999 && c in {' ', '/', '-', '.'}
    ensures CvDate(lower, order, w + [c] + Pad4(y)) == Written(YearMonth(y, m))
  {
    hide Slashes, TrimSpace, Collapse, DateToISO, FirstMonth, FirstName, Lower, NamesPortuguese, NamesEnglish,
      Written, Enumerates, IsWord, LowersAscii, PlainName, Pad4;
    var s, d := NameYear(w, c, y), if c == ' ' then ' ' else '/';
    PlainInput(lower, w, m);
    CleanNameYear(w, c, y);
    MonthsOfName(lower, order, w, m, d, y);
  }

  // ---- the map has exactly these entries ----

  const ENTRIES: seq<(string, string)> :=
    seq(12, i requires 0 <= i < 12 => (PORTUGUESE[i], LONG[i]))
    + seq(12, i requires 0 <= i < 12 => (PORTUGUESE_SHORT[i], SHORT[i]))
    + [("marco", "March")]

  lemma NoOtherShort(name: string)
    ensures EnglishShort(name).Some? ==> exists k :: 0 <= k < 12 && name == PORTUGUESE_SHORT[k]
  {
    assert forall k :: 0 <= k < 12 ==> |PORTUGUESE_SHORT[k]| == 3;
    assert PORTUGUESE_SHORT[0] == "jan" && PORTUGUESE_SHORT[1] == "fev" && PORTUGUESE_SHORT[2] == "mar"
      && PORTUGUESE_SHORT[3] == "abr";
    assert PORTUGUESE_SHORT[4] == "mai" && PORTUGUESE_SHORT[5] == "jun" && PORTUGUESE_SHORT[6] == "jul"
      && PORTUGUESE_SHORT[7] == "ago";
    assert PORTUGUESE_SHORT[8] == "set" && PORTUGUESE_SHORT[9] == "out" && PORTUGUESE_SHORT[10] == "nov"
      && PORTUGUESE_SHORT[11] == "dez";
  }

  lemma NoOtherName(name: string)
    ensures English(name).Some? ==>
              name == "marco" || exists k :: 0 <= k < 12 && (name == PORTUGUESE[k] || name == PORTUGUESE_SHORT[k])
  {
    hide EnglishShort;
    NoOtherShort(name);
    assert PORTUGUESE[0] == "janeiro" && PORTUGUESE[1] == "fevereiro" && PORTUGUESE[2] == "mar\U{E7}o"
      && PORTUGUESE[3] == "abril";
    assert PORTUGUESE[4] == "maio" && PORTUGUESE[5] == "junho" && PORTUGUESE[6] == "julho" && PORTUGUESE[7] == "agosto";
    assert PORTUGUESE[8] == "setembro" && PORTUGUESE[9] == "outubro" && PORTUGUESE[10] == "novembro"
      && PORTUGUESE[11] == "dezembro";
  }

  lemma EntryAt(k: nat)
    requires k < 12
    ensures |PORTUGUESE| == 12 && |PORTUGUESE_SHORT| == 12 && |LONG| == 12 && |SHORT| == 12 && |ENTRIES| == 25
    ensures ENTRIES[k] == (PORTUGUESE[k], LONG[k]) && ENTRIES[12 + k] == (PORTUGUESE_SHORT[k], SHORT[k])
    ensures ENTRIES[24] == ("marco", "March") && LONG[2] == "March"
  {
  }

  lemma EntryIsEnglish(p: (string, string))
    requires p in ENTRIES
    ensures English(p.0) == Some(p.1)
  {
    hide English, ENTRIES, PORTUGUESE, PORTUGUESE_SHORT, LONG, SHORT;
    Marco();
    EntryAt(0);
    var i :| 0 <= i < |ENTRIES| && ENTRIES[i] == p;
    if i < 24 {
      EntryAt(i % 12);
      LongEntry(i % 12 + 1);
      ShortEntry(i % 12 + 1);
    }
  }

  lemma EnglishIsEntry(name: string)
    requires English(name).Some?
    ensures (name, English(name).value) in ENTRIES
  {
    hide English, ENTRIES, PORTUGUESE, PORTUGUESE_SHORT, LONG, SHORT;
    Marco();
    EntryAt(0);
    NoOtherName(name);
    if name != "marco" {
      var k :| 0 <= k < 12 && (name == PORTUGUESE[k] || name == PORTUGUESE_SHORT[k]);
      LongEntry(k + 1);
      ShortEntry(k + 1);
      EntryAt(k);
    }
  }

  /** The map of 25 names is enumerated by the two lists and the spelling without cedilla. */
  lemma EntriesEnumerate()
    ensures Enumerates(ENTRIES)
  {
    hide English, ENTRIES;
    forall p | p in ENTRIES ensures English(p.0) == Some(p.1) {
      EntryIsEnglish(p);
    }
    forall name | English(name).Some? ensures (name, English(name).value) in ENTRIES {
      EnglishIsEntry(name);
    }
  }
}
