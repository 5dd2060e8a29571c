/** CPF and CNPJ: two check digits, each from a weighted sum modulo 11, and exactly which typing errors
    they let pass. */
module Checksum {
  import opened Text

  /** `\D+` removed. */
  function DigitsOnly(s: string): (t: string)
    ensures forall i :: 0 <= i < |t| ==> IsDigit(t[i])
  {
    if s == [] then [] else (if IsDigit(s[0]) then [s[0]] else []) + DigitsOnly(s[1..])
  }

  lemma {:induction false} DigitsOnlyOfDigits(s: string)
    requires forall i :: 0 <= i < |s| ==> IsDigit(s[i])
    ensures DigitsOnly(s) == s
  {
    if s != [] {
      DigitsOnlyOfDigits(s[1..]);
    }
  }

  predicate AllSame(s: string) { forall i :: 0 < i < |s| ==> s[i] == s[0] }

  function Value(c: char): (v: int)
    requires IsDigit(c)
    ensures 0 <= v <= 9
  {
    c as int - '0' as int
  }

  /** The digits of a digit string as numbers. */
  function Digits(s: string): (d: seq<int>)
    requires forall i :: 0 <= i < |s| ==> IsDigit(s[i])
    ensures |d| == |s| && forall i :: 0 <= i < |d| ==> d[i] == s[i] as int - '0' as int && 0 <= d[i] <= 9
  {
    seq(|s|, i requires 0 <= i < |s| => Value(s[i]))
  }

  /** Sum of the first `n` digits, each times its weight. */
  function Weighted(d: seq<int>, w: seq<int>, n: nat): int
    requires n <= |d| && n <= |w|
  {
    if n == 0 then 0 else Weighted(d, w, n - 1) + d[n - 1] * w[n - 1]
  }

  /** The check digit of a sum: residues 0 and 1 both give 0. */
  function Check(sum: int): int { if sum % 11 < 2 then 0 else 11 - sum % 11 }

  /** A pair of weight rows over a payload of `n` digits; the second row also weighs the first check digit. */
  datatype Scheme = Scheme(n: nat, w1: seq<int>, w2: seq<int>)

  type WellScheme = s: Scheme | |s.w1| == s.n && |s.w2| == s.n + 1 witness Scheme(0, [], [0])

  const CPF: WellScheme := Scheme(9, [10, 9, 8, 7, 6, 5, 4, 3, 2], [11, 10, 9, 8, 7, 6, 5, 4, 3, 2])
  const CNPJ: WellScheme :=
    Scheme(12, [5, 4, 3, 2, 9, 8, 7, 6, 5, 4, 3, 2], [6, 5, 4, 3, 2, 9, 8, 7, 6, 5, 4, 3, 2])

  function Sum1(sc: WellScheme, d: seq<int>): int
    requires |d| == sc.n + 2
  {
    Weighted(d, sc.w1, sc.n)
  }

  function Sum2(sc: WellScheme, d: seq<int>): int
    requires |d| == sc.n + 2
  {
    Weighted(d, sc.w2, sc.n + 1)
  }

  predicate ChecksOut(sc: WellScheme, d: seq<int>)
    requires |d| == sc.n + 2
  {
    Check(Sum1(sc, d)) == d[sc.n] && Check(Sum2(sc, d)) == d[sc.n + 1]
  }

  /** What `ValidCPF` and `ValidCNPJ` accept, on the digits alone. */
  predicate Accepts(sc: WellScheme, s: string) {
    var t := DigitsOnly(s);
    |t| == sc.n + 2 && !AllSame(t) && ChecksOut(sc, Digits(t))
  }

  // ---- the loops of the source ----

  method AllSameDigits(s: string) returns (same: bool)
    ensures same == AllSame(s)
  {
    var i := 1;
    while i < |s|
      invariant forall k :: 0 < k < i && k < |s| ==> s[k] == s[0]
    {
      if s[i] != s[0] {
        return false;
      }
      i := i + 1;
    }
    return true;
  }

  /** (sum * 10) % 11, with 10 read as 0, is the check digit too. */
  lemma TimesTen(sum: nat)
    ensures (if (sum * 10) % 11 == 10 then 0 else (sum * 10) % 11) == Check(sum)
  {
    var q, r := sum / 11, sum % 11;
    if r == 0 {
      Remainder(sum * 10, 10 * q, 0);
    } else {
      Remainder(sum * 10, 10 * q + r - 1, 11 - r);
    }
  }

  lemma Remainder(x: int, q: int, r: int)
    requires x == 11 * q + r && 0 <= r < 11
    ensures x % 11 == r
  {
  }

  method FillDigits(s: string) returns (d: array<int>)
    requires forall i :: 0 <= i < |s| ==> IsDigit(s[i])
    ensures fresh(d) && d.Length == |s| && d[..] == Digits(s)
  {
    d := new int[|s|];
    var i := 0;
    while i < |s|
      invariant 0 <= i <= |s|
      invariant forall k :: 0 <= k < i ==> d[k] == Digits(s)[k]
    {
      d[i] := s[i] as int - '0' as int;
      i := i + 1;
    }
  }

  /** One check digit of a CPF: the weights go down by one from `top`. */
  method CpfDigit(d: array<int>, n: nat, top: nat, ghost w: seq<int>) returns (r: int)
    requires n <= d.Length && |w| == n <= top && forall i :: 0 <= i < n ==> w[i] == top - i
    requires forall i :: 0 <= i < d.Length ==> d[i] >= 0
    ensures r == Check(Weighted(d[..], w, n))
  {
    var sum := 0;
    var i := 0;
    while i < n
      invariant 0 <= i <= n
      invariant sum == Weighted(d[..], w, i) && sum >= 0
    {
      sum := sum + d[i] * (top - i);
      i := i + 1;
    }
    TimesTen(sum);
    r := (sum * 10) % 11;
    if r == 10 {
      r := 0;
    }
  }

  /** `ValidCPF`. */
  method ValidCpf(input: string) returns (ok: bool)
    ensures ok == Accepts(CPF, input)
  {
    hide Check, Weighted;
    var s := DigitsOnly(input);
    if |s| != 11 {
      return false;
    }
    var same := AllSameDigits(s);
    if same {
      return false;
    }
    var d := FillDigits(s);
    ghost var ds := d[..];
    assert forall i :: 0 <= i < d.Length ==> d[i] == ds[i];
    var r := CpfDigit(d, 9, 10, CPF.w1);
    if r != d[9] {
      return false;
    }
    r := CpfDigit(d, 10, 11, CPF.w2);
    return r == d[10];
  }

  /** One check digit of a CNPJ, from a row of weights. */
  method CnpjDigit(d: array<int>, w: seq<int>) returns (dv: int)
    requires |w| <= d.Length
    ensures dv == Check(Weighted(d[..], w, |w|))
  {
    var sum := 0;
    var i := 0;
    while i < |w|
      invariant 0 <= i <= |w|
      invariant sum == Weighted(d[..], w, i)
    {
      sum := sum + d[i] * w[i];
      i := i + 1;
    }
    var r := sum % 11;
    dv := 0;
    if r >= 2 {
      dv := 11 - r;
    }
  }

  /** `ValidCNPJ`. */
  method ValidCnpj(input: string) returns (ok: bool)
    ensures ok == Accepts(CNPJ, input)
  {
    hide Check, Weighted;
    var s := DigitsOnly(input);
    if |s| != 14 {
      return false;
    }
    var same := AllSameDigits(s);
    if same {
      return false;
    }
    var d := FillDigits(s);
    ghost var ds := d[..];
    assert forall i :: 0 <= i < d.Length ==> d[i] == ds[i];
    var w1 := [5, 4, 3, 2, 9, 8, 7, 6, 5, 4, 3, 2];
    var w2 := [6, 5, 4, 3, 2, 9, 8, 7, 6, 5, 4, 3, 2];
    var dv := CnpjDigit(d, w1);
    if dv != d[12] {
      return false;
    }
    dv := CnpjDigit(d, w2);
    return dv == d[13];
  }

  /** `CPF` and `CNPJ`: the digits if they are accepted, else nothing. */
  function Normalize(sc: WellScheme, s: string): string { if Accepts(sc, s) then DigitsOnly(s) else "" }

  /** The result is empty or accepted, is its own normal form, and does not depend on punctuation. */
  lemma NormalizeStable(sc: WellScheme, s: string)
    ensures Normalize(sc, s) != "" ==> Accepts(sc, Normalize(sc, s))
    ensures Normalize(sc, Normalize(sc, s)) == Normalize(sc, s)
    ensures Normalize(sc, DigitsOnly(s)) == Normalize(sc, s)
  {
    DigitsOnlyOfDigits(DigitsOnly(s));
  }

  // ---- punctuation ----

  lemma {:induction false} DigitsOnlyConcat(a: string, b: string)
    ensures DigitsOnly(a + b) == DigitsOnly(a) + DigitsOnly(b)
  {
    if a == [] {
      assert a + b == b;
    } else {
      assert (a + b)[1..] == a[1..] + b;
      DigitsOnlyConcat(a[1..], b);
    }
  }

  /** A text without digits gives nothing. */
  lemma {:induction false} NoDigits(s: string)
    requires forall i :: 0 <= i < |s| ==> !IsDigit(s[i])
    ensures DigitsOnly(s) == []
  {
    if s != [] {
      NoDigits(s[1..]);
    }
  }

  /** A non-digit inserted anywhere changes neither what is accepted nor the normal form. */
  lemma PunctuationIsIgnored(sc: WellScheme, a: string, c: char, b: string)
    requires !IsDigit(c)
    ensures DigitsOnly(a + [c] + b) == DigitsOnly(a + b)
    ensures Accepts(sc, a + [c] + b) <==> Accepts(sc, a + b)
    ensures Normalize(sc, a + [c] + b) == Normalize(sc, a + b)
  {
    hide DigitsOnly;
    NoDigits([c]);
    DigitsOnlyConcat(a + [c], b);
    DigitsOnlyConcat(a, [c]);
    DigitsOnlyConcat(a, b);
  }

  lemma DigitsApart(a: string, p: string, b: string)
    requires forall i :: 0 <= i < |p| ==> !IsDigit(p[i])
    ensures DigitsOnly(a + p + b) == DigitsOnly(a) + DigitsOnly(b)
  {
    hide DigitsOnly;
    NoDigits(p);
    DigitsOnlyConcat(a + p, b);
    DigitsOnlyConcat(a, p);
  }

  /** ddd.ddd.ddd-dd */
  function WrittenCpf(s: string): string
    requires |s| == 11
  {
    s[..3] + "." + s[3..6] + "." + s[6..9] + "-" + s[9..]
  }

  /** dd.ddd.ddd/dddd-dd */
  function WrittenCnpj(s: string): string
    requires |s| == 14
  {
    s[..2] + "." + s[2..5] + "." + s[5..8] + "/" + s[8..12] + "-" + s[12..]
  }

  /** Every accepted CPF, written out with its dots and dash, normalises to its digits. */
  lemma WrittenCpfNormalizes(s: string)
    requires IsNumber(s, 11) && Accepts(CPF, s)
    ensures Accepts(CPF, WrittenCpf(s)) && Normalize(CPF, WrittenCpf(s)) == s
  {
    hide DigitsOnly;
    var a, b, c, d := s[..3], s[3..6], s[6..9], s[9..];
    DigitsApart(a + "." + b + "." + c, "-", d);
    DigitsApart(a + "." + b, ".", c);
    DigitsApart(a, ".", b);
    Bare(a);
    Bare(b);
    Bare(c);
    Bare(d);
    Bare(s);
    assert a + b + c + d == s;
  }

  lemma Bare(s: string)
    requires forall i :: 0 <= i < |s| ==> IsDigit(s[i])
    ensures DigitsOnly(s) == s
  {
    DigitsOnlyOfDigits(s);
  }

  /** Every accepted CNPJ, written out with its dots, slash and dash, normalises to its digits. */
  lemma WrittenCnpjNormalizes(s: string)
    requires IsNumber(s, 14) && Accepts(CNPJ, s)
    ensures Accepts(CNPJ, WrittenCnpj(s)) && Normalize(CNPJ, WrittenCnpj(s)) == s
  {
    hide DigitsOnly;
    var a, b, c, d, e := s[..2], s[2..5], s[5..8], s[8..12], s[12..];
    DigitsApart(a + "." + b + "." + c + "/" + d, "-", e);
    DigitsApart(a + "." + b + "." + c, "/", d);
    DigitsApart(a + "." + b, ".", c);
    DigitsApart(a, ".", b);
    Bare(a);
    Bare(b);
    Bare(c);
    Bare(d);
    Bare(e);
    Bare(s);
    assert a + b + c + d + e == s;
  }

  // ---- which changes keep a check digit ----

  /** Adding `x` to a sum leaves its check digit. */
  predicate Slips(sum: int, x: int) {
    x % 11 == 0 || (sum % 11 == 0 && x % 11 == 1) || (sum % 11 == 1 && x % 11 == 10)
  }

  lemma SlipsExactly(sum: int, x: int)
    ensures Check(sum + x) == Check(sum) <==> Slips(sum, x)
  {
    var a, b := sum % 11, x % 11;
    var q, p := sum / 11, x / 11;
    assert sum + x == 11 * (q + p) + (a + b);
    assert (sum + x) % 11 == (a + b) % 11;
  }

  lemma {:induction false} WeightedChange(d: seq<int>, w: seq<int>, n: nat, k: nat, v: int)
    requires n <= |d| && n <= |w| && k < |d|
    ensures Weighted(d[k := v], w, n) == Weighted(d, w, n) + (if k < n then (v - d[k]) * w[k] else 0)
  {
    if n > 0 {
      WeightedChange(d, w, n - 1, k, v);
      if k == n - 1 {
        assert v * w[k] == d[k] * w[k] + (v - d[k]) * w[k];
      }
    }
  }

  /** One changed digit, for any scheme: the check digits still match exactly when the change is in the
      payload and both sums slip. */
  lemma ChangeChecksOut(sc: WellScheme, d: seq<int>, k: nat, v: int)
    requires |d| == sc.n + 2 && ChecksOut(sc, d) && k < |d| && v != d[k]
    ensures ChecksOut(sc, d[k := v]) <==>
            k < sc.n && Slips(Sum1(sc, d), (v - d[k]) * sc.w1[k]) && Slips(Sum2(sc, d), (v - d[k]) * sc.w2[k])
  {
    var e := d[k := v];
    WeightedChange(d, sc.w1, sc.n, k, v);
    WeightedChange(d, sc.w2, sc.n + 1, k, v);
    if k < sc.n {
      SlipsExactly(Sum1(sc, d), (v - d[k]) * sc.w1[k]);
      SlipsExactly(Sum2(sc, d), (v - d[k]) * sc.w2[k]);
    }
  }

  function Swap<T>(d: seq<T>, i: nat): (e: seq<T>)
    requires i + 1 < |d|
    ensures |e| == |d|
  {
    d[i := d[i + 1]][i + 1 := d[i]]
  }

  /** Two neighbours swapped, for any scheme. */
  lemma SwapChecksOut(sc: WellScheme, d: seq<int>, i: nat)
    requires |d| == sc.n + 2 && ChecksOut(sc, d) && i + 1 < sc.n
    ensures ChecksOut(sc, Swap(d, i)) <==>
            && Slips(Sum1(sc, d), (d[i + 1] - d[i]) * (sc.w1[i] - sc.w1[i + 1]))
            && Slips(Sum2(sc, d), (d[i + 1] - d[i]) * (sc.w2[i] - sc.w2[i + 1]))
  {
    SwapSum(d, sc.w1, sc.n, i);
    SwapSum(d, sc.w2, sc.n + 1, i);
    SlipsExactly(Sum1(sc, d), (d[i + 1] - d[i]) * (sc.w1[i] - sc.w1[i + 1]));
    SlipsExactly(Sum2(sc, d), (d[i + 1] - d[i]) * (sc.w2[i] - sc.w2[i + 1]));
  }

  lemma SwapSum(d: seq<int>, w: seq<int>, n: nat, i: nat)
    requires n <= |d| && n <= |w| && i + 1 < n
    ensures Weighted(Swap(d, i), w, n) == Weighted(d, w, n) + (d[i + 1] - d[i]) * (w[i] - w[i + 1])
  {
    var e := d[i := d[i + 1]];
    WeightedChange(d, w, n, i, d[i + 1]);
    WeightedChange(e, w, n, i + 1, d[i]);
    var x := d[i + 1] - d[i];
    assert (d[i] - d[i + 1]) * w[i + 1] == -(x * w[i + 1]);
    assert x * (w[i] - w[i + 1]) == x * w[i] - x * w[i + 1];
  }

  // ---- CPF: which single-digit errors pass ----

  /** The only single-digit changes of a checking CPF that check as well: the first digit by one, or the
      sixth by two or nine, and only at certain residues of the two sums. */
  predicate CpfBlind(d: seq<int>, k: nat, v: int)
    requires |d| == 11 && k < 11
  {
    var a, b, x := Sum1(CPF, d) % 11, Sum2(CPF, d) % 11, v - d[k];
    || (k == 0 && ((x == 1 && a == 1) || (x == -1 && a == 0)))
    || (k == 5 && (((x == 2 || x == -9) && a == 1 && b == 0) || ((x == -2 || x == 9) && a == 0 && b == 1)))
  }

  predicate Digit(v: int) { 0 <= v <= 9 }

  predicate AllDigits(d: seq<int>) { forall i :: 0 <= i < |d| ==> Digit(d[i]) }

  /** Residues of a difference of digits times a weight below eleven. */
  lemma CpfSlips(a: int, b: int, k: nat, x: int)
    requires k < 9 && -9 <= x <= 9 && x != 0
    ensures Slips(a, x * (10 - k)) && Slips(b, x * (11 - k)) <==>
            || (k == 0 && ((x == 1 && a % 11 == 1) || (x == -1 && a % 11 == 0)))
            || (k == 5 && (((x == 2 || x == -9) && a % 11 == 1 && b % 11 == 0)
                 || ((x == -2 || x == 9) && a % 11 == 0 && b % 11 == 1)))
  {
    if k == 0 {
      assert (x * 11) % 11 == 0;
      TimesResidues(x, 10);
    } else {
      TimesResidues(x, 10 - k);
      TimesResidues(x, 11 - k);
    }
  }

  /** x * w mod 11 for a difference of two digits. */
  lemma TimesResidues(x: int, w: int)
    requires -9 <= x <= 9 && x != 0 && 2 <= w <= 10
    ensures (x * w) % 11 != 0
    ensures (x * w) % 11 == 1 <==> x in Inverses(w)
    ensures (x * w) % 11 == 10 <==> -x in Inverses(w)
  {
    if w <= 4 {
      TimesSmall(x, w);
    } else if w <= 7 {
      TimesMiddle(x, w);
    } else {
      TimesLarge(x, w);
    }
  }

  lemma TimesSmall(x: int, w: int)
    requires -9 <= x <= 9 && x != 0 && 2 <= w <= 4
    ensures (x * w) % 11 != 0
    ensures (x * w) % 11 == 1 <==> x in Inverses(w)
    ensures (x * w) % 11 == 10 <==> -x in Inverses(w)
  {
    if w == 2 { } else if w == 3 { } else { }
  }

  lemma TimesMiddle(x: int, w: int)
    requires -9 <= x <= 9 && x != 0 && 5 <= w <= 7
    ensures (x * w) % 11 != 0
    ensures (x * w) % 11 == 1 <==> x in Inverses(w)
    ensures (x * w) % 11 == 10 <==> -x in Inverses(w)
  {
    if w == 5 { } else if w == 6 { } else { }
  }

  lemma TimesLarge(x: int, w: int)
    requires -9 <= x <= 9 && x != 0 && 8 <= w <= 10
    ensures (x * w) % 11 != 0
    ensures (x * w) % 11 == 1 <==> x in Inverses(w)
    ensures (x * w) % 11 == 10 <==> -x in Inverses(w)
  {
    if w == 8 { } else if w == 9 { } else { }
  }

  /** The differences of two digits that are inverse to `w` modulo 11. */
  function Inverses(w: int): set<int> {
    match w
    case 2 => {6, -5}
    case 3 => {4, -7}
    case 4 => {3, -8}
    case 5 => {9, -2}
    case 6 => {2, -9}
    case 7 => {8, -3}
    case 8 => {7, -4}
    case 9 => {5, -6}
    case _ => {-1}
  }

  /** A checking payload whose digits are all zero but one. */
  lemma {:induction false} LoneDigit(d: seq<int>, w: seq<int>, n: nat, k: nat)
    requires n <= |d| && n <= |w| && k < |d| && forall i :: 0 <= i < n && i != k ==> d[i] == 0
    ensures Weighted(d, w, n) == if k < n then d[k] * w[k] else 0
  {
    if n > 0 {
      LoneDigit(d, w, n - 1, k);
    }
  }

  /** Single-digit errors in a CPF, exactly. */
  lemma CpfChange(d: seq<int>, k: nat, v: int)
    requires |d| == 11 && AllDigits(d) && ChecksOut(CPF, d) && k < 11 && Digit(v) && v != d[k]
    ensures ChecksOut(CPF, d[k := v]) <==> CpfBlind(d, k, v)
  {
    hide Slips, Sum1, Sum2, ChecksOut;
    ChangeChecksOut(CPF, d, k, v);
    if k < 9 {
      assert CPF.w1[k] == 10 - k && CPF.w2[k] == 11 - k;
      CpfSlips(Sum1(CPF, d), Sum2(CPF, d), k, v - d[k]);
    }
  }

  /** What a blind change needs, in terms of the number itself. */
  lemma CpfBlindMeans(d: seq<int>, k: nat, v: int)
    requires |d| == 11 && ChecksOut(CPF, d) && k < 11 && CpfBlind(d, k, v)
    ensures || (k == 0 && (v - d[0] == 1 || v - d[0] == -1) && d[9] == 0)
            || (k == 5 && v - d[5] in {2, -2, 9, -9} && d[9] == 0 && d[10] == 0)
  {
  }

  /** No blind change leads to a number of one repeated digit. */
  lemma CpfUniformNotBlind(d: seq<int>, k: nat, v: int)
    requires |d| == 11 && AllDigits(d) && ChecksOut(CPF, d) && k < 11 && v != d[k]
    requires forall i :: 0 <= i < 11 && i != k ==> d[i] == v
    ensures !CpfBlind(d, k, v)
  {
    if v == 0 {
      LoneDigit(d, CPF.w1, 9, k);
      LoneDigit(d, CPF.w2, 10, k);
      assert CPF.w1[0] == 10 && CPF.w1[5] == 5 && CPF.w2[5] == 6;
    }
  }

  /** Single-digit errors in a CNPJ. */
  predicate CnpjBlind(d: seq<int>, k: nat, v: int)
    requires |d| == 14 && k < 14
  {
    var a, b, x := Sum1(CNPJ, d) % 11, Sum2(CNPJ, d) % 11, v - d[k];
    || ((k == 0 || k == 8) && (((x == 2 || x == -9) && a == 1 && b == 0) || ((x == -2 || x == 9) && a == 0 && b == 1)))
    || (k == 4 && (((x == 6 || x == -5) && a == 1 && b == 0) || ((x == -6 || x == 5) && a == 0 && b == 1)))
  }

  /** The weights of one payload position of a CNPJ. */
  predicate CnpjWeights(k: nat, w1: int, w2: int) {
    || (k in {0, 8} && w1 == 5 && w2 == 6) || (k in {1, 9} && w1 == 4 && w2 == 5)
         || (k in {2, 10} && w1 == 3 && w2 == 4)
    || (k in {3, 11} && w1 == 2 && w2 == 3) || (k == 4 && w1 == 9 && w2 == 2) || (k == 5 && w1 == 8 && w2 == 9)
    || (k == 6 && w1 == 7 && w2 == 8) || (k == 7 && w1 == 6 && w2 == 7)
  }

  lemma CnpjSlips(a: int, b: int, k: nat, w1: int, w2: int, x: int)
    requires CnpjWeights(k, w1, w2) && -9 <= x <= 9 && x != 0
    ensures Slips(a, x * w1) && Slips(b, x * w2) <==>
            || ((k == 0 || k == 8) && (((x == 2 || x == -9) && a % 11 == 1 && b % 11 == 0)
                 || ((x == -2 || x == 9) && a % 11 == 0 && b % 11 == 1)))
            || (k == 4 && (((x == 6 || x == -5) && a % 11 == 1 && b % 11 == 0)
                 || ((x == -6 || x == 5) && a % 11 == 0 && b % 11 == 1)))
  {
    TimesResidues(x, w1);
    TimesResidues(x, w2);
  }

  lemma CnpjChange(d: seq<int>, k: nat, v: int)
    requires |d| == 14 && AllDigits(d) && ChecksOut(CNPJ, d) && k < 14 && Digit(v) && v != d[k]
    ensures ChecksOut(CNPJ, d[k := v]) <==> CnpjBlind(d, k, v)
  {
    hide Slips, Sum1, Sum2, ChecksOut;
    ChangeChecksOut(CNPJ, d, k, v);
    if k < 12 {
      CnpjSlips(Sum1(CNPJ, d), Sum2(CNPJ, d), k, CNPJ.w1[k], CNPJ.w2[k], v - d[k]);
    }
  }

  lemma CnpjBlindMeans(d: seq<int>, k: nat, v: int)
    requires |d| == 14 && ChecksOut(CNPJ, d) && k < 14 && CnpjBlind(d, k, v)
    ensures d[12] == 0 && d[13] == 0
    ensures (k in {0, 8} && v - d[k] in {2, -2, 9, -9}) || (k == 4 && v - d[k] in {5, -5, 6, -6})
  {
  }

  lemma CnpjUniformNotBlind(d: seq<int>, k: nat, v: int)
    requires |d| == 14 && AllDigits(d) && ChecksOut(CNPJ, d) && k < 14 && v != d[k]
    requires forall i :: 0 <= i < 14 && i != k ==> d[i] == v
    ensures !CnpjBlind(d, k, v)
  {
    if v == 0 {
      LoneDigit(d, CNPJ.w1, 12, k);
      LoneDigit(d, CNPJ.w2, 13, k);
      assert CNPJ.w1[0] == 5 && CNPJ.w1[4] == 9 && CNPJ.w1[8] == 5;
      assert CNPJ.w2[0] == 6 && CNPJ.w2[4] == 2 && CNPJ.w2[8] == 6;
    }
  }

  // ---- on the strings themselves ----

  predicate IsNumber(s: string, n: nat) { |s| == n && forall i :: 0 <= i < |s| ==> IsDigit(s[i]) }

  lemma NumberDigits(s: string, n: nat)
    requires IsNumber(s, n)
    ensures DigitsOnly(s) == s && AllDigits(Digits(s))
  {
    DigitsOnlyOfDigits(s);
  }

  /** CPF error detection, exactly. Of all the single-digit changes of an accepted CPF, those that are
      accepted too are the blind ones; they touch the first digit by one with first check digit 0, or the
      sixth by two or nine with both check digits 0. */
  lemma CpfSingleErrors(s: string, k: nat, c: char)
    requires IsNumber(s, 11) && Accepts(CPF, s) && k < 11 && IsDigit(c) && c != s[k]
    ensures Accepts(CPF, s[k := c]) <==> CpfBlind(Digits(s), k, Value(c))
    ensures Accepts(CPF, s[k := c]) ==>
              || (k == 0 && Value(c) - Value(s[0]) in {1, -1} && s[9] == '0')
              || (k == 5 && Value(c) - Value(s[5]) in {2, -2, 9, -9} && s[9] == '0' && s[10] == '0')
  {
    hide ChecksOut, CpfBlind;
    var d, t := Digits(s), s[k := c];
    NumberDigits(s, 11);
    NumberDigits(t, 11);
    assert Digits(t) == d[k := Value(c)];
    CpfChange(d, k, Value(c));
    if CpfBlind(d, k, Value(c)) {
      CpfBlindMeans(d, k, Value(c));
    }
    if AllSame(t) {
      assert forall i :: 0 <= i < 11 && i != k ==> d[i] == Digits(t)[i] == Digits(t)[k];
      CpfUniformNotBlind(d, k, Value(c));
    }
  }

  /** CNPJ error detection, exactly. */
  lemma CnpjSingleErrors(s: string, k: nat, c: char)
    requires IsNumber(s, 14) && Accepts(CNPJ, s) && k < 14 && IsDigit(c) && c != s[k]
    ensures Accepts(CNPJ, s[k := c]) <==> CnpjBlind(Digits(s), k, Value(c))
    ensures Accepts(CNPJ, s[k := c]) ==>
              && s[12] == '0' && s[13] == '0'
              && ((k in {0, 8} && Value(c) - Value(s[k]) in {2, -2, 9, -9})
                   || (k == 4 && Value(c) - Value(s[k]) in {5, -5, 6, -6}))
  {
    hide ChecksOut, CnpjBlind;
    var d, t := Digits(s), s[k := c];
    NumberDigits(s, 14);
    NumberDigits(t, 14);
    assert Digits(t) == d[k := Value(c)];
    CnpjChange(d, k, Value(c));
    if CnpjBlind(d, k, Value(c)) {
      CnpjBlindMeans(d, k, Value(c));
    }
    if AllSame(t) {
      assert forall i :: 0 <= i < 14 && i != k ==> d[i] == Digits(t)[i] == Digits(t)[k];
      CnpjUniformNotBlind(d, k, Value(c));
    }
  }

  // ---- swapped neighbours ----

  /** Both sums are at residue 0 and the digits go up by one, or at residue 1 and they go down by one. */
  predicate SwapBlind(sc: WellScheme, d: seq<int>, i: nat)
    requires |d| == sc.n + 2 && i + 1 < sc.n
  {
    var a, b, x := Sum1(sc, d) % 11, Sum2(sc, d) % 11, d[i + 1] - d[i];
    (x == 1 && a == 0 && b == 0) || (x == -1 && a == 1 && b == 1)
  }

  lemma SwapNumber(sc: WellScheme, s: string, i: nat)
    requires IsNumber(s, sc.n + 2) && Accepts(sc, s) && i + 1 < sc.n && s[i] != s[i + 1]
    ensures Accepts(sc, Swap(s, i)) <==> ChecksOut(sc, Swap(Digits(s), i))
    ensures ChecksOut(sc, Digits(s)) && AllDigits(Digits(s)) && Digits(s)[i] != Digits(s)[i + 1]
  {
    hide ChecksOut, DigitsOnly;
    var t := Swap(s, i);
    NumberDigits(s, sc.n + 2);
    NumberDigits(t, sc.n + 2);
    assert Digits(t) == Swap(Digits(s), i);
    assert t[i] != t[i + 1];
    assert t[i] != t[0] || t[i + 1] != t[0];
  }

  lemma SwapBlindMeans(sc: WellScheme, d: seq<int>, i: nat)
    requires |d| == sc.n + 2 && i + 1 < sc.n && ChecksOut(sc, d) && SwapBlind(sc, d, i)
    ensures d[i + 1] - d[i] in {1, -1} && d[sc.n] == 0 && d[sc.n + 1] == 0
  {
  }

  /** Both weight rows fall by one from `i` to `i + 1`. */
  lemma SwapSlips(a: int, b: int, x: int)
    requires -9 <= x <= 9 && x != 0
    ensures Slips(a, x * 1) && Slips(b, x * 1) <==>
            (x == 1 && a % 11 == 0 && b % 11 == 0) || (x == -1 && a % 11 == 1 && b % 11 == 1)
    ensures !(Slips(a, x * -7) && Slips(b, x * 1)) && !(Slips(a, x * 1) && Slips(b, x * -7))
  {
  }

  /** Swapping two unequal neighbours in the payload of an accepted CPF is accepted exactly when they
      differ by one and the sums stand right, which takes both check digits to be 0. */
  lemma CpfSwaps(s: string, i: nat)
    requires IsNumber(s, 11) && Accepts(CPF, s) && i + 1 < 9 && s[i] != s[i + 1]
    ensures Accepts(CPF, Swap(s, i)) <==> SwapBlind(CPF, Digits(s), i)
    ensures Accepts(CPF, Swap(s, i)) ==> Value(s[i + 1]) - Value(s[i]) in {1, -1} && s[9] == '0' && s[10] == '0'
  {
    hide Accepts, ChecksOut, Sum1, Sum2, Slips, Swap;
    var d := Digits(s);
    SwapNumber(CPF, s, i);
    SwapChecksOut(CPF, d, i);
    assert CPF.w1[i] - CPF.w1[i + 1] == 1 && CPF.w2[i] - CPF.w2[i + 1] == 1;
    SwapSlips(Sum1(CPF, d), Sum2(CPF, d), d[i + 1] - d[i]);
    if SwapBlind(CPF, d, i) {
      SwapBlindMeans(CPF, d, i);
    }
  }

  /** The same for a CNPJ, except that the swaps across the jump in the weights, at positions 3-4 and
      4-5, are always rejected. */
  lemma CnpjSwaps(s: string, i: nat)
    requires IsNumber(s, 14) && Accepts(CNPJ, s) && i + 1 < 12 && s[i] != s[i + 1]
    ensures Accepts(CNPJ, Swap(s, i)) <==> i !in {3, 4} && SwapBlind(CNPJ, Digits(s), i)
    ensures Accepts(CNPJ, Swap(s, i)) ==> Value(s[i + 1]) - Value(s[i]) in {1, -1} && s[12] == '0' && s[13] == '0'
  {
    hide Accepts, ChecksOut, Sum1, Sum2, Slips, Swap;
    var d := Digits(s);
    SwapNumber(CNPJ, s, i);
    SwapChecksOut(CNPJ, d, i);
    assert CNPJ.w1[i] - CNPJ.w1[i + 1] == if i == 3 then -7 else 1;
    assert CNPJ.w2[i] - CNPJ.w2[i + 1] == if i == 4 then -7 else 1;
    SwapSlips(Sum1(CNPJ, d), Sum2(CNPJ, d), d[i + 1] - d[i]);
    if SwapBlind(CNPJ, d, i) {
      SwapBlindMeans(CNPJ, d, i);
    }
  }

  // ---- the exceptions are real ----

  lemma Three(d: seq<int>, w: seq<int>, n: nat)
    requires n + 3 <= |d| && n + 3 <= |w|
    ensures Weighted(d, w, n + 3) == Weighted(d, w, n) + d[n] * w[n] + d[n + 1] * w[n + 1] + d[n + 2] * w[n + 2]
  {
    assert Weighted(d, w, n + 2) == Weighted(d, w, n + 1) + d[n + 1] * w[n + 1];
  }

  lemma CpfSums(d: seq<int>)
    requires |d| == 11
    ensures Sum1(CPF, d) == 10 * d[0] + 9 * d[1] + 8 * d[2] + 7 * d[3] + 6 * d[4] + 5 * d[5] + 4 * d[6] + 3 * d[7]
              + 2 * d[8]
    ensures Sum2(CPF, d) ==
            11 * d[0] + 10 * d[1] + 9 * d[2] + 8 * d[3] + 7 * d[4] + 6 * d[5] + 5 * d[6] + 4 * d[7] + 3 * d[8]
              + 2 * d[9]
  {
    Three(d, CPF.w1, 0);
    Three(d, CPF.w1, 3);
    Three(d, CPF.w1, 6);
    Three(d, CPF.w2, 0);
    Three(d, CPF.w2, 3);
    Three(d, CPF.w2, 6);
  }

  /** A CPF of eleven digits is accepted if and only if its digits are not all equal and both check digits are the ones
      computed by hand: ten times the weighted sum, modulo 11, with 10 read as 0. */
  lemma CpfByTheBook(s: string)
    requires IsNumber(s, 11)
    ensures var d := Digits(s);
            var a := 10 * d[0] + 9 * d[1] + 8 * d[2] + 7 * d[3] + 6 * d[4] + 5 * d[5] + 4 * d[6] + 3 * d[7] + 2 * d[8];
            var b := 11 * d[0] + 10 * d[1] + 9 * d[2] + 8 * d[3] + 7 * d[4] + 6 * d[5] + 5 * d[6] + 4 * d[7] + 3 * d[8];
            Accepts(CPF, s) <==>
              && (exists i :: 0 < i < 11 && s[i] != s[0])
              && d[9] == (if a * 10 % 11 == 10 then 0 else a * 10 % 11)
              && d[10] == (if (b + 2 * d[9]) * 10 % 11 == 10 then 0 else (b + 2 * d[9]) * 10 % 11)
  {
    hide DigitsOnly, Check, Sum1, Sum2;
    var d := Digits(s);
    NumberDigits(s, 11);
    CpfSums(d);
    TimesTen(Sum1(CPF, d));
    TimesTen(Sum2(CPF, d));
  }

  /** The same for a CNPJ of fourteen digits: 11 less the weighted sum modulo 11, and 0 for the residues 0 and 1. */
  lemma CnpjByTheBook(s: string)
    requires IsNumber(s, 14)
    ensures var d := Digits(s);
            var a := 5 * d[0] + 4 * d[1] + 3 * d[2] + 2 * d[3] + 9 * d[4] + 8 * d[5]
                     + 7 * d[6] + 6 * d[7] + 5 * d[8] + 4 * d[9] + 3 * d[10] + 2 * d[11];
            var b := 6 * d[0] + 5 * d[1] + 4 * d[2] + 3 * d[3] + 2 * d[4] + 9 * d[5]
                     + 8 * d[6] + 7 * d[7] + 6 * d[8] + 5 * d[9] + 4 * d[10] + 3 * d[11] + 2 * d[12];
            Accepts(CNPJ, s) <==>
              && (exists i :: 0 < i < 14 && s[i] != s[0])
              && d[12] == (if a % 11 < 2 then 0 else 11 - a % 11)
              && d[13] == (if b % 11 < 2 then 0 else 11 - b % 11)
  {
    hide DigitsOnly, Sum1, Sum2;
    NumberDigits(s, 14);
    CnpjSums(Digits(s));
  }

  /** Nothing but eleven, or fourteen, digits is accepted, whatever stands between them. */
  lemma OnlyFullNumbers(s: string)
    ensures Accepts(CPF, s) ==> |DigitsOnly(s)| == 11
    ensures Accepts(CNPJ, s) ==> |DigitsOnly(s)| == 14
  {
    hide DigitsOnly;
  }

  lemma CpfByHand(s: string, d: seq<int>, i: nat, j: nat)
    requires IsNumber(s, 11) && d == Digits(s) && i < 11 && j < 11 && s[i] != s[j]
    requires var a := 10 * d[0] + 9 * d[1] + 8 * d[2] + 7 * d[3] + 6 * d[4] + 5 * d[5] + 4 * d[6] + 3 * d[7] + 2 * d[8];
             Check(a) == d[9]
    requires var b := 11 * d[0] + 10 * d[1] + 9 * d[2] + 8 * d[3] + 7 * d[4] + 6 * d[5] + 5 * d[6] + 4 * d[7]
               + 3 * d[8];
             Check(b + 2 * d[9]) == d[10]
    ensures Accepts(CPF, s)
  {
    hide DigitsOnly, Check;
    NumberDigits(s, 11);
    CpfSums(d);
    assert s[i] != s[0] || s[j] != s[0];
  }

  lemma CnpjSums(d: seq<int>)
    requires |d| == 14
    ensures Sum1(CNPJ, d) ==
            5 * d[0] + 4 * d[1] + 3 * d[2] + 2 * d[3] + 9 * d[4] + 8 * d[5]
            + 7 * d[6] + 6 * d[7] + 5 * d[8] + 4 * d[9] + 3 * d[10] + 2 * d[11]
    ensures Sum2(CNPJ, d) ==
            6 * d[0] + 5 * d[1] + 4 * d[2] + 3 * d[3] + 2 * d[4] + 9 * d[5]
            + 8 * d[6] + 7 * d[7] + 6 * d[8] + 5 * d[9] + 4 * d[10] + 3 * d[11] + 2 * d[12]
  {
    Three(d, CNPJ.w1, 0);
    Three(d, CNPJ.w1, 3);
    Three(d, CNPJ.w1, 6);
    Three(d, CNPJ.w1, 9);
    Three(d, CNPJ.w2, 0);
    Three(d, CNPJ.w2, 3);
    Three(d, CNPJ.w2, 6);
    Three(d, CNPJ.w2, 9);
  }

  lemma CnpjByHand(s: string, d: seq<int>, i: nat, j: nat)
    requires IsNumber(s, 14) && d == Digits(s) && i < 14 && j < 14 && s[i] != s[j]
    requires var a := 5 * d[0] + 4 * d[1] + 3 * d[2] + 2 * d[3] + 9 * d[4] + 8 * d[5];
             Check(a + 7 * d[6] + 6 * d[7] + 5 * d[8] + 4 * d[9] + 3 * d[10] + 2 * d[11]) == d[12]
    requires var b := 6 * d[0] + 5 * d[1] + 4 * d[2] + 3 * d[3] + 2 * d[4] + 9 * d[5];
             Check(b + 8 * d[6] + 7 * d[7] + 6 * d[8] + 5 * d[9] + 4 * d[10] + 3 * d[11] + 2 * d[12]) == d[13]
    ensures Accepts(CNPJ, s)
  {
    hide DigitsOnly, Check;
    NumberDigits(s, 14);
    CnpjSums(d);
    assert s[i] != s[0] || s[j] != s[0];
  }

  /** Two accepted CPFs that differ in the first digit only. */
  lemma BlindFirstDigit()
    ensures Accepts(CPF, "00080035302")
    ensures Accepts(CPF, "10080035302")
  {
    hide Accepts;
    CpfByHand("00080035302", [0, 0, 0, 8, 0, 0, 3, 5, 3, 0, 2], 0, 3);
    CpfByHand("10080035302", [1, 0, 0, 8, 0, 0, 3, 5, 3, 0, 2], 0, 1);
  }

  /** Accepted CPFs that differ in the sixth digit only, by two and by nine. */
  lemma BlindSixthDigit()
    ensures Accepts(CPF, "00070036500")
    ensures Accepts(CPF, "00070236500")
    ensures Accepts(CPF, "00000009300")
    ensures Accepts(CPF, "00000909300")
  {
    hide Accepts;
    BlindSixthDigitFront();
    BlindSixthDigitBack();
  }

  lemma BlindSixthDigitFront()
    ensures Accepts(CPF, "00070036500")
    ensures Accepts(CPF, "00070236500")
  {
    hide Accepts;
    CpfByHand("00070036500", [0, 0, 0, 7, 0, 0, 3, 6, 5, 0, 0], 0, 3);
    CpfByHand("00070236500", [0, 0, 0, 7, 0, 2, 3, 6, 5, 0, 0], 0, 3);
  }

  lemma BlindSixthDigitBack()
    ensures Accepts(CPF, "00000009300")
    ensures Accepts(CPF, "00000909300")
  {
    hide Accepts;
    CpfByHand("00000009300", [0, 0, 0, 0, 0, 0, 0, 9, 3, 0, 0], 0, 7);
    CpfByHand("00000909300", [0, 0, 0, 0, 0, 9, 0, 9, 3, 0, 0], 0, 5);
  }

  /** Accepted CNPJs that differ in one digit from the first of them: position 0 by nine, position 4 by five, position 8
      by nine. */
  lemma BlindCnpjDigits()
    ensures Accepts(CNPJ, "00370009003100")
    ensures Accepts(CNPJ, "90370009003100")
    ensures Accepts(CNPJ, "00375009003100")
    ensures Accepts(CNPJ, "00370009903100")
  {
    hide Accepts;
    BlindCnpjDigitsFront();
    BlindCnpjDigitsBack();
  }

  lemma BlindCnpjDigitsFront()
    ensures Accepts(CNPJ, "00370009003100")
    ensures Accepts(CNPJ, "90370009003100")
  {
    hide Accepts;
    CnpjByHand("00370009003100", [0, 0, 3, 7, 0, 0, 0, 9, 0, 0, 3, 1, 0, 0], 0, 2);
    CnpjByHand("90370009003100", [9, 0, 3, 7, 0, 0, 0, 9, 0, 0, 3, 1, 0, 0], 0, 1);
  }

  lemma BlindCnpjDigitsBack()
    ensures Accepts(CNPJ, "00375009003100")
    ensures Accepts(CNPJ, "00370009903100")
  {
    hide Accepts;
    CnpjByHand("00375009003100", [0, 0, 3, 7, 5, 0, 0, 9, 0, 0, 3, 1, 0, 0], 0, 2);
    CnpjByHand("00370009903100", [0, 0, 3, 7, 0, 0, 0, 9, 9, 0, 3, 1, 0, 0], 0, 2);
  }

  /** The same by two, six and two. */
  lemma BlindCnpjSmallSteps()
    ensures Accepts(CNPJ, "00070000003000")
    ensures Accepts(CNPJ, "20070000003000")
    ensures Accepts(CNPJ, "00076000003000")
    ensures Accepts(CNPJ, "00070000203000")
  {
    hide Accepts;
    BlindCnpjSmallStepsFront();
    BlindCnpjSmallStepsBack();
  }

  lemma BlindCnpjSmallStepsFront()
    ensures Accepts(CNPJ, "00070000003000")
    ensures Accepts(CNPJ, "20070000003000")
  {
    hide Accepts;
    CnpjByHand("00070000003000", [0, 0, 0, 7, 0, 0, 0, 0, 0, 0, 3, 0, 0, 0], 0, 3);
    CnpjByHand("20070000003000", [2, 0, 0, 7, 0, 0, 0, 0, 0, 0, 3, 0, 0, 0], 0, 1);
  }

  lemma BlindCnpjSmallStepsBack()
    ensures Accepts(CNPJ, "00076000003000")
    ensures Accepts(CNPJ, "00070000203000")
  {
    hide Accepts;
    CnpjByHand("00076000003000", [0, 0, 0, 7, 6, 0, 0, 0, 0, 0, 3, 0, 0, 0], 0, 3);
    CnpjByHand("00070000203000", [0, 0, 0, 7, 0, 0, 0, 0, 2, 0, 3, 0, 0, 0], 0, 3);
  }

  /** Two accepted CPFs that differ by a swap of the first two digits. */
  lemma BlindCpfSwap()
    ensures Accepts(CPF, "78690633200")
    ensures Accepts(CPF, "87690633200")
  {
    hide Accepts;
    CpfByHand("78690633200", [7, 8, 6, 9, 0, 6, 3, 3, 2, 0, 0], 0, 1);
    CpfByHand("87690633200", [8, 7, 6, 9, 0, 6, 3, 3, 2, 0, 0], 0, 1);
  }

  /** Two accepted CNPJs that differ by a swap of the first two digits. */
  lemma BlindCnpjSwap()
    ensures Accepts(CNPJ, "01000011000800")
    ensures Accepts(CNPJ, "10000011000800")
  {
    hide Accepts;
    BlindCnpjSwapFront();
    BlindCnpjSwapBack();
  }

  lemma BlindCnpjSwapFront()
    ensures Accepts(CNPJ, "01000011000800")
  {
    hide Accepts;
    CnpjByHand("01000011000800", [0, 1, 0, 0, 0, 0, 1, 1, 0, 0, 0, 8, 0, 0], 0, 1);
  }

  lemma BlindCnpjSwapBack()
    ensures Accepts(CNPJ, "10000011000800")
  {
    hide Accepts;
    CnpjByHand("10000011000800", [1, 0, 0, 0, 0, 0, 1, 1, 0, 0, 0, 8, 0, 0], 0, 1);
  }
}
