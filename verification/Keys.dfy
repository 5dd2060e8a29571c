/** The two Redis key formats that share one keyspace, and why they never collide. */
module Keys {

  /** `%d` of a non-negative integer. */
  function Decimal(n: nat): (s: string)
    ensures s != [] && forall i :: 0 <= i < |s| ==> '0' <= s[i] <= '9'
  {
    if n < 10 then [Digit(n)] else Decimal(n / 10) + [Digit(n % 10)]
  }

  function Digit(n: nat): (c: char)
    requires n < 10
    ensures '0' <= c <= '9'
  {
    '0' + n as char
  }

  /** The number a decimal string stands for. */
  function Number(s: string): nat
    requires forall i :: 0 <= i < |s| ==> '0' <= s[i] <= '9'
  {
    if s == [] then 0 else Number(s[..|s| - 1]) * 10 + (s[|s| - 1] as int - '0' as int)
  }

  lemma {:induction false} NumberOfDecimal(n: nat)
    ensures Number(Decimal(n)) == n
  {
    if n >= 10 {
      NumberOfDecimal(n / 10);
      assert Decimal(n)[..|Decimal(n)| - 1] == Decimal(n / 10);
    } else {
      assert Decimal(n)[..0] == [];
    }
  }

  /** Key of a cached extraction result. */
  function CacheKey(docType: string, sha: string): string {
    "extract:v1:" + docType + ":" + sha
  }

  /** Key of the fixed-window counter of one principal; `window` is in Unix seconds. */
  function LimitKey(kind: string, id: string, window: nat): string {
    "rl:" + kind + ":" + id + ":" + Decimal(window)
  }

  /** Text after the last colon determines the split. */
  lemma LastColon(a: string, x: string, b: string, y: string)
    requires ':' !in x && ':' !in y
    requires a + ":" + x == b + ":" + y
    ensures a == b && x == y
  {
    var s := a + ":" + x;
    assert s[|a|] == ':' && s[|b|] == ':';
    assert forall i :: |a| < i < |s| ==> s[i] == x[i - |a| - 1];
    assert forall i :: |b| < i < |s| ==> s[i] == y[i - |b| - 1];
    assert |a| == |b|;
    assert a == s[..|a|] && b == s[..|b|];
    assert x == s[|a| + 1..] && y == s[|b| + 1..];
  }

  /** Text before the first colon determines the split. */
  lemma FirstColon(a: string, x: string, b: string, y: string)
    requires ':' !in a && ':' !in b
    requires a + ":" + x == b + ":" + y
    ensures a == b && x == y
  {
    var s := a + ":" + x;
    assert s[|a|] == ':' && s[|b|] == ':';
    assert forall i :: 0 <= i < |a| ==> s[i] == a[i];
    assert forall i :: 0 <= i < |b| ==> s[i] == b[i];
    assert |a| == |b|;
    assert a == s[..|a|] && b == s[..|b|];
    assert x == s[|a| + 1..] && y == s[|b| + 1..];
  }

  /** Cache keys are injective for colon-free digests, whatever colons the document type holds. */
  lemma CacheKeyInjective(d: string, h: string, d': string, h': string)
    requires ':' !in h && ':' !in h'
    ensures CacheKey(d, h) == CacheKey(d', h') <==> d == d' && h == h'
  {
    if CacheKey(d, h) == CacheKey(d', h') {
      LastColon("extract:v1:" + d, h, "extract:v1:" + d', h');
      assert d == ("extract:v1:" + d)[11..] && d' == ("extract:v1:" + d')[11..];
    }
  }

  /** Limiter keys are injective for colon-free kinds, whatever colons the principal id holds. */
  lemma LimitKeyInjective(k: string, i: string, w: nat, k': string, i': string, w': nat)
    requires ':' !in k && ':' !in k'
    ensures LimitKey(k, i, w) == LimitKey(k', i', w') <==> k == k' && i == i' && w == w'
  {
    if LimitKey(k, i, w) == LimitKey(k', i', w') {
      LastColon("rl:" + k + ":" + i, Decimal(w), "rl:" + k' + ":" + i', Decimal(w'));
      NumberOfDecimal(w);
      NumberOfDecimal(w');
      assert k + ":" + i == ("rl:" + k + ":" + i)[3..];
      assert k' + ":" + i' == ("rl:" + k' + ":" + i')[3..];
      FirstColon(k, i, k', i');
    }
  }

  /** No key is both a cache key and a limiter key. */
  lemma KeysDisjoint(d: string, h: string, k: string, i: string, w: nat)
    ensures CacheKey(d, h) != LimitKey(k, i, w)
  {
    assert CacheKey(d, h)[0] == 'e' && LimitKey(k, i, w)[0] == 'r';
  }

  /** The formats on an example of each. */
  lemma KeysWrittenOut()
    ensures CacheKey("invoice_nf", "0a") == "extract:v1:invoice_nf:0a"
    ensures LimitKey("jwt", "ana", 120) == "rl:jwt:ana:120"
  {
    assert Decimal(1) == "1";
    assert Decimal(12) == "12";
    assert Decimal(120) == "120";
  }
}
