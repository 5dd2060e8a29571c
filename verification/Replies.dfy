/** What the unwrapping makes of replies with prose around the object: the slice from the first opening to the last
    closing brace. */
module Replies {
  import opened Text
  import opened Unwrap

  /** Between the first opening and the last closing brace; a text without such a pair is left as it is. */
  lemma BracesExact(s: string)
    ensures forall p, q ::
              0 <= p < q < |s| && s[p] == '{' && s[q] == '}' && '{' !in s[..p] && '}' !in s[q + 1..] ==>
                Braces(s) == s[p..q + 1]
    ensures (forall p, q :: 0 <= p < q < |s| && s[p] == '{' ==> s[q] != '}') ==> Braces(s) == s
  {
    hide Braces;
    forall p, q | 0 <= p < q < |s| && s[p] == '{' && s[q] == '}' && '{' !in s[..p] && '}' !in s[q + 1..]
      ensures Braces(s) == s[p..q + 1]
    {
      BracesBetween(s, p, q);
    }
    if forall p, q :: 0 <= p < q < |s| && s[p] == '{' ==> s[q] != '}' {
      NoBraces(s);
    }
  }

  lemma OneChar(s: string, pat: string)
    requires |pat| == 1
    ensures forall i :: At(s, pat, i) <==> 0 <= i < |s| && s[i] == pat[0]
  {
  }

  lemma BracesBetween(s: string, p: int, q: int)
    requires 0 <= p < q < |s| && s[p] == '{' && s[q] == '}' && '{' !in s[..p] && '}' !in s[q + 1..]
    ensures Braces(s) == s[p..q + 1]
  {
    hide At, Index, LastIndex;
    OneChar(s, "{");
    OneChar(s, "}");
    forall i | 0 <= i < p ensures s[i] != '{' {
      assert s[..p][i] in s[..p];
    }
    forall j | q < j < |s| ensures s[j] != '}' {
      assert s[q + 1..][j - q - 1] in s[q + 1..];
    }
    assert At(s, "{", p) && At(s, "}", q);
    assert At(s, "{", Index(s, "{")) && At(s, "}", LastIndex(s, "}"));
  }

  lemma NoBraces(s: string)
    requires forall p, q :: 0 <= p < q < |s| && s[p] == '{' ==> s[q] != '}'
    ensures Braces(s) == s
  {
    hide At, Index, LastIndex;
    OneChar(s, "{");
    OneChar(s, "}");
  }

  /** A think block that is never closed is cut off with everything behind it. */
  lemma UnclosedThink(a: string, b: string)
    requires forall i :: 0 <= i < |a| ==> !At(a + OPEN + b, OPEN, i)
    requires !Contains(OPEN + b, CLOSE)
    ensures StripThink(a + OPEN + b) == a
  {
    hide At, Index, Contains, OPEN, CLOSE;
    var s := a + OPEN + b;
    TagAt(a, b);
    IndexIs(s, OPEN, |a|);
    SplitAt(a, OPEN, b);
    IndexNone(OPEN + b, CLOSE);
  }

  lemma SplitAt(a: string, o: string, b: string)
    ensures (a + o + b)[..|a|] == a && (a + o + b)[|a|..] == o + b
  {
  }

  lemma IndexIs(s: string, pat: string, i: nat)
    requires At(s, pat, i) && forall j :: 0 <= j < i ==> !At(s, pat, j)
    ensures Index(s, pat) == i
  {
    NotBefore(s, pat);
  }

  lemma IndexNone(s: string, pat: string)
    requires !Contains(s, pat)
    ensures Index(s, pat) == -1
  {
    NotBefore(s, pat);
  }

  lemma TagAt(a: string, b: string)
    ensures At(a + OPEN + b, OPEN, |a|)
  {
  }

  lemma NotBefore(s: string, pat: string)
    ensures forall j :: j < 0 ==> !At(s, pat, j)
  {
  }

  lemma InText(s: string, pat: string, i: int)
    requires At(s, pat, i)
    ensures Contains(s, pat)
  {
  }

  // ---- prose around the object ----

  /** Text in front of the object, or behind it, that cannot be mistaken for a part of it. */
  predicate IsLead(pre: string) { '<' !in pre && '{' !in pre }

  predicate IsTail(post: string) { '<' !in post && '}' !in post }

  lemma TrimAround(pre: string, body: string, post: string)
    requires body != [] && !IsSpace(body[0]) && !IsSpace(body[|body| - 1])
    ensures TrimSpace(pre + body + post) == TrimLeft(pre) + body + TrimRight(post)
  {
    hide TrimLeft, TrimRight, IsSpace, TrimSpace;
    var l, r := TrimLeft(pre), TrimRight(post);
    var a, b, core := pre[..|pre| - |l|], post[|r|..], l + body + r;
    assert pre == a + l && post == r + b;
    assert pre + body + post == a + core + b;
    assert core[0] == (if l != [] then l[0] else body[0]);
    assert core[|core| - 1] == (if r != [] then r[|r| - 1] else body[|body| - 1]);
    TrimSpaceExact(a, core, b);
  }

  lemma BracesAround(l: string, body: string, r: string)
    requires IsBody(body) && '{' !in l && '}' !in r
    ensures Braces(l + body + r) == body
  {
    hide Braces;
    var s := l + body + r;
    assert s[..|l|] == l && s[|l| + |body|..] == r && s[|l|..|l| + |body|] == body;
    assert s[|l|] == body[0] && s[|l| + |body| - 1] == body[|body| - 1];
    BracesBetween(s, |l|, |l| + |body| - 1);
  }

  lemma NoTagAround(l: string, body: string, r: string)
    requires IsBody(body) && !Contains(body, OPEN) && '<' !in l && '<' !in r
    ensures !Contains(l + body + r, OPEN)
  {
    hide Contains, At;
    var s := l + body + r;
    forall i ensures !At(s, OPEN, i) {
      if At(s, OPEN, i) {
        TagInBody(l, body, r, i);
        InText(body, OPEN, i - |l|);
      }
    }
    NowhereIn(s, OPEN);
  }

  lemma NowhereIn(s: string, pat: string)
    requires forall i :: !At(s, pat, i)
    ensures !Contains(s, pat)
  {
    hide At;
  }

  /** A tag starts in the body, and ends there, because it holds no brace. */
  lemma TagInBody(l: string, body: string, r: string, i: int)
    requires IsBody(body) && '<' !in l && '<' !in r && At(l + body + r, OPEN, i)
    ensures At(body, OPEN, i - |l|)
  {
    var s, e := l + body + r, |l| + |body| - 1;
    forall m | 0 <= m < |l| ensures s[m] != '<' {
      assert s[m] == l[m] && l[m] in l;
    }
    forall m | e < m < |s| ensures s[m] != '<' {
      assert s[m] == r[m - e - 1] && r[m - e - 1] in r;
    }
    CharAt(s, OPEN, i, 0);
    assert s[e] == body[|body| - 1];
    BraceOutside(s, e, i);
    forall m | 0 <= m < |OPEN| ensures i - |l| + m < |body| && body[i - |l| + m] == OPEN[m] {
      CharAt(s, OPEN, i, m);
      assert s[i + m] == body[i - |l| + m];
    }
  }

  lemma BraceOutside(s: string, e: int, i: int)
    requires At(s, OPEN, i) && 0 <= e < |s| && s[e] == '}'
    ensures e < i || i + |OPEN| <= e
  {
    if i <= e < i + |OPEN| {
      CharAt(s, OPEN, i, e - i);
      NoBraceInTag(e - i);
    }
  }

  lemma NoBraceInTag(k: int)
    requires 0 <= k < |OPEN|
    ensures OPEN[k] != '}'
  {
  }

  lemma SplitPre(pre: string) returns (space: string)
    ensures AllSpace(space) && pre == space + TrimLeft(pre)
    ensures forall c :: c !in pre ==> c !in TrimLeft(pre)
  {
    hide IsSpace;
    var l := TrimLeft(pre);
    space := pre[..|pre| - |l|];
    assert pre == space + l;
  }

  lemma SplitPost(post: string) returns (space: string)
    ensures AllSpace(space) && post == TrimRight(post) + space
    ensures forall c :: c !in post ==> c !in TrimRight(post)
  {
    hide IsSpace;
    space := post[|TrimRight(post)|..];
  }

  lemma BodyEnds(body: string)
    requires IsBody(body)
    ensures body != [] && !IsSpace(body[0]) && !IsSpace(body[|body| - 1])
  {
  }

  /** The object is found in prose: leading think blocks, any text without an opening brace, the body, any text
      without a closing brace. Only a text that starts with a fence is treated otherwise. */
  lemma SliceFindsBody(bs: seq<Block>, pre: string, body: string, post: string)
    requires forall b :: b in bs ==> BlockOk(b)
    requires IsLead(pre) && IsTail(post) && IsBody(body) && !Contains(body, OPEN) && !HasPrefix(TrimLeft(pre), FENCE)
    ensures Slice(Blocks(bs) + pre + body + post) == body
  {
    hide Contains, IsSpace, TrimLeft, TrimRight, TrimSpace, StripThink, Braces, BlockOk, Blocks, OPEN, FENCE,
      HasPrefix;
    var l, r := TrimLeft(pre), TrimRight(post);
    var space := SplitPre(pre);
    var trail := SplitPost(post);
    var core := l + body + r;
    BodyEnds(body);
    CoreEnds(pre, body, post);
    NoTagAround(l, body, r);
    RegroupProse(Blocks(bs), space, l, body, r, trail);
    var lead := StripReply(bs, space, core, trail);
    TrimLead(lead, core);
    NoFence(l, body, r);
    BracesAround(l, body, r);
  }

  lemma RegroupProse(x: string, space: string, l: string, body: string, r: string, trail: string)
    ensures x + (space + l) + body + (r + trail) == x + space + (l + body + r) + trail
  {
  }

  lemma CoreEnds(pre: string, body: string, post: string)
    requires body != [] && !IsSpace(body[0]) && !IsSpace(body[|body| - 1])
    ensures var core := TrimLeft(pre) + body + TrimRight(post);
            core != [] && !IsSpace(core[0]) && !IsSpace(core[|core| - 1])
  {
    hide IsSpace, TrimLeft, TrimRight;
    var l, r := TrimLeft(pre), TrimRight(post);
    var core := l + body + r;
    assert core[0] == (if l != [] then l[0] else body[0]);
    assert core[|core| - 1] == (if r != [] then r[|r| - 1] else body[|body| - 1]);
  }

  lemma NoFence(l: string, body: string, r: string)
    requires IsBody(body) && !HasPrefix(l, FENCE)
    ensures !HasPrefix(l + body + r, FENCE)
  {
    var s := l + body + r;
    if |l| < 3 {
      assert s[|l|] == '{' && FENCE[|l|] == '`';
    } else {
      assert s[..3] == l[..3];
    }
  }

  /** The object is found inside a fence, with prose around it there and behind the fence. */
  lemma SliceFindsFenced(bs: seq<Block>, space: string, tag: string, pre: string, body: string, post: string,
                         rest: string, trail: string)
    requires forall b :: b in bs ==> BlockOk(b)
    requires AllSpace(space) && AllSpace(trail) && tag in {"json", "JSON", ""}
    requires IsLead(pre) && IsTail(post) && IsBody(body) && !Contains(body, OPEN)
    requires pre != [] ==> pre[0] !in {'`', 'j', 'J'}
    requires '<' !in rest && '`' !in rest && (rest != [] ==> !IsSpace(rest[|rest| - 1]))
    ensures Slice(Blocks(bs) + space + (FENCE + tag + pre + body + post + FENCE + rest) + trail) == body
  {
    hide Contains, IsSpace, TrimLeft, TrimRight, TrimSpace, StripThink, Braces, BlockOk, Blocks, AfterFence,
      BeforeFence;
    var core := FENCE + tag + pre + body + post + FENCE + rest;
    FencedCore(tag, pre, body, post, rest);
    var lead := StripReply(bs, space, core, trail);
    TrimLead(lead, core);
    var a := pre + body + post + FENCE + rest;
    RegroupFenced(FENCE, tag, pre, body, post, rest);
    FenceInFront(tag + a);
    TrimFenceOpen(tag, a);
    LastFenceBefore(pre + body + post, rest);
    BodyEnds(body);
    TrimAround(pre, body, post);
    var s := SplitPre(pre);
    var s' := SplitPost(post);
    BracesAround(TrimLeft(pre), body, TrimRight(post));
  }

  lemma RegroupFenced(f: string, tag: string, pre: string, body: string, post: string, rest: string)
    ensures f + tag + pre + body + post + f + rest == f + tag + (pre + body + post + f + rest)
    ensures f + tag + pre + body + post + f + rest == f + (tag + (pre + body + post + f + rest))
    ensures body != [] ==> (pre + body + post + f + rest)[0] == (if pre != [] then pre[0] else body[0])
  {
  }

  lemma FencedCore(tag: string, pre: string, body: string, post: string, rest: string)
    requires tag in {"json", "JSON", ""} && IsLead(pre) && IsTail(post) && IsBody(body) && !Contains(body, OPEN)
    requires '<' !in rest && (rest != [] ==> !IsSpace(rest[|rest| - 1]))
    ensures var core := FENCE + tag + pre + body + post + FENCE + rest;
            !Contains(core, OPEN) && core != [] && !IsSpace(core[0]) && !IsSpace(core[|core| - 1])
  {
    hide Contains;
    var l, r := FENCE + tag + pre, post + FENCE + rest;
    assert '<' !in l && '<' !in r;
    NoTagAround(l, body, r);
    var core := FENCE + tag + pre + body + post + FENCE + rest;
    assert core == l + body + r;
    assert core[|core| - 1] == if rest != [] then rest[|rest| - 1] else '`';
  }

  lemma LastFenceBefore(m: string, rest: string)
    requires '`' !in rest
    ensures BeforeFence(m + FENCE + rest) == m
  {
    var s := m + FENCE + rest;
    assert At(s, FENCE, |m|);
    forall q | |m| + 3 <= q < |s| ensures s[q] != '`' {
      assert s[q] == rest[q - |m| - 3] && rest[q - |m| - 3] in rest;
    }
    forall j | j > |m| ensures !At(s, FENCE, j) {
      if At(s, FENCE, j) {
        CharAt(s, FENCE, j, 2);
      }
    }
    assert s[..|m|] == m;
  }
}
