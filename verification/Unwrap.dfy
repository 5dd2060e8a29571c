/** Getting the JSON object out of a model reply: removal of `<think>` blocks, of a Markdown fence,
    and the slice from the first opening to the last closing brace. */
module Unwrap {
  import opened Text

  const OPEN := "<think>"
  const CLOSE := "</think>"
  const FENCE := "```"

  /** Neither tag holds `<` but at its start. */
  lemma TagShape()
    ensures |OPEN| == 7 && OPEN[0] == '<' && OPEN[1] == 't' && forall k :: 0 < k < 7 ==> OPEN[k] != '<'
    ensures |CLOSE| == 8 && CLOSE[0] == '<' && CLOSE[1] == '/' && forall k :: 0 < k < 8 ==> CLOSE[k] != '<'
  {
  }

  /** A closing tag found after an opening tag lies behind the whole of it. */
  lemma CloseBehindOpen(s: string, end: int)
    requires At(s, OPEN, 0) && At(s, CLOSE, end)
    ensures end >= |OPEN|
  {
    TagShape();
    CharAt(s, CLOSE, end, 0);
    CharAt(s, CLOSE, end, 1);
    CharAt(s, OPEN, 0, 1);
    if 0 < end < 7 {
      CharAt(s, OPEN, 0, end);
    }
  }

  /** One full pass of the loop: cut the first block, tags included. At least 15 characters go. */
  function CutBlock(s: string, start: int, end: int): (t: string)
    requires At(s, OPEN, start) && At(s[start..], CLOSE, end)
    ensures |t| + |OPEN| + |CLOSE| <= |s|
  {
    assert At(s[start..], OPEN, 0);
    CloseBehindOpen(s[start..], end);
    s[..start] + s[start + end + |CLOSE|..]
  }

  /** The loop that removes think blocks, until no opening tag is left; an unclosed block is cut to
      the end. */
  function StripThink(s: string): (t: string)
    ensures !Contains(t, OPEN)
    decreases |s|
  {
    var start := Index(s, OPEN);
    if start < 0 then s
    else
      var end := Index(s[start..], CLOSE);
      if end < 0 then
        assert forall j :: At(s[..start], OPEN, j) ==> At(s, OPEN, j);
        s[..start]
      else StripThink(CutBlock(s, start, end))
  }

  /** The three prefixes of a fence are tried one after the other. */
  function AfterFence(s: string): string {
    TrimPrefix(TrimPrefix(TrimPrefix(s, "```json"), "```JSON"), FENCE)
  }

  /** What stands before the last fence. */
  function BeforeFence(a: string): string {
    var i := LastIndex(a, FENCE);
    if i >= 0 then a[..i] else a
  }

  /** Removal of the code fence. */
  function Unfence(s: string): string {
    if HasPrefix(s, FENCE) then TrimSpace(BeforeFence(AfterFence(s))) else s
  }

  function StripFences(s: string): string { Unfence(TrimSpace(StripThink(TrimSpace(s)))) }

  /** From the first opening to the last closing brace. */
  function Braces(s: string): string {
    var i := Index(s, "{");
    var j := LastIndex(s, "}");
    if i >= 0 && j > i then s[i..j + 1] else s
  }

  /** The text handed to the JSON decoder. */
  function Slice(content: string): string { Braces(StripFences(content)) }

  lemma ContainsSub(s: string, lo: nat, hi: nat, pat: string)
    requires lo <= hi <= |s| && !Contains(s, pat)
    ensures !Contains(s[lo..hi], pat)
  {
    forall i | 0 <= i <= hi - lo ensures At(s[lo..hi], pat, i) ==> At(s, pat, lo + i) {
    }
  }

  lemma TrimIsSub(s: string) returns (lo: nat, hi: nat)
    ensures lo <= hi <= |s| && TrimSpace(s) == s[lo..hi]
  {
    var l := TrimLeft(s);
    lo := |s| - |l|;
    hi := lo + |TrimSpace(s)|;
    assert TrimSpace(s) == l[..|TrimSpace(s)|];
  }

  lemma TrimKeepsOut(s: string, pat: string)
    requires !Contains(s, pat)
    ensures !Contains(TrimSpace(s), pat)
  {
    var lo, hi := TrimIsSub(s);
    ContainsSub(s, lo, hi, pat);
  }

  lemma TrimPrefixKeepsOut(s: string, p: string, pat: string)
    requires !Contains(s, pat)
    ensures !Contains(TrimPrefix(s, p), pat)
  {
    if p <= s {
      ContainsSub(s, |p|, |s|, pat);
      assert s[|p|..] == s[|p|..|s|];
    }
  }

  lemma UnfenceKeepsOut(u: string, pat: string)
    requires !Contains(u, pat)
    ensures !Contains(Unfence(u), pat)
  {
    TrimPrefixKeepsOut(u, "```json", pat);
    var a := TrimPrefix(u, "```json");
    TrimPrefixKeepsOut(a, "```JSON", pat);
    var b := TrimPrefix(a, "```JSON");
    TrimPrefixKeepsOut(b, FENCE, pat);
    var c := AfterFence(u);
    var i := LastIndex(c, FENCE);
    if i >= 0 {
      ContainsSub(c, 0, i, pat);
      assert c[0..i] == c[..i];
    }
    TrimKeepsOut(BeforeFence(c), pat);
  }

  lemma BracesKeepOut(s: string, pat: string)
    requires !Contains(s, pat)
    ensures !Contains(Braces(s), pat)
  {
    var i, j := Index(s, "{"), LastIndex(s, "}");
    if i >= 0 && j > i {
      ContainsSub(s, i, j + 1, pat);
    }
  }

  /** No reply leaves `<think>` in the cleaned text, even when cutting a block forms a new tag. */
  lemma NoThinkLeft(s: string)
    ensures !Contains(StripFences(s), OPEN)
    ensures !Contains(Slice(s), OPEN)
  {
    var t := StripThink(TrimSpace(s));
    TrimKeepsOut(t, OPEN);
    UnfenceKeepsOut(TrimSpace(t), OPEN);
    BracesKeepOut(StripFences(s), OPEN);
  }

  /** `stripFences`, as the loop of the source. */
  method StripFencesLoop(input: string) returns (s: string)
    ensures s == StripFences(input)
    ensures !Contains(s, OPEN)
  {
    hide TrimSpace, Contains, Index, LastIndex, IsSpace;
    NoThinkLeft(input);
    s := TrimSpace(input);
    ghost var passes := 0;
    while true
      invariant StripThink(s) == StripThink(TrimSpace(input))
      invariant |s| + 15 * passes <= |TrimSpace(input)|
      decreases |s|
    {
      var start := Index(s, OPEN);
      if start < 0 { break; }
      var end := Index(s[start..], CLOSE);
      if end < 0 {
        s := s[..start];
        break;
      }
      s := CutBlock(s, start, end);
      passes := passes + 1;
    }
    assert s == StripThink(TrimSpace(input));
    s := TrimSpace(s);
    if HasPrefix(s, FENCE) {
      s := UnfenceText(s);
    }
  }

  /** The fence part of `stripFences`: it gives back the body of every fence. */
  method UnfenceText(text: string) returns (s: string)
    requires HasPrefix(text, FENCE)
    ensures forall w, body :: WrapperOk(w) && IsBody(body) && text == Wrap(w, body) ==> s == body
    ensures s == Unfence(text)
  {
    hide TrimSpace;
    s := TrimPrefix(text, "```json");
    s := TrimPrefix(s, "```JSON");
    s := TrimPrefix(s, FENCE);
    var i := LastIndex(s, FENCE);
    if i >= 0 {
      s := s[..i];
    }
    s := TrimSpace(s);
    forall w, body | WrapperOk(w) && IsBody(body) && text == Wrap(w, body) ensures s == body {
      UnfenceWrap(w, body);
    }
  }

  // ---- wrapped replies ----

  /** One think block with the white space before it. */
  datatype Block = Block(space: string, inner: string)

  ghost predicate BlockOk(b: Block) { AllSpace(b.space) && !Contains(b.inner, CLOSE) }

  function Blocks(bs: seq<Block>): string {
    if bs == [] then "" else bs[0].space + OPEN + bs[0].inner + CLOSE + Blocks(bs[1..])
  }

  function Spaces(bs: seq<Block>): string {
    if bs == [] then "" else bs[0].space + Spaces(bs[1..])
  }

  /** A text without `<` cannot take part in an occurrence of a tag that follows it. */
  lemma TagStartsLater(p: string, s: string, tag: string, i: int)
    requires '<' !in p && tag != [] && tag[0] == '<' && At(p + s, tag, i)
    ensures i >= |p| && At(s, tag, i - |p|)
  {
    CharAt(p + s, tag, i, 0);
    TailOccurrence(p, s, tag, i);
  }

  /** An occurrence behind `p` is one in what follows `p`. */
  lemma TailOccurrence(p: string, s: string, tag: string, i: int)
    requires At(p + s, tag, i) && i >= |p|
    ensures At(s, tag, i - |p|)
  {
    forall k | 0 <= k < |tag| ensures s[i - |p| + k] == tag[k] {
      CharAt(p + s, tag, i, k);
    }
  }

  /** An occurrence that starts in `y` does not reach into `z` when the tag cannot go on with the
      first character of `z`. */
  lemma TagEndsEarlier(y: string, z: string, tag: string, i: int)
    requires At(y + z, tag, i) && i < |y| && z != []
    requires forall k :: 0 < k < |tag| ==> tag[k] != z[0]
    ensures At(y, tag, i)
  {
    if |y| - i < |tag| {
      CharAt(y + z, tag, i, |y| - i);
    }
    forall k | 0 <= k < |tag| ensures y[i + k] == tag[k] {
      CharAt(y + z, tag, i, k);
    }
  }

  lemma SpaceHasNoTag(p: string)
    requires AllSpace(p)
    ensures '<' !in p && '{' !in p && '}' !in p && '`' !in p
  {
  }

  /** The first `</think>` after an opening tag is the one that closes a block without an inner one. */
  lemma FirstClose(inner: string, rest: string)
    requires !Contains(inner, CLOSE)
    ensures Index(OPEN + inner + CLOSE + rest, CLOSE) == |OPEN| + |inner|
  {
    var y, z := OPEN + inner, CLOSE + rest;
    var s := OPEN + inner + CLOSE + rest;
    assert s == y + z;
    TagShape();
    assert At(s, OPEN, 0);
    assert At(s, CLOSE, |y|);
    forall i | i < |y| ensures !At(s, CLOSE, i)
    {
      if At(s, CLOSE, i) {
        CloseBehindOpen(s, i);
        TagEndsEarlier(y, z, CLOSE, i);
        TailOccurrence(OPEN, inner, CLOSE, i);
      }
    }
  }

  /** A text without `<` in front adds no opening tag. */
  lemma PrefixAddsNoTag(p: string, s: string)
    requires '<' !in p && !Contains(s, OPEN)
    ensures !Contains(p + s, OPEN)
  {
    forall i ensures !At(p + s, OPEN, i) {
      if At(p + s, OPEN, i) { TagStartsLater(p, s, OPEN, i); }
    }
  }

  /** One pass takes the first block out and leaves the text before and after it. */
  lemma StripOneBlock(q: string, inner: string, after: string)
    requires '<' !in q && !Contains(inner, CLOSE)
    ensures StripThink(q + (OPEN + inner + CLOSE + after)) == StripThink(q + after)
  {
    var t := OPEN + inner + CLOSE + after;
    var s := q + t;
    assert At(s, OPEN, |q|);
    forall i | i < |q| ensures !At(s, OPEN, i) {
      if At(s, OPEN, i) { TagStartsLater(q, t, OPEN, i); }
    }
    assert Index(s, OPEN) == |q|;
    assert s[|q|..] == t;
    FirstClose(inner, after);
    var end := |OPEN| + |inner|;
    assert CutBlock(s, |q|, end) == q + after;
  }

  lemma Regroup(p: string, a: string, o: string, i: string, c: string, b: string, t: string)
    ensures p + (a + o + i + c + b + t) == (p + a) + (o + i + c + (b + t))
  {
  }

  lemma RegroupSpace(p: string, a: string, b: string, t: string)
    requires AllSpace(p) && AllSpace(a)
    ensures AllSpace(p + a)
    ensures (p + a) + (b + t) == p + (a + b + t)
  {
  }

  lemma {:induction false} StripBlocks(p: string, bs: seq<Block>, tail: string)
    requires AllSpace(p) && !Contains(tail, OPEN)
    requires forall b :: b in bs ==> BlockOk(b)
    ensures StripThink(p + (Blocks(bs) + tail)) == p + (Spaces(bs) + tail)
    decreases |bs|
  {
    if bs == [] {
      SpaceHasNoTag(p);
      PrefixAddsNoTag(p, tail);
      assert Blocks(bs) + tail == tail && Spaces(bs) + tail == tail;
    } else {
      var b, rest := bs[0], bs[1..];
      assert BlockOk(b);
      Regroup(p, b.space, OPEN, b.inner, CLOSE, Blocks(rest), tail);
      RegroupSpace(p, b.space, Spaces(rest), tail);
      SpaceHasNoTag(p + b.space);
      StripOneBlock(p + b.space, b.inner, Blocks(rest) + tail);
      StripBlocks(p + b.space, rest, tail);
    }
  }

  lemma {:induction false} SpacesAreSpace(bs: seq<Block>)
    requires forall b :: b in bs ==> BlockOk(b)
    ensures AllSpace(Spaces(bs))
  {
    if bs != [] {
      assert BlockOk(bs[0]);
      SpacesAreSpace(bs[1..]);
    }
  }

  /** The optional fence around the body. */
  datatype Wrapper = Bare | Fenced(tag: string, before: string, after: string)

  predicate WrapperOk(w: Wrapper) {
    match w
    case Bare => true
    case Fenced(tag, before, after) => tag in {"json", "JSON", ""} && AllSpace(before) && AllSpace(after)
  }

  function Wrap(w: Wrapper, body: string): string {
    match w
    case Bare => body
    case Fenced(tag, before, after) => FENCE + tag + before + body + after + FENCE
  }

  predicate IsBody(body: string) {
    |body| >= 2 && body[0] == '{' && body[|body| - 1] == '}'
  }

  lemma WrapHasNoTag(w: Wrapper, body: string)
    requires WrapperOk(w) && IsBody(body) && !Contains(body, OPEN)
    ensures !Contains(Wrap(w, body), OPEN)
  {
    if w.Fenced? {
      var x, z := FENCE + w.tag + w.before, w.after + FENCE;
      SpaceHasNoTag(w.before);
      assert '<' !in x;
      FenceIsForeign(w.after);
      assert Wrap(w, body) == x + (body + z);
      forall i ensures !At(x + (body + z), OPEN, i) {
        if At(x + (body + z), OPEN, i) {
          TagStartsLater(x, body + z, OPEN, i);
          NotBehindBody(body, z, i - |x|);
        }
      }
    }
  }

  /** What closes a fence cannot continue an opening tag, nor hold its start. */
  lemma FenceIsForeign(after: string)
    requires AllSpace(after)
    ensures '<' !in after + FENCE
    ensures forall k :: 0 < k < |OPEN| ==> OPEN[k] != (after + FENCE)[0]
  {
    assert (after + FENCE)[0] == if after == [] then '`' else after[0];
    SpaceHasNoTag(after);
    assert forall k :: 0 < k < |OPEN| ==> !IsSpace(OPEN[k]) && OPEN[k] != '`';
  }

  lemma NotBehindBody(body: string, z: string, i: int)
    requires !Contains(body, OPEN) && z != [] && '<' !in z
    requires forall k :: 0 < k < |OPEN| ==> OPEN[k] != z[0]
    ensures !At(body + z, OPEN, i)
  {
    TagShape();
    if At(body + z, OPEN, i) {
      CharAt(body + z, OPEN, i, 0);
      TagEndsEarlier(body, z, OPEN, i);
    }
  }

  /** The three prefixes are tried one after the other, but a body does not start like a fence. */
  lemma TrimFenceOpen(tag: string, a: string)
    requires tag in {"json", "JSON", ""} && a != [] && a[0] !in {'`', 'j', 'J'}
    ensures AfterFence(FENCE + tag + a) == a
  {
    var s := FENCE + tag + a;
    if tag == "json" {
      assert s[..7] == "```json" && s[7..] == a;
    } else if tag == "JSON" {
      assert s[3] == 'J' && "```json"[3] == 'j';
      assert s[..7] == "```JSON" && s[7..] == a;
    } else {
      assert s[3] == a[0] && "```json"[3] == 'j' && "```JSON"[3] == 'J';
      assert s[..3] == FENCE && s[3..] == a;
    }
  }

  lemma UnfenceWrap(w: Wrapper, body: string)
    requires WrapperOk(w) && IsBody(body)
    ensures Unfence(Wrap(w, body)) == body
  {
    if w.Bare? {
      assert FENCE[0] != body[0];
    } else {
      var m := w.before + body + w.after;
      FencedParts(w.tag, w.before, body, w.after);
      LastFence(m);
      TrimSpaceExact(w.before, body, w.after);
    }
  }

  lemma FencedParts(tag: string, before: string, body: string, after: string)
    requires WrapperOk(Fenced(tag, before, after)) && IsBody(body)
    ensures HasPrefix(Wrap(Fenced(tag, before, after), body), FENCE)
    ensures AfterFence(Wrap(Fenced(tag, before, after), body)) == before + body + after + FENCE
  {
    var a := before + body + after + FENCE;
    assert a[0] == if before == [] then '{' else before[0];
    TrimFenceOpen(tag, a);
    RegroupFence(FENCE, tag, before, body, after);
    FenceInFront(tag + a);
  }

  lemma RegroupFence(f: string, tag: string, before: string, body: string, after: string)
    ensures f + tag + before + body + after + f == f + tag + (before + body + after + f)
    ensures f + tag + before + body + after + f == f + (tag + (before + body + after + f))
  {
  }

  lemma FenceInFront(s: string)
    ensures HasPrefix(FENCE + s, FENCE)
  {
  }

  lemma LastFence(m: string)
    ensures BeforeFence(m + FENCE) == m
  {
    assert At(m + FENCE, FENCE, |m|);
  }

  lemma BracesOfBody(body: string)
    requires IsBody(body)
    ensures Braces(body) == body
  {
    assert At(body, "{", 0);
    assert At(body, "}", |body| - 1);
  }

  /** The whole reply: think blocks, white space, the wrapped body, white space. */
  function Reply(bs: seq<Block>, space: string, w: Wrapper, body: string, trail: string): string {
    Blocks(bs) + space + Wrap(w, body) + trail
  }

  /** Every JSON object body free of `<think>` comes back unchanged from every such wrapping, also
      when the body itself holds triple backticks or the blocks hold further opening tags. */
  lemma SliceUnwraps(bs: seq<Block>, space: string, w: Wrapper, body: string, trail: string)
    requires forall b :: b in bs ==> BlockOk(b)
    requires AllSpace(space) && AllSpace(trail) && WrapperOk(w)
    requires IsBody(body) && !Contains(body, OPEN)
    ensures Slice(Reply(bs, space, w, body, trail)) == body
  {
    var core := Wrap(w, body);
    WrapEnds(w, body);
    WrapHasNoTag(w, body);
    var lead := StripReply(bs, space, core, trail);
    TrimLead(lead, core);
    UnfenceWrap(w, body);
    BracesOfBody(body);
  }

  lemma TrimLead(lead: string, core: string)
    requires AllSpace(lead) && core != [] && !IsSpace(core[0]) && !IsSpace(core[|core| - 1])
    ensures TrimSpace(lead + core) == core
  {
    assert lead + core + [] == lead + core;
    TrimSpaceExact(lead, core, []);
  }

  lemma WrapEnds(w: Wrapper, body: string)
    requires WrapperOk(w) && IsBody(body)
    ensures Wrap(w, body) != []
    ensures !IsSpace(Wrap(w, body)[0]) && !IsSpace(Wrap(w, body)[|Wrap(w, body)| - 1])
  {
  }

  /** Trimming and the loop leave white space before a text that holds no opening tag. */
  lemma StripReply(bs: seq<Block>, space: string, core: string, trail: string) returns (lead: string)
    requires forall b :: b in bs ==> BlockOk(b)
    requires AllSpace(space) && AllSpace(trail) && !Contains(core, OPEN)
    requires core != [] && !IsSpace(core[0]) && !IsSpace(core[|core| - 1])
    ensures AllSpace(lead)
    ensures StripThink(TrimSpace(Blocks(bs) + space + core + trail)) == lead + core
  {
    if bs == [] {
      assert Blocks(bs) + space + core + trail == space + core + trail;
      TrimSpaceExact(space, core, trail);
      lead := [];
    } else {
      var cs := [bs[0].(space := "")] + bs[1..];
      FrontOk(bs, cs);
      TrimReply(bs, cs, space, core, trail);
      lead := StripTrimmed(cs, space, core);
    }
  }

  lemma StripTrimmed(cs: seq<Block>, space: string, core: string) returns (lead: string)
    requires forall b :: b in cs ==> BlockOk(b)
    requires AllSpace(space) && !Contains(core, OPEN)
    ensures AllSpace(lead)
    ensures StripThink(Blocks(cs) + (space + core)) == lead + core
  {
    SpaceHasNoTag(space);
    PrefixAddsNoTag(space, core);
    StripBlocks([], cs, space + core);
    SpacesAreSpace(cs);
    RegroupSpace(Spaces(cs), space, core, []);
    lead := Spaces(cs) + space;
    RegroupStripped(Blocks(cs) + (space + core), Spaces(cs), space, core);
  }

  lemma FrontOk(bs: seq<Block>, cs: seq<Block>)
    requires bs != [] && cs == [bs[0].(space := "")] + bs[1..]
    requires forall b :: b in bs ==> BlockOk(b)
    ensures BlockOk(bs[0])
    ensures forall b :: b in cs ==> BlockOk(b)
  {
  }

  lemma TrimReply(bs: seq<Block>, cs: seq<Block>, space: string, core: string, trail: string)
    requires bs != [] && cs == [bs[0].(space := "")] + bs[1..] && BlockOk(bs[0])
    requires AllSpace(trail) && core != [] && !IsSpace(core[|core| - 1])
    ensures TrimSpace(Blocks(bs) + space + core + trail) == Blocks(cs) + (space + core)
  {
    BlocksFront(bs, cs);
    RegroupReply(bs[0].space, Blocks(cs), space, core, trail);
    TrimSpaceExact(bs[0].space, Blocks(cs) + (space + core), trail);
  }

  lemma RegroupReply(front: string, blocks: string, space: string, core: string, trail: string)
    requires core != [] && blocks != []
    ensures front + blocks + space + core + trail == front + (blocks + (space + core)) + trail
    ensures var t := blocks + (space + core); t[0] == blocks[0] && t[|t| - 1] == core[|core| - 1]
  {
  }

  lemma RegroupStripped(t: string, spaces: string, space: string, core: string)
    ensures [] + t == t
    ensures [] + (spaces + (space + core)) == spaces + space + core
  {
  }

  lemma BlocksFront(bs: seq<Block>, cs: seq<Block>)
    requires bs != [] && cs == [bs[0].(space := "")] + bs[1..]
    ensures Blocks(bs) == bs[0].space + Blocks(cs)
    ensures Blocks(cs) != [] && Blocks(cs)[0] == '<'
  {
    assert cs[1..] == bs[1..];
    var inner, rest := bs[0].inner, Blocks(bs[1..]);
    assert Blocks(cs) == "" + OPEN + inner + CLOSE + rest;
    Regroup5(bs[0].space, OPEN, inner, CLOSE, rest);
  }

  lemma Regroup5(p: string, o: string, i: string, c: string, r: string)
    requires o != []
    ensures p + o + i + c + r == p + ("" + o + i + c + r)
    ensures ("" + o + i + c + r)[0] == o[0]
  {
  }
}
