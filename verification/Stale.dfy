/** The other half of freshness: whenever a request loses the cache write of what it holds while another response is
    served, one more plain request, with nothing failing any more, is answered stale. */
module Stale {
  import opened Text
  import opened Domain
  import opened Identity
  import opened RedisModel
  import opened Keys
  import opened Protocol
  import opened Provenance
  import opened Freshness
  import Outcomes
  import Refresh
  import Store

  // ---- adding a step to a run ----

  lemma Extend(cfg: Config, evs: seq<Event>, w: World, e: Event, d: string, h: Digest, k: int)
    requires Reaches(cfg, evs, w) && Enabled(w, e) && OrderlyBut(cfg, evs, d, h, k)
    requires InTurn(cfg, w, e, d, h) && (|evs| != k ==> !Spoils(cfg, w, e, d, h))
    ensures Reaches(cfg, evs + [e], Next(cfg, w, e)) && OrderlyBut(cfg, evs + [e], d, h, k)
  {
    hide Next, Exec, InTurn, Spoils;
    ExecMore(cfg, START, evs, w, e);
    assert (evs + [e])[..|evs|] == evs;
  }

  /** Facts after `n` are no extractor calls. */
  ghost predicate Quiet(a: seq<Fact>, b: seq<Fact>) { a <= b && forall k :: |a| <= k < |b| ==> !b[k].Called? }

  lemma QuietOn(a: seq<Fact>, b: seq<Fact>, c: seq<Fact>)
    requires Quiet(a, b) && Quiet(b, c)
    ensures Quiet(a, c)
  {
    assert forall k :: 0 <= k < |b| ==> c[k] == b[k];
  }

  lemma QuietSays(cfg: Config, a: seq<Fact>, b: seq<Fact>, d: string, h: string, x: Response)
    requires Quiet(a, b) && LatestSays(cfg, a, d, h, x)
    ensures LatestSays(cfg, b, d, h, x)
  {
    LatestStays(cfg, a, b, d, h, x);
  }

  /** There is one latest extraction. */
  lemma LatestUnique(cfg: Config, log: seq<Fact>, d: string, h: string, x: Response, y: Response)
    requires LatestSays(cfg, log, d, h, x) && LatestSays(cfg, log, d, h, y)
    ensures x == y
  {
    hide ToResponse;
    var i :| 0 <= i < |log| && IsCall(cfg, log[i], d, h) && ToResponse(log[i].out.value) == x
      && forall k :: i < k < |log| ==> !IsCall(cfg, log[k], d, h);
    var j :| 0 <= j < |log| && IsCall(cfg, log[j], d, h) && ToResponse(log[j].out.value) == y
      && forall k :: j < k < |log| ==> !IsCall(cfg, log[k], d, h);
    assert i == j;
  }

  // ---- single steps ----

  /** Only this session, the log, the table and the number of the next request can differ. */
  predicate SameElsewhere(w: World, w': World, id: nat, s: Session) {
    w'.active == w.active[id := s] && w'.now == w.now
  }

  lemma LossStep(cfg: Config, w: World, id: nat, how: How)
    requires Enabled(w, Act(id, how)) && LosesWrite(cfg, w.active[id].pc, how)
    ensures var s, w' := w.active[id], Next(cfg, w, Act(id, how));
            && SameElsewhere(w, w', id, Session(s.req, Replying(s.pc.result))) && w'.next == w.next
            && w'.redis == w.redis && Quiet(w.log, w'.log)
  {
    hide TxOf, Store.Commit, CacheKeyOf;
  }

  lemma ReplyNow(cfg: Config, w: World, id: nat)
    requires id in w.active && w.active[id].pc.Replying?
    ensures var s, w' := w.active[id], Next(cfg, w, Act(id, Ok));
            && w'.active == w.active - {id} && w'.now == w.now && w'.next == w.next && w'.redis == w.redis
            && w'.log == w.log + [Replied(id, DocTypeOf(s.req), s.req.content, s.pc.result)]
  {
    hide DocTypeOf;
  }

  lemma ArriveNow(cfg: Config, w: World, req: Request)
    requires Admissible(cfg, req, true)
    ensures var w' := Next(cfg, w, Arrive(req, true));
            SameElsewhere(w, w', w.next, Session(req, Consenting)) && w'.redis == w.redis && w'.log == w.log
  {
    hide Admissible;
  }

  lemma ConsentNow(cfg: Config, w: World, id: nat)
    requires id in w.active && w.active[id].pc.Consenting? && !Refreshes(cfg, w.active[id].req)
    ensures var w' := Next(cfg, w, Act(id, Ok));
            && SameElsewhere(w, w', id, Session(w.active[id].req, Looking))
            && w'.redis == w.redis && Quiet(w.log, w'.log)
  {
    hide Refreshes, ConsentOf;
  }

  lemma HitNow(cfg: Config, w: World, id: nat, r: Result)
    requires id in w.active && w.active[id].pc.Looking? && cfg.hasCache
    requires Served(w.redis, w.now, CacheKeyOf(cfg, w.active[id].req), r)
    ensures var req, w' := w.active[id].req, Next(cfg, w, Act(id, Ok));
            && SameElsewhere(w, w', id, Session(req, Committing(Stamp(r, cfg.sha(req.content), "hit"), false)))
            && w'.log == w.log
  {
    hide CacheKeyOf;
  }

  lemma CommitNow(cfg: Config, w: World, id: nat)
    requires id in w.active && w.active[id].pc.Committing?
    ensures var s, w' := w.active[id], Next(cfg, w, Act(id, Ok));
            SameElsewhere(w, w', id, Session(s.req, Caching(s.pc.result))) && Quiet(w.log, w'.log)
  {
    hide TxOf, Store.Commit;
  }

  lemma CacheNow(cfg: Config, w: World, id: nat)
    requires id in w.active && w.active[id].pc.Caching?
    ensures var s, w' := w.active[id], Next(cfg, w, Act(id, Ok));
            SameElsewhere(w, w', id, Session(s.req, Replying(s.pc.result))) && w'.log == w.log
  {
    hide CacheKeyOf;
  }

  // ---- a plain request that finds the entry ----

  /** A step at which nothing can be lost. */
  lemma Harmless(cfg: Config, w: World, id: nat, how: How, d: string, h: Digest)
    requires id in w.active && !LosesWrite(cfg, w.active[id].pc, how)
    ensures InTurn(cfg, w, Act(id, how), d, h) && !Spoils(cfg, w, Act(id, how), d, h)
  {
  }

  /** What follows the loss: the answer, and a plain request under number `n` with every step working. */
  function Aftermath(id: nat, n: nat, req: Request): seq<Event> {
    [Act(id, Ok), Arrive(req, true), Act(n, Ok), Act(n, Ok), Act(n, Ok), Act(n, Ok), Act(n, Ok)]
  }

  lemma Answered(cfg: Config, evs: seq<Event>, w: World, n: nat, r: Result, d: string, h: Digest, k: int)
    returns (w': World)
    requires Reaches(cfg, evs, w) && OrderlyBut(cfg, evs, d, h, k) && k < |evs|
    requires n in w.active && w.active[n].pc.Consenting? && !Refreshes(cfg, w.active[n].req) && cfg.hasCache
    requires Served(w.redis, w.now, CacheKeyOf(cfg, w.active[n].req), r)
    ensures var more := [Act(n, Ok), Act(n, Ok), Act(n, Ok), Act(n, Ok), Act(n, Ok)];
            Reaches(cfg, evs + more, w') && OrderlyBut(cfg, evs + more, d, h, k)
    ensures var req := w.active[n].req;
            && |w'.log| > |w.log| && Quiet(w.log, w'.log[..|w'.log| - 1])
            && w'.log[|w'.log| - 1] == Replied(n, DocTypeOf(req), req.content, Stamp(r, cfg.sha(req.content), "hit"))
  {
    hide Next, Exec, Refreshes, DocTypeOf, CacheKeyOf, Served, InTurn, Spoils, OrderlyBut;
    var req, e := w.active[n].req, Act(n, Ok);
    ConsentNow(cfg, w, n);
    Harmless(cfg, w, n, Ok, d, h);
    Extend(cfg, evs, w, e, d, h, k);
    var w1, evs1 := Next(cfg, w, e), evs + [e];
    HitNow(cfg, w1, n, r);
    Harmless(cfg, w1, n, Ok, d, h);
    Extend(cfg, evs1, w1, e, d, h, k);
    var w2, evs2 := Next(cfg, w1, e), evs1 + [e];
    CommitNow(cfg, w2, n);
    Harmless(cfg, w2, n, Ok, d, h);
    Extend(cfg, evs2, w2, e, d, h, k);
    var w3, evs3 := Next(cfg, w2, e), evs2 + [e];
    CacheNow(cfg, w3, n);
    Harmless(cfg, w3, n, Ok, d, h);
    Extend(cfg, evs3, w3, e, d, h, k);
    var w4, evs4 := Next(cfg, w3, e), evs3 + [e];
    ReplyNow(cfg, w4, n);
    Harmless(cfg, w4, n, Ok, d, h);
    Extend(cfg, evs4, w4, e, d, h, k);
    w' := Next(cfg, w4, e);
    assert evs4 + [e] == evs + [e, e, e, e, e];
    QuietOn(w.log, w1.log, w3.log);
    assert w'.log[..|w'.log| - 1] == w3.log;
  }

  /** A plain form of a request that was let in is let in. */
  lemma PlainIsAdmissible(cfg: Config, s: Session)
    requires Refresh.AsAsked(cfg, s)
    ensures var p := s.req.(refreshParam := "");
            && Admissible(cfg, p, true) && !Refreshes(cfg, p)
            && DocTypeOf(p) == DocTypeOf(s.req) && p.content == s.req.content
  {
    hide ConsentAccepted, TrimSpace;
    TrimSpaceOfTrimmed("");
    assert Lower(cfg.lower, "") == "";
  }

  lemma {:induction false} OrderlyExempt(cfg: Config, evs: seq<Event>, d: string, h: Digest, k: int)
    requires Orderly(cfg, evs, d, h)
    ensures OrderlyBut(cfg, evs, d, h, k)
    decreases |evs|
  {
    hide Exec, InTurn, Spoils;
    if evs != [] {
      OrderlyExempt(cfg, evs[..|evs| - 1], d, h, k);
    }
  }

  /** The request for the key, its loss, its answer: then no request for the key is being handled. */
  lemma LossAndReply(cfg: Config, evs: seq<Event>, w: World, e: Event, d: string, h: Digest) returns (w': World)
    requires Reaches(cfg, evs, w) && Orderly(cfg, evs, d, h) && Enabled(w, e) && Spoils(cfg, w, e, d, h)
    requires Alone(cfg, w, d, h)
    ensures Reaches(cfg, evs + [e] + [Act(e.id, Ok)], w') && OrderlyBut(cfg, evs + [e] + [Act(e.id, Ok)], d, h, |evs|)
    ensures w'.now == w.now && w'.redis == w.redis && w'.next == w.next
    ensures Quiet(w.log, w'.log) && NoneFor(cfg, w', d, h)
  {
    hide Next, Exec, DocTypeOf, Served, OrderlyBut, CacheKey, ToResponse;
    var id := e.id;
    OrderlyExempt(cfg, evs, d, h, |evs|);
    LossStep(cfg, w, id, e.how);
    Extend(cfg, evs, w, e, d, h, |evs|);
    var w1 := Next(cfg, w, e);
    ReplyNow(cfg, w1, id);
    Harmless(cfg, w1, id, Ok, d, h);
    Extend(cfg, evs + [e], w1, Act(id, Ok), d, h, |evs|);
    w' := Next(cfg, w1, Act(id, Ok));
    QuietOn(w.log, w1.log, w'.log);
  }

  /** The last thing logged is an answer for the key that is not its latest extraction. */
  ghost predicate EndsStale(cfg: Config, log: seq<Fact>, d: string, h: Digest) {
    log != [] && IsReplyFor(cfg, log[|log| - 1], d, h) && !IsFresh(cfg, log, |log| - 1)
  }

  /** Whenever an orderly run comes to a step that loses a cache write while another response is served, its request is
      answered and then one more plain request for the same document, with nothing failing, is answered stale. */
  lemma LossGoesStale(cfg: Config, evs: seq<Event>, w: World, id: nat, how: How, d: string, h: Digest)
    returns (more: seq<Event>, w': World)
    requires Reaches(cfg, evs, w) && Orderly(cfg, evs, d, h) && Enabled(w, Act(id, how)) && id in w.active
    requires Spoils(cfg, w, Act(id, how), d, h)
    ensures more == Aftermath(id, w.next, w.active[id].req.(refreshParam := ""))
    ensures Reaches(cfg, evs + [Act(id, how)] + more, w')
    ensures OrderlyBut(cfg, evs + [Act(id, how)] + more, d, h, |evs|)
    ensures EndsStale(cfg, w'.log, d, h)
  {
    hide Next, Exec, DocTypeOf, Served, OrderlyBut, CacheKey, Refresh.AsAsked, Admissible, Refreshes, LatestSays,
      CacheFresh;
    var s, e := w.active[id], Act(id, how);
    Freshness.InvHolds(cfg, evs, w, d, h);
    Refresh.AllAsAsked(cfg, evs, w, id);
    PlainIsAdmissible(cfg, s);
    var p, n := s.req.(refreshParam := ""), w.next;
    var r :| Served(w.redis, w.now, CacheKey(d, h), r) && ToResponse(r) != ToResponse(s.pc.result);
    ServedHasCache(cfg, w, d, h, r);
    var w2 := LossAndReply(cfg, evs, w, e, d, h);
    var evs2 := evs + [e] + [Act(id, Ok)];
    ArriveNow(cfg, w2, p);
    var a := Arrive(p, true);
    Extend(cfg, evs2, w2, a, d, h, |evs|);
    var w3, evs3 := Next(cfg, w2, a), evs2 + [a];
    w' := Answered(cfg, evs3, w3, n, r, d, h, |evs|);
    more := Aftermath(id, n, p);
    assert evs3 + [Act(n, Ok), Act(n, Ok), Act(n, Ok), Act(n, Ok), Act(n, Ok)] == evs + [e] + more;
    StaleAt(cfg, w.log, w3.log, w'.log, s, d, h, r);
  }

  lemma ServedHasCache(cfg: Config, w: World, d: string, h: Digest, r: Result)
    requires CacheFresh(cfg, w, d, h) && Served(w.redis, w.now, CacheKey(d, h), r)
    ensures cfg.hasCache
  {
    hide Pending, LatestSays, CacheKey, Served;
  }

  lemma StaleAt(cfg: Config, a: seq<Fact>, b: seq<Fact>, c: seq<Fact>, s: Session, d: string, h: Digest, r: Result)
    requires Holds(s.pc) && HolderFresh(cfg, a, s) && IsFor(cfg, s.req, d, h) && Quiet(a, b) && |c| > |b|
    requires Quiet(b, c[..|c| - 1]) && IsReplyFor(cfg, c[|c| - 1], d, h)
    requires ToResponse(c[|c| - 1].result) == ToResponse(r) != ToResponse(s.pc.result)
    ensures !IsFresh(cfg, c, |c| - 1)
  {
    hide ToResponse, DocTypeOf, LatestSays;
    var log := c[..|c| - 1];
    QuietOn(a, b, log);
    QuietSays(cfg, a, log, d, h, ToResponse(s.pc.result));
    if LatestSays(cfg, log, d, h, ToResponse(r)) {
      LatestUnique(cfg, log, d, h, ToResponse(s.pc.result), ToResponse(r));
    }
  }

  // ---- exactly when ----

  ghost predicate HasStale(cfg: Config, w: World, d: string, h: Digest) {
    exists i :: 0 <= i < |w.log| && IsReplyFor(cfg, w.log[i], d, h) && !IsFresh(cfg, w.log, i)
  }

  /** Some continuation, in which no cache write is lost any more while another response is served, answers stale. */
  ghost predicate GoesStale(cfg: Config, evs: seq<Event>, e: Event, d: string, h: Digest) {
    exists more, w' :: Reaches(cfg, evs + [e] + more, w') && OrderlyBut(cfg, evs + [e] + more, d, h, |evs|)
      && HasStale(cfg, w', d, h)
  }

  /** A run that is orderly but for step `k` is orderly if step `k` loses nothing. */
  lemma {:induction false} OrderlyAfterAll(cfg: Config, run: seq<Event>, d: string, h: Digest, k: nat)
    requires OrderlyBut(cfg, run, d, h, k)
    requires k < |run| ==> (var v := Exec(cfg, START, run[..k]); v.Some? ==> !Spoils(cfg, v.value, run[k], d, h))
    ensures Orderly(cfg, run, d, h)
    decreases |run|
  {
    hide Exec, InTurn, Spoils;
    if run != [] {
      var n := |run| - 1;
      assert k < n ==> run[..n][..k] == run[..k] && run[..n][k] == run[k];
      OrderlyAfterAll(cfg, run[..n], d, h, k);
    }
  }

  /** The exact condition. A step of an orderly run loses a cache write while another response is served if and only if
      the run can go on to answer stale without losing any more. */
  lemma LostWriteDecides(cfg: Config, evs: seq<Event>, w: World, e: Event, d: string, h: Digest)
    requires Reaches(cfg, evs, w) && Orderly(cfg, evs, d, h) && Enabled(w, e)
    ensures Spoils(cfg, w, e, d, h) <==> GoesStale(cfg, evs, e, d, h)
  {
    hide Exec, OrderlyBut, Orderly, Spoils, IsFresh, IsReplyFor, Next;
    if Spoils(cfg, w, e, d, h) {
      SpoiledByAct(cfg, w, e, d, h);
      var more, w' := LossGoesStale(cfg, evs, w, e.id, e.how, d, h);
      assert HasStale(cfg, w', d, h);
      assert Reaches(cfg, evs + [e] + more, w');
    } else if GoesStale(cfg, evs, e, d, h) {
      var more, w' :| Reaches(cfg, evs + [e] + more, w') && OrderlyBut(cfg, evs + [e] + more, d, h, |evs|)
        && HasStale(cfg, w', d, h);
      NeverStale(cfg, evs, w, e, more, w', d, h);
    }
  }

  lemma SpoiledByAct(cfg: Config, w: World, e: Event, d: string, h: Digest)
    requires Spoils(cfg, w, e, d, h)
    ensures e.Act? && e.id in w.active
  {
  }

  lemma NeverStale(cfg: Config, evs: seq<Event>, w: World, e: Event, more: seq<Event>, w': World, d: string, h: Digest)
    requires Reaches(cfg, evs, w) && !Spoils(cfg, w, e, d, h)
    requires Reaches(cfg, evs + [e] + more, w') && OrderlyBut(cfg, evs + [e] + more, d, h, |evs|)
    ensures !HasStale(cfg, w', d, h)
  {
    hide Exec, OrderlyBut, Spoils, IsFresh, Next;
    var run := evs + [e] + more;
    assert run[..|evs|] == evs && run[|evs|] == e;
    OrderlyAfterAll(cfg, run, d, h, |evs|);
    forall i | 0 <= i < |w'.log| && IsReplyFor(cfg, w'.log[i], d, h) ensures IsFresh(cfg, w'.log, i) {
      AnswersAreFresh(cfg, run, w', i);
    }
  }
}
