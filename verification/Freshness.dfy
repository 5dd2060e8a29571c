/** Which answers are the latest extraction. The requests for one document type and digest are handled one at a
    time, whatever happens to all other requests; then a 200 answer can go stale in exactly one way: a request loses
    the cache write of what it holds while an entry with another response is still served. */
module Freshness {
  import opened Domain
  import opened Identity
  import opened RedisModel
  import opened Keys
  import opened Protocol
  import opened Provenance
  import Extractor
  import Outcomes
  import Store

  /** The request is for this document type and digest. */
  predicate IsFor(cfg: Config, req: Request, d: string, h: Digest) { DocTypeOf(req) == d && cfg.sha(req.content) == h }

  ghost predicate NoneFor(cfg: Config, w: World, d: string, h: Digest) {
    forall id :: id in w.active ==> !IsFor(cfg, w.active[id].req, d, h)
  }

  /** A GET at this moment would return `r`. */
  predicate Served(m: Keyspace, now: nat, key: string, r: Result) { Live(m, key, now) && m[key].value == Payload(r) }

  /** A request for the key arrives only when no other one for it is being handled. */
  ghost predicate InTurn(cfg: Config, w: World, e: Event, d: string, h: Digest) {
    e.Arrive? && IsFor(cfg, e.req, d, h) ==> NoneFor(cfg, w, d, h)
  }

  /** The step of a request that holds a result leads past the cache write without writing: its transaction fails, or
      is not heard of, or its SET fails. */
  predicate LosesWrite(cfg: Config, pc: Pc, how: How) {
    (pc.Committing? && cfg.hasStore && !how.Ok?) || (pc.Caching? && (!cfg.hasCache || how.Fail?))
  }

  /** A request for the key loses the cache write of what it holds while another response is served. */
  ghost predicate Spoils(cfg: Config, w: World, e: Event, d: string, h: Digest) {
    && e.Act? && e.id in w.active && IsFor(cfg, w.active[e.id].req, d, h) && LosesWrite(cfg, w.active[e.id].pc, e.how)
    && exists r :: Served(w.redis, w.now, CacheKey(d, h), r) && ToResponse(r) != ToResponse(w.active[e.id].pc.result)
  }

  /** The requests for the key come one at a time and none of them, except perhaps in step `k`, loses its cache write
      while another response is served. Reads, deletes, database writes, cache writes, INCR, EXPIRE and extractor calls
      may fail in every other way, keys may expire, be evicted or get spoilt, and requests for other keys may do
      anything. */
  ghost predicate OrderlyBut(cfg: Config, evs: seq<Event>, d: string, h: Digest, k: int) {
    evs == [] ||
    (var n := |evs| - 1;
     && OrderlyBut(cfg, evs[..n], d, h, k)
     && (var v := Exec(cfg, START, evs[..n]);
         v.Some? ==> InTurn(cfg, v.value, evs[n], d, h) && (n != k ==> !Spoils(cfg, v.value, evs[n], d, h))))
  }

  ghost predicate Orderly(cfg: Config, evs: seq<Event>, d: string, h: Digest) { OrderlyBut(cfg, evs, d, h, -1) }

  /** A successful extraction for this type and digest. */
  predicate IsCall(cfg: Config, f: Fact, d: string, h: string) {
    f.Called? && f.out.Some? && f.docType == d && cfg.sha(f.content) == h
  }

  /** The latest successful extraction for the key has this response. */
  ghost predicate LatestSays(cfg: Config, log: seq<Fact>, d: string, h: string, a: Response) {
    exists j :: 0 <= j < |log| && IsCall(cfg, log[j], d, h) && ToResponse(log[j].out.value) == a
      && forall k :: j < k < |log| ==> !IsCall(cfg, log[k], d, h)
  }

  // ---- the invariant ----

  predicate IsReplyFor(cfg: Config, f: Fact, d: string, h: Digest) {
    f.Replied? && f.docType == d && cfg.sha(f.content) == h
  }

  ghost predicate Alone(cfg: Config, w: World, d: string, h: Digest) {
    forall a, b ::
      a in w.active && b in w.active && IsFor(cfg, w.active[a].req, d, h) && IsFor(cfg, w.active[b].req, d, h) ==>
        a == b
  }

  /** A request for the key is between its extraction, or its hit, and its cache write. */
  ghost predicate Pending(cfg: Config, w: World, d: string, h: Digest) {
    exists id :: id in w.active && IsFor(cfg, w.active[id].req, d, h)
      && (w.active[id].pc.Committing? || w.active[id].pc.Caching?)
  }

  ghost predicate HolderFresh(cfg: Config, log: seq<Fact>, s: Session) {
    Holds(s.pc) ==> LatestSays(cfg, log, DocTypeOf(s.req), cfg.sha(s.req.content), ToResponse(s.pc.result))
  }

  ghost predicate CacheFresh(cfg: Config, w: World, d: string, h: Digest) {
    forall r :: Served(w.redis, w.now, CacheKey(d, h), r) ==>
      cfg.hasCache && (Pending(cfg, w, d, h) || LatestSays(cfg, w.log, d, h, ToResponse(r)))
  }

  /** Answer `i` carries the latest successful extraction before it for its document type and digest. */
  ghost predicate IsFresh(cfg: Config, log: seq<Fact>, i: nat)
    requires i < |log| && log[i].Replied?
  {
    LatestSays(cfg, log[..i], log[i].docType, cfg.sha(log[i].content), ToResponse(log[i].result))
  }

  ghost predicate Inv(cfg: Config, w: World, d: string, h: Digest) {
    && Alone(cfg, w, d, h)
    && (forall id :: id in w.active && IsFor(cfg, w.active[id].req, d, h) ==> HolderFresh(cfg, w.log, w.active[id]))
    && CacheFresh(cfg, w, d, h)
    && (forall i :: 0 <= i < |w.log| && IsReplyFor(cfg, w.log[i], d, h) ==> IsFresh(cfg, w.log, i))
  }

  /** Facts that are no extraction for the key leave its latest extraction. */
  lemma LatestStays(cfg: Config, a: seq<Fact>, b: seq<Fact>, d: string, h: string, x: Response)
    requires a <= b && LatestSays(cfg, a, d, h, x)
    requires forall k :: |a| <= k < |b| ==> !IsCall(cfg, b[k], d, h)
    ensures LatestSays(cfg, b, d, h, x)
  {
    hide ToResponse;
    var j :| 0 <= j < |a| && IsCall(cfg, a[j], d, h) && ToResponse(a[j].out.value) == x
      && forall k :: j < k < |a| ==> !IsCall(cfg, a[k], d, h);
    assert forall k :: 0 <= k < |a| ==> b[k] == a[k];
    assert IsCall(cfg, b[j], d, h);
  }

  /** A step of the acting request adds an extraction only when it is at its extractor call, and only
      for its own key. */
  lemma NewCalls(cfg: Config, w: World, e: Event, d: string, h: Digest)
    requires Enabled(w, e)
    requires !(e.Act? && w.active[e.id].pc.Extracting? && DocTypeOf(w.active[e.id].req) == d
               && cfg.sha(w.active[e.id].req.content) == h)
    ensures forall k :: |w.log| <= k < |Next(cfg, w, e).log| ==> !IsCall(cfg, Next(cfg, w, e).log[k], d, h)
  {
    hide Next, BucketOf, ConsentOf, TxOf, DocTypeOf, ActorOf;
    forall k | |w.log| <= k < |Next(cfg, w, e).log| ensures !IsCall(cfg, Next(cfg, w, e).log[k], d, h) {
      NewFact(cfg, w, e, k);
    }
  }

  /** What is served after a step was served before it, or is just being written. */
  lemma ServedChange(cfg: Config, w: World, e: Event, d: string, h: Digest, r: Result)
    requires Enabled(w, e) && var w' := Next(cfg, w, e); Served(w'.redis, w'.now, CacheKey(d, h), r)
    ensures Served(w.redis, w.now, CacheKey(d, h), r)
            || (e.Act? && w.active[e.id].pc.Caching? && cfg.hasCache && r == Uncached(w.active[e.id].pc.result)
                && d == DocTypeOf(w.active[e.id].req) && h == cfg.sha(w.active[e.id].req.content))
  {
    hide Advance, Admissible, Store.Commit, Tells, Goes, CacheKey, LimitKey, DocTypeOf, BucketOf, KindName;
    if e.Act? {
      var s := w.active[e.id];
      AdvanceMoves(cfg, w, e.id, e.how);
      if TouchedKey(cfg, s) == Some(CacheKey(d, h)) {
        ServedTouched(cfg, w, e.id, e.how, d, h, r);
      }
    }
  }

  lemma ServedTouched(cfg: Config, w: World, id: nat, how: How, d: string, h: Digest, r: Result)
    requires Enabled(w, Act(id, how)) && var w' := Advance(cfg, w, id, how); Served(w'.redis, w'.now, CacheKey(d, h), r)
    requires TouchedKey(cfg, w.active[id]) == Some(CacheKey(d, h))
    ensures Served(w.redis, w.now, CacheKey(d, h), r)
            || (w.active[id].pc.Caching? && cfg.hasCache && r == Uncached(w.active[id].pc.result)
                && d == DocTypeOf(w.active[id].req) && h == cfg.sha(w.active[id].req.content))
  {
    hide CountStep, ExpireStep, ConsentStep, LookStep, ClockStep, PrepareStep, CallStep, CommitStep, ReplyStep,
      CacheKey, LimitKey, DocTypeOf, BucketOf, KindName;
    var s := w.active[id];
    var d', h' := DocTypeOf(s.req), cfg.sha(s.req.content);
    DigestHasNoColon(h);
    DigestHasNoColon(h');
    CacheKeyInjective(d, h, d', h');
    if s.pc.Counting? || s.pc.Expiring? {
      var b := BucketOf(cfg, s.req, s.pc.readAt);
      KeysDisjoint(d, h, KindName(b.kind), b.id, b.window);
    }
  }

  /** A successful extraction leaves its request holding the result. */
  lemma CallHolds(cfg: Config, w: World, id: nat, how: How)
    requires Enabled(w, Act(id, how)) && w.active[id].pc.Extracting?
    ensures var w' := Advance(cfg, w, id, how);
            && (forall k :: |w.log| <= k < |w'.log| && w'.log[k].Called? && w'.log[k].out.Some? ==> k == |w.log|)
            && (id !in w'.active ==> forall k :: |w.log| <= k < |w'.log| && w'.log[k].Called? ==> w'.log[k].out.None?)
            && (id in w'.active ==>
                  && w'.active[id].pc.Committing? && w'.active[id].req == w.active[id].req && |w'.log| == |w.log| + 1
                  && IsCall(cfg, w'.log[|w.log|], DocTypeOf(w.active[id].req), cfg.sha(w.active[id].req.content))
                  && ToResponse(w'.log[|w.log|].out.value) == ToResponse(w'.active[id].pc.result))
  {
    hide Extractor.Extract, DocTypeOf, ActorOf, Refreshes;
  }

  // ---- the step of a request that holds a result ----

  /** A request that leaves the cache write behind wrote its result, and then nothing else is served under its key, or
      lost the write. */
  lemma WriteOrLoss(cfg: Config, w: World, id: nat, how: How)
    requires Enabled(w, Act(id, how)) && (w.active[id].pc.Committing? || w.active[id].pc.Caching?)
    ensures var s, w' := w.active[id], Advance(cfg, w, id, how);
            && id in w'.active && w'.active[id].req == s.req
            && Holds(w'.active[id].pc) && w'.active[id].pc.result == s.pc.result
            && (w'.active[id].pc.Replying? ==>
                  || LosesWrite(cfg, s.pc, how)
                  || forall r :: Served(w'.redis, w'.now, CacheKeyOf(cfg, s.req), r) ==> r == Uncached(s.pc.result))
  {
    hide CacheKeyOf, TxOf, Store.Commit;
  }

  /** Before the cache write of a request for the key, nothing for the key is pending. */
  lemma NothingPending(cfg: Config, w: World, id: nat, d: string, h: Digest)
    requires Alone(cfg, w, d, h) && id in w.active && IsFor(cfg, w.active[id].req, d, h)
    requires !w.active[id].pc.Committing? && !w.active[id].pc.Caching?
    ensures !Pending(cfg, w, d, h)
  {
  }

  /** What is pending stays pending while other requests act. */
  lemma StillPending(cfg: Config, w: World, e: Event, d: string, h: Digest)
    requires Enabled(w, e) && Pending(cfg, w, d, h) && (e.Act? ==> !IsFor(cfg, w.active[e.id].req, d, h))
    requires forall id :: id in w.active ==> id < w.next
    ensures Pending(cfg, Next(cfg, w, e), d, h)
  {
    hide Advance, IsFor, Goes, Tells, TouchedKey, Store.Commit, SameAt, Admissible;
    var w' := Next(cfg, w, e);
    var id :| id in w.active && IsFor(cfg, w.active[id].req, d, h)
      && (w.active[id].pc.Committing? || w.active[id].pc.Caching?);
    if e.Act? {
      AdvanceMoves(cfg, w, e.id, e.how);
    }
    assert id in w'.active && w'.active[id] == w.active[id];
  }

  lemma NowPending(cfg: Config, w: World, id: nat, d: string, h: Digest)
    requires id in w.active && IsFor(cfg, w.active[id].req, d, h)
    requires w.active[id].pc.Committing? || w.active[id].pc.Caching?
    ensures Pending(cfg, w, d, h)
  {
  }

  /** A response that was the latest stays it in every step that is no extraction for the key. */
  lemma SaysStill(cfg: Config, w: World, e: Event, d: string, h: Digest, x: Response)
    requires Enabled(w, e) && LatestSays(cfg, w.log, d, h, x)
    requires !(e.Act? && w.active[e.id].pc.Extracting? && IsFor(cfg, w.active[e.id].req, d, h))
    ensures LatestSays(cfg, Next(cfg, w, e).log, d, h, x)
  {
    hide Next, LatestSays, DocTypeOf, IsCall;
    StepGrows(cfg, w, e);
    NewCalls(cfg, w, e, d, h);
    LatestStays(cfg, w.log, Next(cfg, w, e).log, d, h, x);
  }

  /** After the step of the request for the key that was past its extraction. */
  lemma ServedAfterWrite(cfg: Config, w: World, id: nat, how: How, d: string, h: Digest, r: Result)
    requires Inv(cfg, w, d, h) && Enabled(w, Act(id, how)) && IsFor(cfg, w.active[id].req, d, h)
    requires w.active[id].pc.Committing? || w.active[id].pc.Caching?
    requires !Spoils(cfg, w, Act(id, how), d, h)
    requires var w' := Advance(cfg, w, id, how); !Pending(cfg, w', d, h) && Served(w'.redis, w'.now, CacheKey(d, h), r)
    ensures LatestSays(cfg, Advance(cfg, w, id, how).log, d, h, ToResponse(r))
  {
    hide Advance, LatestSays, CacheKey, Served, DocTypeOf, Pending, IsFresh, Alone;
    var s, w' := w.active[id], Advance(cfg, w, id, how);
    WriteOrLoss(cfg, w, id, how);
    ServedChange(cfg, w, Act(id, how), d, h, r);
    if !w'.active[id].pc.Replying? {
      NowPending(cfg, w', id, d, h);
    }
    assert HolderFresh(cfg, w.log, s);
    SaysStill(cfg, w, Act(id, how), d, h, ToResponse(s.pc.result));
    assert w'.active[id].pc.Replying?;
    assert CacheKeyOf(cfg, s.req) == CacheKey(d, h);
    if LosesWrite(cfg, s.pc, how) {
      assert Served(w.redis, w.now, CacheKey(d, h), r) || r == Uncached(s.pc.result);
    } else {
      assert r == Uncached(s.pc.result);
    }
    assert ToResponse(r) == ToResponse(s.pc.result);
  }

  /** After the step of the request for the key that had nothing pending. */
  lemma ServedBeforeWrite(cfg: Config, w: World, id: nat, how: How, d: string, h: Digest, r: Result)
    requires Inv(cfg, w, d, h) && Enabled(w, Act(id, how)) && IsFor(cfg, w.active[id].req, d, h)
    requires !w.active[id].pc.Committing? && !w.active[id].pc.Caching?
    requires var w' := Advance(cfg, w, id, how); !Pending(cfg, w', d, h) && Served(w'.redis, w'.now, CacheKey(d, h), r)
    ensures LatestSays(cfg, Advance(cfg, w, id, how).log, d, h, ToResponse(r))
  {
    hide Advance, LatestSays, CacheKey, Served, Pending, IsFresh, Alone, DocTypeOf, IsCall;
    var w' := Advance(cfg, w, id, how);
    ServedChange(cfg, w, Act(id, how), d, h, r);
    NothingPending(cfg, w, id, d, h);
    if w.active[id].pc.Extracting? {
      FailedCall(cfg, w, id, how, d, h);
      StepGrows(cfg, w, Act(id, how));
      LatestStays(cfg, w.log, w'.log, d, h, ToResponse(r));
    } else {
      SaysStill(cfg, w, Act(id, how), d, h, ToResponse(r));
    }
  }

  /** An extraction after which nothing is pending has failed. */
  lemma FailedCall(cfg: Config, w: World, id: nat, how: How, d: string, h: Digest)
    requires Enabled(w, Act(id, how)) && w.active[id].pc.Extracting? && IsFor(cfg, w.active[id].req, d, h)
    requires !Pending(cfg, Advance(cfg, w, id, how), d, h)
    ensures var log := Advance(cfg, w, id, how).log; forall k :: |w.log| <= k < |log| ==> !IsCall(cfg, log[k], d, h)
  {
    hide Advance, Pending, DocTypeOf;
    CallHolds(cfg, w, id, how);
    if id in Advance(cfg, w, id, how).active {
      NowPending(cfg, Advance(cfg, w, id, how), id, d, h);
    }
  }

  lemma CacheStaysFresh(cfg: Config, w: World, e: Event, d: string, h: Digest)
    requires Inv(cfg, w, d, h) && Enabled(w, e) && !Spoils(cfg, w, e, d, h)
    requires forall id :: id in w.active ==> id < w.next
    ensures CacheFresh(cfg, Next(cfg, w, e), d, h)
  {
    hide Advance, Arrived, LatestSays, CacheKey, Served, Pending, IsFresh, Alone, Spoils, IsFor, HolderFresh;
    var w' := Next(cfg, w, e);
    forall r | Served(w'.redis, w'.now, CacheKey(d, h), r)
      ensures cfg.hasCache && (Pending(cfg, w', d, h) || LatestSays(cfg, w'.log, d, h, ToResponse(r)))
    {
      ServedIsCached(cfg, w, e, d, h, r);
      if !Pending(cfg, w', d, h) {
        if e.Act? && IsFor(cfg, w.active[e.id].req, d, h) {
          if w.active[e.id].pc.Committing? || w.active[e.id].pc.Caching? {
            ServedAfterWrite(cfg, w, e.id, e.how, d, h, r);
          } else {
            ServedBeforeWrite(cfg, w, e.id, e.how, d, h, r);
          }
        } else {
          ServedByOthers(cfg, w, e, d, h, r);
        }
      }
    }
  }

  lemma ServedIsCached(cfg: Config, w: World, e: Event, d: string, h: Digest, r: Result)
    requires CacheFresh(cfg, w, d, h) && Enabled(w, e)
    requires var w' := Next(cfg, w, e); Served(w'.redis, w'.now, CacheKey(d, h), r)
    ensures cfg.hasCache
  {
    hide Next, LatestSays, CacheKey, Served, Pending, DocTypeOf;
    ServedChange(cfg, w, e, d, h, r);
  }

  lemma ServedByOthers(cfg: Config, w: World, e: Event, d: string, h: Digest, r: Result)
    requires CacheFresh(cfg, w, d, h) && Enabled(w, e) && (e.Act? ==> !IsFor(cfg, w.active[e.id].req, d, h))
    requires forall id :: id in w.active ==> id < w.next
    requires var w' := Next(cfg, w, e); !Pending(cfg, w', d, h) && Served(w'.redis, w'.now, CacheKey(d, h), r)
    ensures LatestSays(cfg, Next(cfg, w, e).log, d, h, ToResponse(r))
  {
    hide Next, LatestSays, CacheKey, Served, Pending, DocTypeOf;
    ServedChange(cfg, w, e, d, h, r);
    if Pending(cfg, w, d, h) {
      StillPending(cfg, w, e, d, h);
    }
    SaysStill(cfg, w, e, d, h, ToResponse(r));
  }

  // ---- holders and answers ----

  lemma LookHolds(cfg: Config, w: World, id: nat, how: How, d: string, h: Digest)
    requires Inv(cfg, w, d, h) && Enabled(w, Act(id, how)) && IsFor(cfg, w.active[id].req, d, h)
    requires w.active[id].pc.Looking?
    ensures var w' := LookStep(cfg, w, id, how); HolderFresh(cfg, w'.log, w'.active[id])
  {
    hide LatestSays, DocTypeOf, CacheKey, Pending, IsFresh, Alone;
    NothingPending(cfg, w, id, d, h);
    var key := CacheKey(d, h);
    if Live(w.redis, key, w.now) && w.redis[key].value.Payload? {
      assert Served(w.redis, w.now, key, w.redis[key].value.result);
    }
  }

  lemma CallIsLatest(cfg: Config, w: World, id: nat, how: How)
    requires Enabled(w, Act(id, how)) && w.active[id].pc.Extracting? && id in Advance(cfg, w, id, how).active
    ensures var w' := Advance(cfg, w, id, how); HolderFresh(cfg, w'.log, w'.active[id])
  {
    hide Advance, DocTypeOf, IsCall, ToResponse;
    CallHolds(cfg, w, id, how);
  }

  lemma ActorFresh(cfg: Config, w: World, id: nat, how: How, d: string, h: Digest)
    requires Inv(cfg, w, d, h) && Enabled(w, Act(id, how)) && IsFor(cfg, w.active[id].req, d, h)
    requires id in Advance(cfg, w, id, how).active
    ensures var w' := Advance(cfg, w, id, how); HolderFresh(cfg, w'.log, w'.active[id])
  {
    hide ConsentStep, LookStep, DeleteStep, ClockStep, CountStep, ExpireStep, PrepareStep, CallStep, CommitStep,
      CacheStep, ReplyStep, LatestSays, CacheFresh, IsFresh, TouchedKey, BucketOf, Tells, Store.Commit, Refreshes,
      SameAt, Alone, DocTypeOf, ToResponse;
    var s, w' := w.active[id], Advance(cfg, w, id, how);
    AdvanceMoves(cfg, w, id, how);
    assert Goes(cfg, w, id, s, w'.active[id].pc, w');
    if s.pc.Looking? {
      LookHolds(cfg, w, id, how, d, h);
    } else if s.pc.Extracting? {
      CallIsLatest(cfg, w, id, how);
    } else if Holds(w'.active[id].pc) {
      assert HolderFresh(cfg, w.log, s);
      HeldSays(cfg, w, id, how, d, h, ToResponse(s.pc.result));
    }
  }

  lemma HeldSays(cfg: Config, w: World, id: nat, how: How, d: string, h: Digest, x: Response)
    requires Enabled(w, Act(id, how)) && !w.active[id].pc.Extracting? && LatestSays(cfg, w.log, d, h, x)
    ensures LatestSays(cfg, Advance(cfg, w, id, how).log, d, h, x)
  {
    hide Advance, LatestSays, IsFor;
    SaysStill(cfg, w, Act(id, how), d, h, x);
  }

  lemma HoldersStayFresh(cfg: Config, w: World, e: Event, d: string, h: Digest, id: nat)
    requires Inv(cfg, w, d, h) && Enabled(w, e) && InTurn(cfg, w, e, d, h)
    requires id in Next(cfg, w, e).active && IsFor(cfg, Next(cfg, w, e).active[id].req, d, h)
    ensures HolderFresh(cfg, Next(cfg, w, e).log, Next(cfg, w, e).active[id])
    ensures forall b :: b in Next(cfg, w, e).active && IsFor(cfg, Next(cfg, w, e).active[b].req, d, h) ==> b == id
  {
    hide Advance, LatestSays, CacheFresh, IsFresh, TouchedKey, Tells, Goes, Admissible, Store.Commit, DocTypeOf,
      SameAt, ToResponse;
    var w' := Next(cfg, w, e);
    if e.Act? {
      AdvanceMoves(cfg, w, e.id, e.how);
    }
    if e.Act? && e.id == id {
      ActorFresh(cfg, w, id, e.how, d, h);
    } else if Holds(w'.active[id].pc) {
      assert HolderFresh(cfg, w.log, w.active[id]);
      SaysStill(cfg, w, e, d, h, ToResponse(w.active[id].pc.result));
    }
  }

  lemma RepliesStayFresh(cfg: Config, w: World, e: Event, d: string, h: Digest, i: nat)
    requires Inv(cfg, w, d, h) && Enabled(w, e)
    requires i < |Next(cfg, w, e).log| && IsReplyFor(cfg, Next(cfg, w, e).log[i], d, h)
    ensures IsFresh(cfg, Next(cfg, w, e).log, i)
  {
    hide Next, CacheFresh, LatestSays, BucketOf, ConsentOf, TxOf, DocTypeOf, ActorOf, Alone, ToResponse;
    var w' := Next(cfg, w, e);
    StepGrows(cfg, w, e);
    if i < |w.log| {
      assert w'.log[i] == w.log[i] && w'.log[..i] == w.log[..i];
      assert IsFresh(cfg, w.log, i);
    } else {
      NewFact(cfg, w, e, i);
      assert HolderFresh(cfg, w.log, w.active[e.id]);
      assert w'.log[..i] == w.log;
    }
  }

  lemma StepKeeps(cfg: Config, w: World, e: Event, d: string, h: Digest)
    requires Inv(cfg, w, d, h) && Enabled(w, e) && InTurn(cfg, w, e, d, h) && !Spoils(cfg, w, e, d, h)
    requires forall id :: id in w.active ==> id < w.next
    ensures Inv(cfg, Next(cfg, w, e), d, h)
  {
    hide Next, HolderFresh, CacheFresh, IsFresh, InTurn, Spoils, IsFor;
    var w' := Next(cfg, w, e);
    CacheStaysFresh(cfg, w, e, d, h);
    forall id | id in w'.active && IsFor(cfg, w'.active[id].req, d, h)
      ensures HolderFresh(cfg, w'.log, w'.active[id])
      ensures forall b :: b in w'.active && IsFor(cfg, w'.active[b].req, d, h) ==> b == id
    {
      HoldersStayFresh(cfg, w, e, d, h, id);
    }
    forall i | 0 <= i < |w'.log| && IsReplyFor(cfg, w'.log[i], d, h) ensures IsFresh(cfg, w'.log, i) {
      RepliesStayFresh(cfg, w, e, d, h, i);
    }
  }

  lemma {:induction false} InvHolds(cfg: Config, evs: seq<Event>, w: World, d: string, h: Digest)
    requires Reaches(cfg, evs, w) && Orderly(cfg, evs, d, h)
    ensures Inv(cfg, w, d, h)
    decreases |evs|
  {
    hide Next, InTurn, Spoils, Inv, Outcomes.Inv;
    if evs == [] {
      NothingYet(cfg, d, h);
    } else {
      var v := RunStep(cfg, evs, w);
      InvHolds(cfg, evs[..|evs| - 1], v, d, h);
      NumbersBelowNext(cfg, evs[..|evs| - 1], v);
      StepKeeps(cfg, v, evs[|evs| - 1], d, h);
    }
  }

  lemma NumbersBelowNext(cfg: Config, evs: seq<Event>, w: World)
    requires Reaches(cfg, evs, w)
    ensures forall id :: id in w.active ==> id < w.next
  {
    hide Exec;
    Outcomes.InvHolds(cfg, evs, w);
  }

  lemma NothingYet(cfg: Config, d: string, h: Digest)
    ensures Inv(cfg, START, d, h)
  {
  }

  /** In every run that is orderly for a key each 200 answer for it carries the latest successful extraction for it,
      refreshes included, whatever the requests for other documents do meanwhile. */
  lemma AnswersAreFresh(cfg: Config, evs: seq<Event>, w: World, i: nat)
    requires Reaches(cfg, evs, w) && i < |w.log| && w.log[i].Replied?
    requires Orderly(cfg, evs, w.log[i].docType, cfg.sha(w.log[i].content))
    ensures IsFresh(cfg, w.log, i)
  {
    hide CacheFresh, Exec, Orderly, IsFresh, HolderFresh, Alone;
    InvHolds(cfg, evs, w, w.log[i].docType, cfg.sha(w.log[i].content));
  }

  /** In every run, orderly or not, a hit takes on exactly the cached value: what it will write back
      is what it read. */
  lemma HitWritesBackWhatItRead(cfg: Config, evs: seq<Event>, w: World, id: nat, r: Result)
    requires Reaches(cfg, evs, w) && cfg.hasCache
    requires id in w.active && w.active[id].pc.Looking? && Served(w.redis, w.now, CacheKeyOf(cfg, w.active[id].req), r)
    ensures var w' := Next(cfg, w, Act(id, Ok));
            id in w'.active && w'.active[id].pc.Committing? && !w'.active[id].pc.replace
              && Uncached(w'.active[id].pc.result) == r
  {
    hide Origin, HasRow, CacheKey, DocTypeOf, SessionsOk, RepliesOk;
    Provenance.InvHolds(cfg, evs, w);
    var req := w.active[id].req;
    assert CachedAs(w.redis, CacheKey(DocTypeOf(req), cfg.sha(req.content)), r);
    OriginShape(cfg, w.log, DocTypeOf(req), cfg.sha(req.content), r);
  }
}
