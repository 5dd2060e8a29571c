/** The rate limit over whole runs: INCR and EXPIRE are separate steps that may fail, and any number
    of requests interleave between them. */
module Quota {
  import opened Domain
  import opened Identity
  import opened RedisModel
  import opened Keys
  import opened Protocol
  import opened Provenance
  import RateLimit
  import Store

  // ---- requests by what they did in a bucket ----

  /** Requests whose INCR on the bucket succeeded. */
  ghost function Counters(log: seq<Fact>, b: Bucket): set<nat> {
    set i | 0 <= i < |log| && log[i].Counted? && log[i].bucket == b :: log[i].id
  }

  /** Those of them that got a unit of the limit. */
  ghost function Funded(log: seq<Fact>, b: Bucket): set<nat> {
    set i | 0 <= i < |log| && log[i].Counted? && log[i].bucket == b && log[i].allowed :: log[i].id
  }

  /** Those of them that were let through. */
  ghost function Admitted(log: seq<Fact>, b: Bucket): set<nat> {
    set i | 0 <= i < |log| && log[i].Counted? && log[i].bucket == b && log[i].allowed && log[i].heard :: log[i].id
  }

  /** Those whose unit was lost, because their INCR took effect unheard. */
  ghost function Wasted(log: seq<Fact>, b: Bucket): set<nat> {
    set i | 0 <= i < |log| && log[i].Counted? && log[i].bucket == b && log[i].allowed && !log[i].heard :: log[i].id
  }

  /** Requests that called the extractor on the bucket's account. */
  ghost function Callers(log: seq<Fact>, b: Bucket): set<nat> {
    set i | 0 <= i < |log| && log[i].Called? && log[i].bucket == b :: log[i].id
  }

  lemma CountersAppend(log: seq<Fact>, f: Fact, b: Bucket)
    ensures Counters(log + [f], b) == Counters(log, b) + (if f.Counted? && f.bucket == b then {f.id} else {})
    ensures Funded(log + [f], b) == Funded(log, b) + (if f.Counted? && f.bucket == b && f.allowed then {f.id} else {})
  {
    var l := log + [f];
    assert l[|log|] == f;
    assert forall i :: 0 <= i < |log| ==> l[i] == log[i];
    forall x | x in Counters(log, b) ensures x in Counters(l, b) {
      var i :| 0 <= i < |log| && log[i].Counted? && log[i].bucket == b && log[i].id == x;
      assert l[i].id == x;
    }
    forall x | x in Funded(log, b) ensures x in Funded(l, b) {
      var i :| 0 <= i < |log| && log[i].Counted? && log[i].bucket == b && log[i].allowed && log[i].id == x;
      assert l[i].id == x;
    }
  }

  lemma CallersAppend(log: seq<Fact>, f: Fact, b: Bucket)
    ensures Callers(log + [f], b) == Callers(log, b) + (if f.Called? && f.bucket == b then {f.id} else {})
  {
    var l := log + [f];
    assert l[|log|] == f;
    assert forall i :: 0 <= i < |log| ==> l[i] == log[i];
    forall x | x in Callers(log, b) ensures x in Callers(l, b) {
      var i :| 0 <= i < |log| && log[i].Called? && log[i].bucket == b && log[i].id == x;
      assert l[i].id == x;
    }
  }

  // ---- each request counts once, calls once, and only after it was let through ----

  predicate BeforeCount(pc: Pc) {
    pc.Consenting? || pc.Looking? || pc.Purging? || pc.Invalidating? || pc.Clocking? || pc.Counting?
  }

  predicate BeforeCall(pc: Pc) { BeforeCount(pc) || pc.Expiring? || pc.Preparing? || pc.Extracting? }

  predicate IsHit(pc: Pc) { Holds(pc) && pc.result.meta.cache == "hit" }

  ghost predicate NeverCounted(log: seq<Fact>, id: nat) {
    forall i :: 0 <= i < |log| && log[i].Counted? ==> log[i].id != id
  }

  ghost predicate NeverCalled(log: seq<Fact>, id: nat) {
    forall i :: 0 <= i < |log| && log[i].Called? ==> log[i].id != id
  }

  ghost predicate LetThrough(log: seq<Fact>, id: nat, b: Bucket) {
    exists i :: 0 <= i < |log| && log[i].Counted? && log[i].id == id && log[i].bucket == b && log[i].allowed
      && log[i].heard
  }

  ghost predicate SessionTidy(cfg: Config, now: nat, log: seq<Fact>, id: nat, s: Session) {
    && (BeforeCount(s.pc) || IsHit(s.pc) ==> NeverCounted(log, id))
    && (BeforeCall(s.pc) ==> NeverCalled(log, id))
    && (s.pc.Counting? ==> s.pc.readAt <= now)
    && (s.pc.Expiring? ==>
          && s.pc.readAt <= now && id in Counters(log, BucketOf(cfg, s.req, s.pc.readAt))
          && (s.pc.allowed ==> LetThrough(log, id, BucketOf(cfg, s.req, s.pc.readAt))))
    && (s.pc.Preparing? || s.pc.Extracting? ==> LetThrough(log, id, s.pc.bucket))
  }

  ghost predicate FactTidy(log: seq<Fact>, next: nat, active: map<nat, Session>, i: nat)
    requires i < |log|
  {
    && log[i].id < next
    && (log[i].Counted? ==> log[i].bucket.window == WindowOf(log[i].readAt) && NeverCounted(log[..i], log[i].id))
    && (log[i].Called? ==>
          LetThrough(log, log[i].id, log[i].bucket) && NeverCalled(log[..i], log[i].id) && log[i].attempts <= 6
            && log[i].backoff <= 18)
    && (log[i].Replied? && log[i].result.meta.cache == "hit" ==> log[i].id !in active && NeverCounted(log, log[i].id))
  }

  ghost predicate Tidy(cfg: Config, w: World) {
    && (forall id :: id in w.active ==> id < w.next && SessionTidy(cfg, w.now, w.log, id, w.active[id]))
    && (forall i :: 0 <= i < |w.log| ==> FactTidy(w.log, w.next, w.active, i))
  }

  lemma LetThroughGrows(a: seq<Fact>, b: seq<Fact>, id: nat, bucket: Bucket)
    requires a <= b && LetThrough(a, id, bucket)
    ensures LetThrough(b, id, bucket)
  {
    var i :| 0 <= i < |a| && a[i].Counted? && a[i].id == id && a[i].bucket == bucket && a[i].allowed && a[i].heard;
    assert b[i] == a[i];
  }

  lemma CountersGrow(a: seq<Fact>, b: seq<Fact>, id: nat, bucket: Bucket)
    requires a <= b && id in Counters(a, bucket)
    ensures id in Counters(b, bucket)
  {
    var i :| 0 <= i < |a| && a[i].Counted? && a[i].bucket == bucket && a[i].id == id;
    assert b[i] == a[i];
  }

  /** New facts of other requests, or none, leave a session tidy. */
  lemma SessionStaysTidy(cfg: Config, w: World, w': World, id: nat, s: Session)
    requires SessionTidy(cfg, w.now, w.log, id, s) && w.log <= w'.log && w.now <= w'.now
    requires forall i :: |w.log| <= i < |w'.log| ==> w'.log[i].id != id
    ensures SessionTidy(cfg, w'.now, w'.log, id, s)
  {
    hide BucketOf, Counters;
    assert forall i :: 0 <= i < |w.log| ==> w'.log[i] == w.log[i];
    if s.pc.Expiring? {
      var b := BucketOf(cfg, s.req, s.pc.readAt);
      CountersGrow(w.log, w'.log, id, b);
      if s.pc.allowed {
        LetThroughGrows(w.log, w'.log, id, b);
      }
    } else if s.pc.Preparing? || s.pc.Extracting? {
      LetThroughGrows(w.log, w'.log, id, s.pc.bucket);
    }
  }

  lemma NeverCountedGrows(a: seq<Fact>, b: seq<Fact>, id: nat)
    requires a <= b && NeverCounted(a, id)
    requires forall i :: |a| <= i < |b| ==> !b[i].Counted? || b[i].id != id
    ensures NeverCounted(b, id)
  {
    assert forall i :: 0 <= i < |a| ==> b[i] == a[i];
  }

  lemma NeverCalledGrows(a: seq<Fact>, b: seq<Fact>, id: nat)
    requires a <= b && NeverCalled(a, id)
    requires forall i :: |a| <= i < |b| ==> !b[i].Called? || b[i].id != id
    ensures NeverCalled(b, id)
  {
    assert forall i :: 0 <= i < |a| ==> b[i] == a[i];
  }

  /** The acting request stays tidy. */
  lemma ActorStaysTidy(cfg: Config, w: World, id: nat, w': World)
    requires id in w.active && id in w'.active && Moves(cfg, w, id, w')
    requires SessionTidy(cfg, w.now, w.log, id, w.active[id])
    ensures SessionTidy(cfg, w'.now, w'.log, id, w'.active[id])
  {
    hide BucketOf, TouchedKey, Refreshes, ConsentOf, TxOf, DocTypeOf, ActorOf, Counters, NeverCounted, NeverCalled,
      LetThrough, Store.Commit;
    var s, s' := w.active[id], w'.active[id];
    assert Goes(cfg, w, id, s, s'.pc, w');
    if BeforeCount(s'.pc) || IsHit(s'.pc) {
      NeverCountedGrows(w.log, w'.log, id);
    }
    if BeforeCall(s'.pc) {
      NeverCalledGrows(w.log, w'.log, id);
    }
    if s.pc.Counting? {
      JustCounted(w.log, w'.log, id, BucketOf(cfg, s.req, s.pc.readAt));
    } else if s'.pc.Preparing? || s'.pc.Extracting? {
      LetThroughGrows(w.log, w'.log, id, s'.pc.bucket);
    }
  }

  lemma JustCounted(a: seq<Fact>, b: seq<Fact>, id: nat, bucket: Bucket)
    requires |b| == |a| + 1 && b[|a|].Counted? && b[|a|].id == id && b[|a|].bucket == bucket
    ensures id in Counters(b, bucket)
    ensures b[|a|].allowed && b[|a|].heard ==> LetThrough(b, id, bucket)
  {
    var i := |a|;
    assert 0 <= i < |b| && b[i].Counted? && b[i].bucket == bucket && b[i].id == id;
  }

  lemma SessionsStayTidy(cfg: Config, w: World, e: Event, id: nat)
    requires Tidy(cfg, w) && Enabled(w, e) && id in Next(cfg, w, e).active
    ensures var w' := Next(cfg, w, e); id < w'.next && SessionTidy(cfg, w'.now, w'.log, id, w'.active[id])
  {
    hide Advance, SessionTidy, BucketOf, TouchedKey, Refreshes, ConsentOf, TxOf, DocTypeOf, ActorOf, Admissible,
      Store.Commit, FactTidy;
    var w' := Next(cfg, w, e);
    StepGrows(cfg, w, e);
    if e.Act? {
      AdvanceMoves(cfg, w, e.id, e.how);
    }
    if e.Act? && e.id == id {
      ActorStaysTidy(cfg, w, id, w');
    } else if e.Arrive? && id == w.next {
      Newcomer(cfg, w, w', id);
    } else {
      SessionStaysTidy(cfg, w, w', id, w.active[id]);
    }
  }

  lemma Newcomer(cfg: Config, w: World, w': World, id: nat)
    requires Tidy(cfg, w) && id == w.next && w'.log == w.log && id in w'.active && w'.active[id].pc == Consenting
    ensures SessionTidy(cfg, w'.now, w'.log, id, w'.active[id])
  {
    hide LetThrough;
    forall i | 0 <= i < |w.log| ensures w.log[i].id < id {
      assert FactTidy(w.log, w.next, w.active, i);
    }
  }

  lemma OldFactsStayTidy(cfg: Config, w: World, e: Event, i: nat)
    requires Tidy(cfg, w) && Enabled(w, e) && i < |w.log|
    ensures var w' := Next(cfg, w, e); i < |w'.log| && FactTidy(w'.log, w'.next, w'.active, i)
  {
    hide Advance, SessionTidy, BucketOf, TouchedKey, Refreshes, ConsentOf, TxOf, DocTypeOf, ActorOf, Admissible,
      NeverCounted, NeverCalled, LetThrough, Store.Commit, Goes;
    var w' := Next(cfg, w, e);
    StepGrows(cfg, w, e);
    assert FactTidy(w.log, w.next, w.active, i);
    assert w'.log[i] == w.log[i] && w'.log[..i] == w.log[..i];
    if e.Act? {
      AdvanceMoves(cfg, w, e.id, e.how);
    }
    if w.log[i].Called? {
      LetThroughGrows(w.log, w'.log, w.log[i].id, w.log[i].bucket);
    }
    if w.log[i].Replied? && w.log[i].result.meta.cache == "hit" {
      NeverCountedGrows(w.log, w'.log, w.log[i].id);
    }
  }

  lemma NewFactsAreTidy(cfg: Config, w: World, e: Event, i: nat)
    requires Tidy(cfg, w) && Enabled(w, e) && |w.log| <= i < |Next(cfg, w, e).log|
    ensures var w' := Next(cfg, w, e); FactTidy(w'.log, w'.next, w'.active, i)
  {
    hide Next, BucketOf, Refreshes, ConsentOf, TxOf, DocTypeOf, ActorOf, NeverCounted, NeverCalled, LetThrough,
      Counters;
    var w' := Next(cfg, w, e);
    StepGrows(cfg, w, e);
    NewFact(cfg, w, e, i);
    if e.Act? {
      var s := w.active[e.id];
      assert SessionTidy(cfg, w.now, w.log, e.id, s);
      if w'.log[i].Counted? {
        BucketWindow(cfg, s.req, s.pc.readAt);
        assert w'.log[..i] == w.log;
      } else if w'.log[i].Called? {
        LetThroughGrows(w.log, w'.log, e.id, s.pc.bucket);
        assert w'.log[..i] == w.log;
      } else if w'.log[i].Replied? {
        ReplyCloses(cfg, w, e);
        NewFactsOnce(cfg, w, e);
        NeverCountedGrowsIf(w.log, w'.log, e.id);
      }
    } else {
      ArrivalNext(cfg, w, e);
    }
  }

  lemma BucketWindow(cfg: Config, req: Request, t: nat)
    ensures BucketOf(cfg, req, t).window == WindowOf(t)
  {
  }

  lemma NeverCountedGrowsIf(a: seq<Fact>, b: seq<Fact>, id: nat)
    requires a <= b && forall i :: |a| <= i < |b| ==> !b[i].Counted?
    ensures NeverCounted(a, id) ==> NeverCounted(b, id)
  {
    if NeverCounted(a, id) {
      NeverCountedGrows(a, b, id);
    }
  }

  lemma ReplyCloses(cfg: Config, w: World, e: Event)
    requires Enabled(w, e) && e.Act? && w.active[e.id].pc.Replying?
    ensures e.id !in Next(cfg, w, e).active && |Next(cfg, w, e).log| == |w.log| + 1
  {
    hide DocTypeOf;
  }

  lemma NewFactsOnce(cfg: Config, w: World, e: Event)
    requires Enabled(w, e) && e.Act? && w.active[e.id].pc.Replying?
    ensures forall i :: |w.log| <= i < |Next(cfg, w, e).log| ==> !Next(cfg, w, e).log[i].Counted?
  {
    hide Next, BucketOf, ConsentOf, TxOf, DocTypeOf, ActorOf;
    forall i | |w.log| <= i < |Next(cfg, w, e).log| ensures !Next(cfg, w, e).log[i].Counted? {
      NewFact(cfg, w, e, i);
    }
  }

  lemma ArrivalNext(cfg: Config, w: World, e: Event)
    requires Enabled(w, e) && e.Arrive?
    ensures Next(cfg, w, e).next == w.next + 1
  {
    hide Admissible;
  }

  lemma {:induction false} TidyHolds(cfg: Config, evs: seq<Event>, w: World)
    requires Reaches(cfg, evs, w)
    ensures Tidy(cfg, w)
    decreases |evs|
  {
    hide Next, SessionTidy, FactTidy;
    if evs != [] {
      var v := RunStep(cfg, evs, w);
      var e := evs[|evs| - 1];
      TidyHolds(cfg, evs[..|evs| - 1], v);
      forall id | id in w.active ensures id < w.next && SessionTidy(cfg, w.now, w.log, id, w.active[id]) {
        SessionsStayTidy(cfg, v, e, id);
      }
      forall i | 0 <= i < |w.log| ensures FactTidy(w.log, w.next, w.active, i) {
        if i < |v.log| {
          OldFactsStayTidy(cfg, v, e, i);
        } else {
          NewFactsAreTidy(cfg, v, e, i);
        }
      }
    }
  }

  // ---- the counter itself ----

  function Min(a: nat, b: nat): nat { if a < b then a else b }

  /** End of the time during which an INCR for the bucket can still come, in nanoseconds. */
  function GoneAt(b: Bucket): nat { (b.window + 120) * SECOND }

  /** While an INCR can still come, the key holds the number of successful INCRs and does not expire
      before that time is over. */
  ghost predicate CounterOk(w: World, b: Bucket) {
    var n := |Counters(w.log, b)|;
    var key := BucketKey(b);
    && (n == 0 ==> key !in w.redis)
    && (n > 0 && w.now < GoneAt(b) ==>
          && key in w.redis && w.redis[key].value == Counter(n)
          && (w.redis[key].expires.Some? ==> w.redis[key].expires.value >= GoneAt(b)))
  }

  ghost predicate BucketOk(cfg: Config, w: World, b: Bucket) {
    CounterOk(w, b) && |Funded(w.log, b)| == Min(|Counters(w.log, b)|, cfg.limit)
  }

  /** The two things the limiter needs from its surroundings, for one bucket: an INCR for it goes out less
      than a minute after the clock was read, and nobody else tampers with its key. */
  predicate PromptStep(cfg: Config, w: World, e: Event, b: Bucket) {
    match e
    case Act(id, _) =>
      (id in w.active && w.active[id].pc.Counting? && BucketOf(cfg, w.active[id].req, w.active[id].pc.readAt) == b ==>
         w.now < w.active[id].pc.readAt + MINUTE)
    case Evict(key) => key != BucketKey(b)
    case Spoil(key) => key != BucketKey(b)
    case _ => true
  }

  predicate Prompt(cfg: Config, evs: seq<Event>, b: Bucket) {
    evs == [] ||
    (var n := |evs| - 1;
     && Prompt(cfg, evs[..n], b)
     && (var v := Exec(cfg, START, evs[..n]); v.Some? ==> PromptStep(cfg, v.value, evs[n], b)))
  }

  lemma BucketKeyInjective(a: Bucket, b: Bucket)
    ensures BucketKey(a) == BucketKey(b) <==> a == b
  {
    hide KindName;
    LimitKeyInjective(KindName(a.kind), a.id, a.window, KindName(b.kind), b.id, b.window);
    KindNameInjective(a.kind, b.kind);
  }

  /** A clock reading lies in its window, and a prompt INCR comes before the bucket is gone. */
  lemma WindowTimes(cfg: Config, req: Request, t: nat)
    ensures var b := BucketOf(cfg, req, t); b.window * SECOND <= t && t + MINUTE < GoneAt(b)
  {
    hide QuotaId;
    assert t == t / MINUTE * MINUTE + t % MINUTE;
  }

  /** A step that is not about the bucket leaves it as it is. */
  lemma BucketUntouched(cfg: Config, w: World, w': World, b: Bucket)
    requires BucketOk(cfg, w, b) && w.now <= w'.now && SameAt(w'.redis, w.redis, BucketKey(b))
    requires Counters(w'.log, b) == Counters(w.log, b) && Funded(w'.log, b) == Funded(w.log, b)
    ensures BucketOk(cfg, w', b)
  {
    hide BucketKey, Counters, Funded;
  }

  lemma SameCounters(a: seq<Fact>, c: seq<Fact>, b: Bucket)
    requires a <= c && |c| <= |a| + 2
    requires forall i :: |a| <= i < |c| ==> !(c[i].Counted? && c[i].bucket == b)
    ensures Counters(c, b) == Counters(a, b) && Funded(c, b) == Funded(a, b)
  {
    if |c| > |a| {
      CountersAppend(a, c[|a|], b);
      var m := a + [c[|a|]];
      if |c| > |a| + 1 {
        CountersAppend(m, c[|a| + 1], b);
        assert c == m + [c[|a| + 1]];
      } else {
        assert c == m;
      }
    } else {
      assert c == a;
    }
  }

  /** The INCR of a prompt request finds the number of INCRs before it. */
  lemma IncrFinds(w: World, b: Bucket)
    requires CounterOk(w, b) && w.now < GoneAt(b)
    ensures var n := |Counters(w.log, b)|;
            var r := Incr(w.redis, BucketKey(b), w.now);
            && r.Some? && r.value.1 == n + 1
            && BucketKey(b) in r.value.0 && r.value.0[BucketKey(b)].value == Counter(n + 1)
            && (r.value.0[BucketKey(b)].expires.Some? ==> r.value.0[BucketKey(b)].expires.value >= GoneAt(b))
  {
    hide BucketKey, Counters, GoneAt;
  }

  /** The INCR of a prompt request on its bucket. */
  lemma CountKeepsBucket(cfg: Config, w: World, id: nat, how: How)
    requires Enabled(w, Act(id, how)) && w.active[id].pc.Counting?
    requires PromptStep(cfg, w, Act(id, how), BucketOf(cfg, w.active[id].req, w.active[id].pc.readAt))
    requires Tidy(cfg, w) && BucketOk(cfg, w, BucketOf(cfg, w.active[id].req, w.active[id].pc.readAt))
    ensures BucketOk(cfg, CountStep(cfg, w, id, w.active[id].pc.readAt, how),
              BucketOf(cfg, w.active[id].req, w.active[id].pc.readAt))
  {
    hide BucketOf, BucketKey, FactTidy, Counters, Funded, GoneAt, Incr, NeverCounted, NeverCalled, LetThrough;
    var s := w.active[id];
    var t := s.pc.readAt;
    var b := BucketOf(cfg, s.req, t);
    WindowTimes(cfg, s.req, t);
    assert SessionTidy(cfg, w.now, w.log, id, s);
    NotCounter(w.log, id, b);
    if how.Fail? {
      CountersAppend(w.log, Refused(id, LimiterDown), b);
    } else {
      var n := |Counters(w.log, b)|;
      IncrFinds(w, b);
      CountersAppend(w.log, Counted(id, b, t, n + 1, n + 1 <= cfg.limit, how.Ok?), b);
      AfterCount(cfg, w, id, t, how, n + 1);
      CountedOnce(cfg, w, CountStep(cfg, w, id, t, how), id, b);
    }
  }

  lemma CountedOnce(cfg: Config, w: World, w': World, id: nat, b: Bucket)
    requires BucketOk(cfg, w, b) && id !in Counters(w.log, b) && id !in Funded(w.log, b)
    requires var n := |Counters(w.log, b)| + 1;
             && Counters(w'.log, b) == Counters(w.log, b) + {id}
             && Funded(w'.log, b) == Funded(w.log, b) + (if n <= cfg.limit then {id} else {})
             && BucketKey(b) in w'.redis && w'.redis[BucketKey(b)].value == Counter(n)
             && (w'.redis[BucketKey(b)].expires.Some? ==> w'.redis[BucketKey(b)].expires.value >= GoneAt(b))
    ensures BucketOk(cfg, w', b)
  {
    hide BucketKey, Counters, Funded, GoneAt;
  }

  lemma AdvanceCounts(cfg: Config, w: World, id: nat, how: How)
    requires Enabled(w, Act(id, how)) && w.active[id].pc.Counting?
    ensures Advance(cfg, w, id, how) == CountStep(cfg, w, id, w.active[id].pc.readAt, how)
  {
    hide CountStep;
  }

  lemma NotCounter(log: seq<Fact>, id: nat, b: Bucket)
    requires NeverCounted(log, id)
    ensures id !in Counters(log, b) && id !in Funded(log, b)
  {
  }

  /** What the INCR step leaves in Redis and in the log. */
  lemma AfterCount(cfg: Config, w: World, id: nat, t: nat, how: How, n: nat)
    requires id in w.active && !how.Fail?
    requires var b := BucketOf(cfg, w.active[id].req, t);
             Incr(w.redis, BucketKey(b), w.now).Some? && Incr(w.redis, BucketKey(b), w.now).value.1 == n
    ensures var b := BucketOf(cfg, w.active[id].req, t);
            var w' := CountStep(cfg, w, id, t, how);
            var f := Counted(id, b, t, n, n <= cfg.limit, how.Ok?);
            && w'.redis == Incr(w.redis, BucketKey(b), w.now).value.0 && w'.now == w.now
            && Counters(w'.log, b) == Counters(w.log + [f], b)
            && Funded(w'.log, b) == Funded(w.log + [f], b)
  {
    hide BucketOf, BucketKey, Incr, Counters, Funded;
    var b := BucketOf(cfg, w.active[id].req, t);
    var f := Counted(id, b, t, n, n <= cfg.limit, how.Ok?);
    var w' := CountStep(cfg, w, id, t, how);
    CountersAppend(w.log + [f], Refused(id, RateLimited), b);
    CountersAppend(w.log + [f], Refused(id, LimiterDown), b);
    assert w'.log == w.log + [f] || w'.log == w.log + [f] + [Refused(id, RateLimited)]
           || w'.log == w.log + [f] + [Refused(id, LimiterDown)];
  }

  /** The EXPIRE of a request on its bucket. */
  lemma ExpireKeepsBucket(cfg: Config, w: World, id: nat, how: How)
    requires Enabled(w, Act(id, how)) && w.active[id].pc.Expiring?
    requires Tidy(cfg, w) && BucketOk(cfg, w, BucketOf(cfg, w.active[id].req, w.active[id].pc.readAt))
    ensures BucketOk(cfg, Advance(cfg, w, id, how), BucketOf(cfg, w.active[id].req, w.active[id].pc.readAt))
  {
    hide BucketOf, BucketKey, FactTidy, Counters, Funded;
    var s := w.active[id];
    var b := BucketOf(cfg, s.req, s.pc.readAt);
    WindowTimes(cfg, s.req, s.pc.readAt);
    assert SessionTidy(cfg, w.now, w.log, id, s);
    assert |Counters(w.log, b)| > 0;
    CountersAppend(w.log, Refused(id, RateLimited), b);
    assert w.now + 2 * MINUTE >= GoneAt(b);
  }

  lemma BucketKept(cfg: Config, w: World, e: Event, b: Bucket)
    requires Tidy(cfg, w) && BucketOk(cfg, w, b) && Enabled(w, e) && PromptStep(cfg, w, e, b)
    ensures BucketOk(cfg, Next(cfg, w, e), b)
  {
    hide Advance, CountStep, Tidy, BucketOk, BucketOf, BucketKey, Counters, Funded, Admissible, ConsentOf, TxOf,
      DocTypeOf, ActorOf, Goes, CacheKeyOf, Store.Commit;
    var w' := Next(cfg, w, e);
    if e.Act? {
      AdvanceMoves(cfg, w, e.id, e.how);
      var s := w.active[e.id];
      if s.pc.Counting? && BucketOf(cfg, s.req, s.pc.readAt) == b {
        CountKeepsBucket(cfg, w, e.id, e.how);
        AdvanceCounts(cfg, w, e.id, e.how);
      } else if s.pc.Expiring? && BucketOf(cfg, s.req, s.pc.readAt) == b {
        ExpireKeepsBucket(cfg, w, e.id, e.how);
      } else {
        OtherKey(cfg, s, b);
        SameCounters(w.log, w'.log, b);
        BucketUntouched(cfg, w, w', b);
      }
    } else {
      SameCounters(w.log, w'.log, b);
      BucketUntouched(cfg, w, w', b);
    }
  }

  /** A request that is not at the bucket's counter touches another key. */
  lemma OtherKey(cfg: Config, s: Session, b: Bucket)
    requires (s.pc.Counting? || s.pc.Expiring?) ==> BucketOf(cfg, s.req, s.pc.readAt) != b
    ensures TouchedKey(cfg, s) != Some(BucketKey(b))
  {
    hide BucketOf, CacheKey, LimitKey, KindName, DocTypeOf;
    if s.pc.Counting? || s.pc.Expiring? {
      BucketKeyInjective(BucketOf(cfg, s.req, s.pc.readAt), b);
    } else {
      KeysDisjoint(DocTypeOf(s.req), cfg.sha(s.req.content), KindName(b.kind), b.id, b.window);
    }
  }

  lemma {:induction false} BucketHolds(cfg: Config, evs: seq<Event>, w: World, b: Bucket)
    requires Reaches(cfg, evs, w) && Prompt(cfg, evs, b)
    ensures BucketOk(cfg, w, b)
    decreases |evs|
  {
    hide Next, Tidy, PromptStep, BucketKey;
    if evs != [] {
      var v := RunStep(cfg, evs, w);
      BucketHolds(cfg, evs[..|evs| - 1], v, b);
      TidyHolds(cfg, evs[..|evs| - 1], v);
      BucketKept(cfg, v, evs[|evs| - 1], b);
    }
  }

  // ---- theorems ----

  /** The requests let through are those that got a unit and heard of it. */
  lemma FundedSplit(cfg: Config, w: World, b: Bucket)
    requires Tidy(cfg, w)
    ensures Funded(w.log, b) == Admitted(w.log, b) + Wasted(w.log, b)
    ensures Admitted(w.log, b) !! Wasted(w.log, b)
  {
    hide SessionTidy;
    var log := w.log;
    forall x | x in Admitted(log, b) && x in Wasted(log, b) ensures false {
      var i :| 0 <= i < |log| && log[i].Counted? && log[i].bucket == b && log[i].allowed && log[i].heard
        && log[i].id == x;
      var j :| 0 <= j < |log| && log[j].Counted? && log[j].bucket == b && log[j].allowed && !log[j].heard
        && log[j].id == x;
      if i < j {
        CountsOnce(cfg, w, i, j);
      } else {
        CountsOnce(cfg, w, j, i);
      }
    }
    forall x | x in Funded(log, b) ensures x in Admitted(log, b) + Wasted(log, b) {
      var i :| 0 <= i < |log| && log[i].Counted? && log[i].bucket == b && log[i].allowed && log[i].id == x;
      assert log[i].id in (if log[i].heard then Admitted(log, b) else Wasted(log, b));
    }
  }

  /** No request counts twice. */
  lemma CountsOnce(cfg: Config, w: World, i: nat, j: nat)
    requires Tidy(cfg, w) && i < j < |w.log| && w.log[i].Counted? && w.log[j].Counted?
    ensures w.log[i].id != w.log[j].id
  {
    hide SessionTidy;
    assert FactTidy(w.log, w.next, w.active, j);
    assert w.log[..j][i] == w.log[i];
  }

  /** In every run that is prompt for a bucket exactly min(INCRs, limit) units of it are given out, whatever
      happens in other buckets: the two-minute expiry never resets a live window. A unit lets its request
      through, unless its INCR took effect unheard; if every INCR is heard, exactly min(INCRs, limit)
      requests are let through. */
  lemma QuotaIsExact(cfg: Config, evs: seq<Event>, w: World, b: Bucket)
    requires Reaches(cfg, evs, w) && Prompt(cfg, evs, b)
    ensures |Admitted(w.log, b)| + |Wasted(w.log, b)| == Min(|Counters(w.log, b)|, cfg.limit)
  {
    hide Tidy, Counters, Admitted, Wasted, Funded;
    BucketHolds(cfg, evs, w, b);
    TidyHolds(cfg, evs, w);
    FundedSplit(cfg, w, b);
  }

  /** What the INCR step writes down. */
  lemma CountFact(cfg: Config, w: World, id: nat, t: nat, how: How, n: nat)
    requires id in w.active
    requires var r := Incr(w.redis, BucketKey(BucketOf(cfg, w.active[id].req, t)), w.now); r.Some? && r.value.1 == n
    ensures var log := CountStep(cfg, w, id, t, how).log;
            && |log| > |w.log|
            && (log[|w.log|].Counted? ==> log[|w.log|].count == n && log[|w.log|].allowed == (n <= cfg.limit))
  {
    hide BucketOf, BucketKey, Incr;
  }

  /** A prompt request that counts is the next one of its bucket. */
  lemma NextInLine(cfg: Config, w: World, e: Event, b: Bucket, i: nat)
    requires Tidy(cfg, w) && BucketOk(cfg, w, b) && Enabled(w, e) && PromptStep(cfg, w, e, b)
    requires |w.log| <= i < |Next(cfg, w, e).log|
    requires Next(cfg, w, e).log[i].Counted? && Next(cfg, w, e).log[i].bucket == b
    ensures i == |w.log| && Next(cfg, w, e).log[i].count == |Counters(w.log, b)| + 1
    ensures Next(cfg, w, e).log[i].allowed <==> |Counters(w.log, b)| < cfg.limit
  {
    hide Next, CountStep, BucketOf, BucketKey, Counters, Funded, Incr, ConsentOf, TxOf, DocTypeOf, ActorOf, FactTidy,
      GoneAt;
    NewFact(cfg, w, e, i);
    var s := w.active[e.id];
    WindowTimes(cfg, s.req, s.pc.readAt);
    IncrFinds(w, b);
    CountFact(cfg, w, e.id, s.pc.readAt, e.how, |Counters(w.log, b)| + 1);
    NextCounts(cfg, w, e);
  }

  lemma NextCounts(cfg: Config, w: World, e: Event)
    requires Enabled(w, e) && e.Act? && w.active[e.id].pc.Counting?
    ensures Next(cfg, w, e) == CountStep(cfg, w, e.id, w.active[e.id].pc.readAt, e.how)
  {
    hide CountStep;
  }

  /** First come, first served: in a run that is prompt for the bucket, an INCR returns its place in the line and
      gets a unit if and only if fewer than `limit` came before it. */
  lemma {:induction false} FirstComeFirstServed(cfg: Config, evs: seq<Event>, w: World, b: Bucket, i: nat)
    requires Reaches(cfg, evs, w) && Prompt(cfg, evs, b)
    requires i < |w.log| && w.log[i].Counted? && w.log[i].bucket == b
    ensures w.log[i].count == |Counters(w.log[..i], b)| + 1
    ensures w.log[i].allowed <==> |Counters(w.log[..i], b)| < cfg.limit
    decreases |evs|
  {
    hide Next, Tidy, PromptStep, BucketKey, BucketOk, Counters;
    if evs != [] {
      var v := RunStep(cfg, evs, w);
      var e := evs[|evs| - 1];
      StepGrows(cfg, v, e);
      if i < |v.log| {
        assert w.log[..i] == v.log[..i];
        FirstComeFirstServed(cfg, evs[..|evs| - 1], v, b, i);
      } else {
        BucketHolds(cfg, evs[..|evs| - 1], v, b);
        TidyHolds(cfg, evs[..|evs| - 1], v);
        NextInLine(cfg, v, e, b, i);
        assert w.log[..i] == v.log;
      }
    }
  }

  lemma OneMore(cfg: Config, w: World, b: Bucket, i: nat)
    requires Tidy(cfg, w) && i < |w.log| && w.log[i].Counted? && w.log[i].bucket == b
    ensures |Counters(w.log[..i + 1], b)| == |Counters(w.log[..i], b)| + 1
  {
    hide SessionTidy, Counters;
    assert FactTidy(w.log, w.next, w.active, i);
    assert w.log[..i + 1] == w.log[..i] + [w.log[i]];
    CountersAppend(w.log[..i], w.log[i], b);
    NotCounter(w.log[..i], w.log[i].id, b);
  }

  /** What the limiter tells a caller whose INCR returned `f.count` at the clock reading `f.readAt`. */
  function Told(cfg: Config, f: Fact): RateLimit.Verdict
    requires f.Counted?
  {
    RateLimit.Judge(cfg.limit, f.count, f.readAt)
  }

  /** The header kept: of the INCRs of a bucket that come after a caller's, in every run that is prompt for it,
      exactly as many get a unit as the caller was told remain: the `k`-th does if and only if `k` is at most
      `Remaining`. */
  lemma RemainingIsPromise(cfg: Config, evs: seq<Event>, w: World, b: Bucket, i: nat, j: nat)
    requires Reaches(cfg, evs, w) && Prompt(cfg, evs, b) && i < j < |w.log|
    requires w.log[i].Counted? && w.log[i].bucket == b && w.log[j].Counted? && w.log[j].bucket == b
    ensures var k := |Counters(w.log[..j + 1], b)| - |Counters(w.log[..i + 1], b)|;
            k > 0 && (w.log[j].allowed <==> k <= Told(cfg, w.log[i]).remaining)
  {
    hide Tidy, Counters, Exec;
    FirstComeFirstServed(cfg, evs, w, b, i);
    FirstComeFirstServed(cfg, evs, w, b, j);
    TidyHolds(cfg, evs, w);
    OneMore(cfg, w, b, i);
    OneMore(cfg, w, b, j);
    CountersUpTo(w.log, i + 1, j, b);
  }

  lemma CountersUpTo(log: seq<Fact>, m: nat, n: nat, b: Bucket)
    requires m <= n <= |log|
    ensures |Counters(log[..m], b)| <= |Counters(log[..n], b)|
  {
    hide Counters;
    forall x | x in Counters(log[..m], b) ensures x in Counters(log[..n], b) {
      CountersGrow(log[..m], log[..n], x, b);
    }
    SubsetSize(Counters(log[..m], b), Counters(log[..n], b));
  }

  /** Whoever called the extractor on a bucket had been let through in it, in every run. */
  lemma CallersWereAdmitted(cfg: Config, evs: seq<Event>, w: World, b: Bucket)
    requires Reaches(cfg, evs, w)
    ensures Callers(w.log, b) <= Admitted(w.log, b)
  {
    hide SessionTidy;
    TidyHolds(cfg, evs, w);
    forall x | x in Callers(w.log, b) ensures x in Admitted(w.log, b) {
      var i :| 0 <= i < |w.log| && w.log[i].Called? && w.log[i].bucket == b && w.log[i].id == x;
      assert FactTidy(w.log, w.next, w.active, i);
      var k :| 0 <= k < |w.log| && w.log[k].Counted? && w.log[k].id == x && w.log[k].bucket == b && w.log[k].allowed
        && w.log[k].heard;
      assert w.log[k].id == x;
    }
  }

  lemma SubsetSize(a: set<nat>, b: set<nat>)
    requires a <= b
    ensures |a| <= |b|
  {
    if a != {} {
      var x :| x in a;
      SubsetSize(a - {x}, b - {x});
    }
  }

  /** Upstream attempts, and seconds of back-off, charged to a bucket. */
  function Attempts(log: seq<Fact>, b: Bucket): nat {
    if log == [] then 0
    else
      var f := log[|log| - 1];
      Attempts(log[..|log| - 1], b) + (if f.Called? && f.bucket == b then f.attempts else 0)
  }

  function Backoff(log: seq<Fact>, b: Bucket): nat {
    if log == [] then 0
    else
      var f := log[|log| - 1];
      Backoff(log[..|log| - 1], b) + (if f.Called? && f.bucket == b then f.backoff else 0)
  }

  lemma {:induction false} CostPerCaller(w: World, b: Bucket, n: nat)
    requires n <= |w.log| && forall i :: 0 <= i < |w.log| ==> FactTidy(w.log, w.next, w.active, i)
    ensures Attempts(w.log[..n], b) <= 6 * |Callers(w.log[..n], b)|
    ensures Backoff(w.log[..n], b) <= 18 * |Callers(w.log[..n], b)|
  {
    if n > 0 {
      CostPerCaller(w, b, n - 1);
      var a, f := w.log[..n - 1], w.log[n - 1];
      assert FactTidy(w.log, w.next, w.active, n - 1);
      assert w.log[..n] == a + [f] && w.log[..n][..n - 1] == a;
      CallersAppend(a, f, b);
      if f.Called? {
        FirstCall(a, f.id, b);
      }
    }
  }

  lemma FirstCall(log: seq<Fact>, id: nat, b: Bucket)
    requires NeverCalled(log, id)
    ensures id !in Callers(log, b)
  {
  }

  /** In every prompt run the limit bounds what a principal costs per window: extractor calls by the
      limit, upstream attempts by six times and back-off by 18 seconds times the limit. */
  lemma CostIsBounded(cfg: Config, evs: seq<Event>, w: World, b: Bucket)
    requires Reaches(cfg, evs, w) && Prompt(cfg, evs, b)
    ensures |Callers(w.log, b)| <= cfg.limit
    ensures Attempts(w.log, b) <= 6 * cfg.limit
    ensures Backoff(w.log, b) <= 18 * cfg.limit
  {
    hide SessionTidy, FactTidy;
    QuotaIsExact(cfg, evs, w, b);
    CallersWereAdmitted(cfg, evs, w, b);
    SubsetSize(Callers(w.log, b), Admitted(w.log, b));
    TidyHolds(cfg, evs, w);
    CostPerCaller(w, b, |w.log|);
    assert w.log[..|w.log|] == w.log;
  }

  /** A request answered from the cache never counts against any quota, in every run. */
  lemma HitsAreFree(cfg: Config, evs: seq<Event>, w: World, i: nat, b: Bucket)
    requires Reaches(cfg, evs, w)
    requires i < |w.log| && w.log[i].Replied? && w.log[i].result.meta.cache == "hit"
    ensures w.log[i].id !in Counters(w.log, b) && w.log[i].id !in Callers(w.log, b)
  {
    hide SessionTidy;
    TidyHolds(cfg, evs, w);
    assert FactTidy(w.log, w.next, w.active, i);
    NotCounter(w.log, w.log[i].id, b);
    CallersWereAdmitted(cfg, evs, w, b);
  }

  /** Requests of a principal let through with a clock reading in the minute from `t` on. */
  ghost function AdmittedInSpan(log: seq<Fact>, kind: Kind, who: string, t: nat): set<nat> {
    set i | 0 <= i < |log| && log[i].Counted? && log[i].allowed && log[i].heard
            && log[i].bucket.kind == kind && log[i].bucket.id == who && t <= log[i].readAt < t + MINUTE :: log[i].id
  }

  lemma SpanWindows(t: nat, r: nat)
    requires t <= r < t + MINUTE
    ensures WindowOf(r) == WindowOf(t) || WindowOf(r) == WindowOf(t) + 60
  {
    assert t / MINUTE <= r / MINUTE <= t / MINUTE + 1;
  }

  /** Any 60-second span, aligned or not, lets at most twice the limit through per principal. */
  lemma SpanAdmitsTwice(cfg: Config, evs: seq<Event>, w: World, kind: Kind, who: string, t: nat)
    requires Reaches(cfg, evs, w)
    requires Prompt(cfg, evs, Bucket(kind, who, WindowOf(t))) && Prompt(cfg, evs, Bucket(kind, who, WindowOf(t) + 60))
    ensures |AdmittedInSpan(w.log, kind, who, t)| <= 2 * cfg.limit
  {
    hide SessionTidy, WindowOf;
    var a, b := Bucket(kind, who, WindowOf(t)), Bucket(kind, who, WindowOf(t) + 60);
    var span := AdmittedInSpan(w.log, kind, who, t);
    TidyHolds(cfg, evs, w);
    forall x | x in span ensures x in Admitted(w.log, a) + Admitted(w.log, b) {
      var i :| 0 <= i < |w.log| && w.log[i].Counted? && w.log[i].allowed && w.log[i].heard
        && w.log[i].bucket.kind == kind && w.log[i].bucket.id == who && t <= w.log[i].readAt < t + MINUTE
             && w.log[i].id == x;
      assert FactTidy(w.log, w.next, w.active, i);
      SpanWindows(t, w.log[i].readAt);
      assert w.log[i].bucket == a || w.log[i].bucket == b;
    }
    SubsetSize(span, Admitted(w.log, a) + Admitted(w.log, b));
    UnionSize(Admitted(w.log, a), Admitted(w.log, b));
    QuotaIsExact(cfg, evs, w, a);
    QuotaIsExact(cfg, evs, w, b);
  }

  lemma UnionSize(a: set<nat>, b: set<nat>)
    ensures |a + b| <= |a| + |b|
  {
    assert a + b == a + (b - a);
    SubsetSize(b - a, b);
  }
}
