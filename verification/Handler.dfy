/** `Server.extract` as the source has it: one method that changes the cache, the table, the consent
    log and the counters in place. Each of its effects is one step of the protocol, so a call is one run of
    a single request. */
module Handler {
  import opened Text
  import opened Domain
  import opened Identity
  import opened RedisModel
  import opened Keys
  import opened Upstream
  import opened Protocol
  import opened RateLimit
  import Extractor
  import Store

  /** How the surroundings behave during one call. */
  datatype Weather = Weather(
    valid: bool, consentFails: bool, getFails: bool, delFails: bool, incr: Outcome, expireFails: bool,
    prepared: Option<Document>, first: ChatScript, repair: ChatScript, tx: Outcome, setFails: bool)

  /** Outcome of the two read endpoints: 503, 401, 500, 404, or rows. */
  datatype Reading = Unavailable | NoActor | ReadFailed | Missing | Rows(ids: seq<nat>)

  /** The transaction and the cache write work. */
  predicate Writes(weather: Weather) { weather.tx.Works? && !weather.setFails }

  /** The last step before the answer works. */
  predicate EndsWorking(es: seq<Event>) { |es| >= 2 && es[|es| - 2].Act? && es[|es| - 2].how.Ok? }

  function HowOf(fails: bool): How { if fails then Fail else Ok }

  function HowEnds(o: Outcome): How { match o case Works => Ok case Breaks => Fail case Unheard => Late }

  /** `es` is a run of request `id` alone from `w0` to `w1`. */
  ghost predicate Ran(cfg: Config, id: nat, w0: World, es: seq<Event>, w1: World) {
    Own(id, es) && Exec(cfg, w0, es) == Some(w1)
  }

  lemma RanOn(cfg: Config, id: nat, w0: World, a: seq<Event>, w1: World, b: seq<Event>, w2: World)
    requires Ran(cfg, id, w0, a, w1) && Ran(cfg, id, w1, b, w2)
    ensures Ran(cfg, id, w0, a + b, w2)
  {
    ExecConcat(cfg, w0, a, w1, b, w2);
  }

  lemma NoMore(cfg: Config, id: nat, w: World)
    ensures Ran(cfg, id, w, [], w)
  {
  }

  /** An arrival and the run of the request that it starts. */
  lemma ArriveFirst(cfg: Config, w: World, req: Request, valid: bool, id: nat, more: seq<Event>, w': World)
    requires Ran(cfg, id, Arrived(cfg, w, req, valid), more, w')
    ensures var evs := [Arrive(req, valid)] + more;
            Exec(cfg, w, evs) == Some(w') && evs[0] == Arrive(req, valid) && Own(id, evs[1..])
  {
    hide Arrived;
    var e := Arrive(req, valid);
    ExecOne(cfg, w, e);
    ExecConcat(cfg, w, [e], Arrived(cfg, w, req, valid), more, w');
    assert ([e] + more)[1..] == more;
  }

  /** The world after the counting step and the expiring step it may lead to. */
  function Charged(cfg: Config, w: World, id: nat, incr: Outcome, expireFails: bool): World
    requires id in w.active && w.active[id].pc.Counting?
  {
    var w1 := CountStep(cfg, w, id, w.active[id].pc.readAt, HowEnds(incr));
    if id in w1.active && w1.active[id].pc.Expiring?
    then ExpireStep(cfg, w1, id, w1.active[id].pc.readAt, w1.active[id].pc.allowed, HowOf(expireFails))
    else w1
  }

  lemma ChargeRuns(cfg: Config, w: World, id: nat, incr: Outcome, expireFails: bool) returns (es: seq<Event>)
    requires id in w.active && w.active[id].pc.Counting?
    ensures Ran(cfg, id, w, es, Charged(cfg, w, id, incr, expireFails))
  {
    hide CountStep, ExpireStep;
    var e := Act(id, HowEnds(incr));
    es := [e];
    ExecOne(cfg, w, e);
    var w1 := Next(cfg, w, e);
    if id in w1.active && w1.active[id].pc.Expiring? {
      ExecMore(cfg, w, es, w1, Act(id, HowOf(expireFails)));
      es := es + [Act(id, HowOf(expireFails))];
    }
  }

  /** The verdict that a caller was given is the limiter's on the count just logged for it. */
  predicate IsTold(cfg: Config, before: seq<Fact>, log: seq<Fact>, id: nat, b: Bucket, v: Verdict) {
    && |before| < |log| && log[|before|].Counted? && log[|before|].heard && log[|before|].id == id
    && log[|before|].bucket == b && v == Judge(cfg.limit, log[|before|].count, log[|before|].readAt)
  }

  class Server {
    const cfg: Config
    const rdb: RedisServer
    const store: Store.Extractions
    const limiter: Limiter
    var log: seq<Fact>
    var next: nat
    ghost var active: map<nat, Session>

    ghost predicate Valid()
      reads this
    {
      limiter.rdb == rdb && limiter.limit == cfg.limit && forall id :: id in active ==> id < next
    }

    /** The protocol's view of the server. */
    ghost function W(): World
      reads this, rdb, store
    {
      World(rdb.now, rdb.data, store.rows, log, next, active)
    }

    constructor (cfg: Config, limiter: Limiter)
      requires limiter.rdb != null && limiter.limit == cfg.limit
      ensures Valid() && this.cfg == cfg && rdb == limiter.rdb && fresh(store)
      ensures log == [] && next == 0 && active == map[] && store.rows == []
    {
      this.cfg := cfg;
      this.limiter := limiter;
      this.rdb := limiter.rdb;
      this.store := new Store.Extractions();
      log, next, active := [], 0, map[];
    }

    /** Inserts the consent row; a failure is only logged. */
    method RecordConsent(id: nat, req: Request, fails: bool) returns (ghost es: seq<Event>)
      requires Valid() && id in active && active[id] == Session(req, Consenting)
      modifies this`log, this`active
      ensures Valid() && Ran(cfg, id, old(W()), es, W())
      ensures active == old(active)[id := Session(req, if Refreshes(cfg, req) then Invalidating else Looking)]
                && |es| == 1
    {
      hide Refreshes, ConsentOf;
      ghost var w := W();
      var f := if cfg.hasConsents && !fails then Consented(id, ConsentOf(cfg, req)) else ConsentLost(id);
      log := log + [f];
      active := active[id := Session(req, if Refreshes(cfg, req) then Invalidating else Looking)];
      es := [Act(id, HowOf(fails))];
      ExecOne(cfg, w, es[0]);
    }

    /** `lookupCache`: a GET, and a DEL of an entry that does not decode. */
    method LookupCache(id: nat, req: Request, getFails: bool, delFails: bool)
      returns (cached: Option<Result>, ghost es: seq<Event>)
      requires Valid() && id in active && active[id] == Session(req, Looking)
      modifies this`active, rdb`data
      ensures Valid() && Ran(cfg, id, old(W()), es, W())
      ensures active == old(active)[id := Session(req,
                if cached.Some? then Committing(Stamp(cached.value, cfg.sha(req.content), "hit"), false) else Clocking)]
      ensures es != [] && es[0] == Act(id, HowOf(getFails))
    {
      hide CacheKeyOf;
      ghost var w := W();
      var key := CacheKeyOf(cfg, req);
      es := [Act(id, HowOf(getFails))];
      ExecOne(cfg, w, es[0]);
      if !cfg.hasCache || getFails {
        active := active[id := Session(req, Clocking)];
        return None, es;
      }
      var raw := Get(rdb.data, key, rdb.now);
      match raw {
        case None =>
          active := active[id := Session(req, Clocking)];
          return None, es;
        case Some(Payload(r)) =>
          active := active[id := Session(req, Committing(Stamp(r, cfg.sha(req.content), "hit"), false))];
          return Some(r), es;
        case Some(_) =>
          active := active[id := Session(req, Purging)];
          ghost var w1 := W();
          if !delFails {
            rdb.data := rdb.data - {key};
          }
          active := active[id := Session(req, Clocking)];
          ExecMore(cfg, w, es, w1, Act(id, HowOf(delFails)));
          es := es + [Act(id, HowOf(delFails))];
          return None, es;
      }
    }

    /** `invalidateCache`. */
    method InvalidateCache(id: nat, req: Request, fails: bool) returns (ghost es: seq<Event>)
      requires Valid() && id in active && active[id] == Session(req, Invalidating)
      modifies this`active, rdb`data
      ensures Valid() && Ran(cfg, id, old(W()), es, W())
      ensures active == old(active)[id := Session(req, Clocking)] && es == [Act(id, HowOf(fails))]
    {
      hide CacheKeyOf;
      ghost var w := W();
      if cfg.hasCache && !fails {
        rdb.data := rdb.data - {CacheKeyOf(cfg, req)};
      }
      active := active[id := Session(req, Clocking)];
      es := [Act(id, HowOf(fails))];
      ExecOne(cfg, w, es[0]);
    }

    /** The limiter's INCR and EXPIRE, and the decision. */
    method Charge(id: nat, req: Request, b: Bucket, incr: Outcome, expireFails: bool)
      returns (ok: bool, told: Option<Verdict>, ghost es: seq<Event>)
      requires Valid() && id in active && active[id] == Session(req, Counting(rdb.now))
                 && b == BucketOf(cfg, req, rdb.now)
      modifies this`log, this`active, rdb
      ensures Valid() && Ran(cfg, id, old(W()), es, W())
      ensures active == (if ok then old(active)[id := Session(req, Preparing(b))] else old(active) - {id})
                && rdb.now == old(rdb.now)
      ensures !ok ==> EndsRefused(log, id)
      ensures ok <==> told.Some? && told.value.allowed
      ensures told.Some? ==> IsTold(cfg, old(log), log, id, b, told.value)
    {
      hide BucketOf, LimitKey, KindName, Incr, Expire, Ran;
      BucketParts(cfg, req, rdb.now);
      ghost var w := W();
      var m := Incr(rdb.data, BucketKey(b), rdb.now);
      es := ChargeRuns(cfg, w, id, incr, expireFails);
      var v := limiter.Allow(KindName(b.kind), b.id, incr, expireFails);
      if m.Some? && !incr.Breaks? {
        log := log + [Counted(id, b, rdb.now, m.value.1, m.value.1 <= cfg.limit, incr.Works?)];
      }
      told := v;
      ok := v.Some? && v.value.allowed;
      if ok {
        active := active[id := Session(req, Preparing(b))];
      } else {
        log := log + [Refused(id, if v.None? then LimiterDown else RateLimited)];
        active := active - {id};
      }
      assert W() == Charged(cfg, w, id, incr, expireFails);
    }

    /** `enforceLLMRateLimit`: one quota unit of the attributed user, or a refusal. */
    method EnforceRateLimit(id: nat, req: Request, incr: Outcome, expireFails: bool)
      returns (bucket: Option<Bucket>, told: Option<Verdict>, ghost es: seq<Event>)
      requires Valid() && id in active && active[id] == Session(req, Clocking)
      modifies this`log, this`active, rdb
      ensures Valid() && Ran(cfg, id, old(W()), es, W())
      ensures active == if bucket.Some? then old(active)[id := Session(req, Preparing(bucket.value))]
                else old(active) - {id}
      ensures bucket.None? ==> EndsRefused(log, id)
      ensures bucket.Some? ==> told.Some? && told.value.allowed
      ensures told.Some? ==> IsTold(cfg, old(log), log, id, BucketOf(cfg, req, old(rdb.now)), told.value)
    {
      hide QuotaId, CountStep, ExpireStep, BucketOf;
      ghost var w := W();
      var who := QuotaId(cfg.secret, req.principal, req.headers);
      es := [Act(id, Ok)];
      ExecOne(cfg, w, es[0]);
      if who == "" {
        log := log + [Refused(id, Unauthorized)];
        active := active - {id};
        return None, None, es;
      }
      active := active[id := Session(req, Counting(rdb.now))];
      ghost var w1 := W();
      var b := Bucket(req.principal.kind, who, WindowOf(rdb.now));
      BucketParts(cfg, req, rdb.now);
      var ok, verdict, more := Charge(id, req, b, incr, expireFails);
      RanOn(cfg, id, w, es, w1, more, W());
      es := es + more;
      return if ok then Some(b) else None, verdict, es;
    }

    /** Preprocessing, then the extractor. */
    method PrepareAndExtract(id: nat, req: Request, b: Bucket, weather: Weather)
      returns (result: Option<Result>, ghost es: seq<Event>)
      requires Valid() && id in active && active[id] == Session(req, Preparing(b))
      modifies this`log, this`active
      ensures Valid() && Ran(cfg, id, old(W()), es, W())
      ensures active ==
                if result.Some?
                then old(active)[id := Session(req, Committing(Stamp(result.value, cfg.sha(req.content), "miss"),
                  Refreshes(cfg, req)))]
                else old(active) - {id}
      ensures result.None? ==> EndsRefused(log, id)
    {
      hide Extractor.Extract, DocTypeOf, ActorOf, Refreshes;
      ghost var w := W();
      if weather.prepared.None? {
        log := log + [Refused(id, Unprepared)];
        active := active - {id};
        es := [Act(id, Fail)];
        ExecOne(cfg, w, es[0]);
        return None, es;
      }
      var doc := weather.prepared.value;
      es := [Act(id, Prepared(doc))];
      ExecOne(cfg, w, es[0]);
      active := active[id := Session(req, Extracting(b, doc))];
      ghost var w1 := W();
      var call := Act(id, Scripted(weather.first, weather.repair));
      ExecMore(cfg, w, es, w1, call);
      es := es + [call];
      var o := Extractor.Extract(cfg.svc, DocTypeOf(req), doc, weather.first, weather.repair);
      result := if o.out.Done? then Some(o.out.result) else None;
      log := log + [Called(id, b, ActorOf(cfg, req).subject, DocTypeOf(req), req.content, result, o.attempts,
        o.backoff)];
      if result.None? {
        log := log + [Refused(id, ExtractFailed)];
        active := active - {id};
        return None, es;
      }
      active := active[id := Session(req, Committing(Stamp(result.value, cfg.sha(req.content), "miss"),
        Refreshes(cfg, req)))];
    }

    /** The transaction of `persist`. */
    method StoreRow(id: nat, req: Request, result: Result, replace: bool, tx: Outcome)
      returns (ok: bool, ghost es: seq<Event>)
      requires Valid() && id in active && active[id] == Session(req, Committing(result, replace))
      modifies this`log, this`active, store
      ensures Valid() && Ran(cfg, id, old(W()), es, W())
      ensures active == old(active)[id := Session(req, if ok then Caching(result) else Replying(result))]
      ensures ok == (!cfg.hasStore || tx.Works?)
    {
      hide TxOf, Store.Commit, RecordOf, Store.Evolves, Store.Active, Store.KeyOf;
      ghost var w := W();
      es := [Act(id, HowEnds(tx))];
      ExecOne(cfg, w, es[0]);
      TxParts(cfg, rdb.now, req, result, replace);
      ok := true;
      if cfg.hasStore {
        var rec := RecordOf(cfg, req, result);
        ok := store.Persist(rec, replace, rdb.now, tx);
        if !tx.Breaks? {
          log := log + [Stored(id, Store.Tx(rec, replace, rdb.now))];
        }
      }
      active := active[id := Session(req, if ok then Caching(result) else Replying(result))];
      assert W() == CommitStep(cfg, w, id, result, replace, HowEnds(tx));
    }

    /** The cache write of `persist`, with `Meta.Cache` cleared. */
    method WriteCache(id: nat, req: Request, result: Result, fails: bool) returns (ghost es: seq<Event>)
      requires Valid() && id in active && active[id] == Session(req, Caching(result))
      modifies this`active, rdb`data
      ensures Valid() && Ran(cfg, id, old(W()), es, W())
      ensures active == old(active)[id := Session(req, Replying(result))] && es == [Act(id, HowOf(fails))]
    {
      hide CacheKeyOf;
      ghost var w := W();
      if cfg.hasCache && !fails {
        rdb.data := SetEx(rdb.data, CacheKeyOf(cfg, req), Payload(Uncached(result)), rdb.now, cfg.ttl);
      }
      active := active[id := Session(req, Replying(result))];
      es := [Act(id, HowOf(fails))];
      ExecOne(cfg, w, es[0]);
    }

    method Reply(id: nat, req: Request, result: Result) returns (answer: Response, ghost es: seq<Event>)
      requires Valid() && id in active && active[id] == Session(req, Replying(result))
      modifies this`log, this`active
      ensures Valid() && Ran(cfg, id, old(W()), es, W())
      ensures active == old(active) - {id}
      ensures answer == ToResponse(result) && Answered200(log, id, req, answer) && |es| == 1
    {
      hide DocTypeOf;
      ghost var w := W();
      log := log + [Replied(id, DocTypeOf(req), req.content, result)];
      active := active - {id};
      es := [Act(id, Ok)];
      ExecOne(cfg, w, es[0]);
      answer := ToResponse(result);
    }

    /** `persist` and the answer: the cache is written only if the transaction went through or no store is
        configured; a failed transaction still answers 200. */
    method PersistAndReply(id: nat, req: Request, result: Result, replace: bool, tx: Outcome, setFails: bool)
      returns (answer: Response, ghost es: seq<Event>)
      requires Valid() && id in active && active[id] == Session(req, Committing(result, replace))
      modifies this`log, this`active, rdb`data, store
      ensures Valid() && Ran(cfg, id, old(W()), es, W())
      ensures active == old(active) - {id}
      ensures answer == ToResponse(result) && Answered200(log, id, req, answer)
      ensures tx.Works? && !setFails ==> EndsWorking(es)
    {
      hide Refreshes, Ran, Answered200, EndsRefused, Stamp, BucketOf;
      ghost var w, more := W(), [];
      var ok;
      ok, es := StoreRow(id, req, result, replace, tx);
      ghost var w1 := W();
      if ok {
        more := WriteCache(id, req, result, setFails);
        RanOn(cfg, id, w, es, w1, more, W());
        es := es + more;
      }
      w1 := W();
      answer, more := Reply(id, req, result);
      RanOn(cfg, id, w, es, w1, more, W());
      es := es + more;
    }

    /** The part of the handler behind the cache: quota, extraction, persistence, answer. */
    method ExtractMiss(id: nat, req: Request, weather: Weather) returns (answer: Option<Response>, ghost es: seq<Event>)
      requires Valid() && id in active && active[id] == Session(req, Clocking)
      modifies this`log, this`active, rdb, store
      ensures Valid() && Ran(cfg, id, old(W()), es, W())
      ensures active == old(active) - {id}
      ensures answer.Some? ==> Answered200(log, id, req, answer.value)
      ensures answer.None? ==> EndsRefused(log, id)
      ensures answer.Some? && Writes(weather) ==> EndsWorking(es)
    {
      hide Refreshes, Ran, Answered200, EndsRefused, Stamp, BucketOf;
      ghost var w, more := W(), [];
      var bucket, told;
      bucket, told, es := EnforceRateLimit(id, req, weather.incr, weather.expireFails);
      if bucket.None? {
        return None, es;
      }
      ghost var w1 := W();
      var result;
      result, more := PrepareAndExtract(id, req, bucket.value, weather);
      RanOn(cfg, id, w, es, w1, more, W());
      es := es + more;
      if result.None? {
        return None, es;
      }
      w1 := W();
      var stamped := Stamp(result.value, cfg.sha(req.content), "miss");
      var body;
      body, more := PersistAndReply(id, req, stamped, Refreshes(cfg, req), weather.tx, weather.setFails);
      RanOn(cfg, id, w, es, w1, more, W());
      es := es + more;
      answer := Some(body);
    }

    /** The handler: a request that passes the checks leaves its consent, is answered from the cache if
        it may be, and otherwise pays one quota unit for an extraction that it stores, caches and answers
        with. The call is exactly one run of one request of the protocol, and leaves no session behind. */
    method Extract(req: Request, weather: Weather) returns (answer: Option<Response>, ghost evs: seq<Event>)
      requires Valid()
      modifies this, rdb, store
      ensures Valid() && active == old(active) && next == old(next) + 1
      ensures Exec(cfg, old(W()), evs) == Some(W())
      ensures evs != [] && evs[0] == Arrive(req, weather.valid) && Own(old(next), evs[1..])
      ensures answer.Some? ==> Answered200(log, old(next), req, answer.value)
      ensures answer.None? ==> EndsRefused(log, old(next))
      ensures answer.Some? && Writes(weather) ==> EndsWorking(evs)
      ensures |evs| > 2 ==> evs[2] == Act(old(next),
                HowOf(if Refreshes(cfg, req) then weather.delFails else weather.getFails))
    {
      hide Admissible, Refreshes, Exec, Own, Ran, Answered200, Next;
      ghost var w := W();
      var id := next;
      next := next + 1;
      NoMore(cfg, id, Arrived(cfg, w, req, weather.valid));
      ghost var more;
      if !Admissible(cfg, req, weather.valid) {
        log := log + [Refused(id, BadRequest)];
        answer, more := None, [];
      } else {
        active := active[id := Session(req, Consenting)];
        assert W() == Arrived(cfg, w, req, weather.valid);
        answer, more := Handle(id, req, weather);
      }
      evs := [Arrive(req, weather.valid)] + more;
      ArriveFirst(cfg, w, req, weather.valid, id, more, W());
    }

    /** `listExtractions`: a page of the caller's active rows of the type, newest first, complete unless full.
        An actor of white space only is let through to the store and fails there. */
    method ListExtractions(p: Principal, h: Headers, docTypeParam: string, fails: bool) returns (r: Reading)
      ensures r.Unavailable? <==> !cfg.hasStore
      ensures r.NoActor? <==> cfg.hasStore && ResolveActor(cfg.secret, p, h).subject == ""
      ensures var subject := ResolveActor(cfg.secret, p, h).subject;
              r.ReadFailed? <==> cfg.hasStore && subject != "" && (fails || TrimSpace(subject) == "")
      ensures !r.Missing?
      ensures r.Rows? ==>
                Store.IsPage(store.rows, r.ids, TrimSpace(ResolveActor(cfg.secret, p, h).subject),
                  TrimSpace(docTypeParam), 20)
      ensures r.Rows? && Store.ByTime(store.rows) ==>
                forall j, k :: 0 <= j < k < |r.ids| ==> store.rows[r.ids[j]].created >= store.rows[r.ids[k]].created
    {
      hide TrimSpace, ResolveActor, Store.ListSpec, Store.Visible;
      if !cfg.hasStore {
        return Unavailable;
      }
      var subject := ResolveActor(cfg.secret, p, h).subject;
      if subject == "" {
        return NoActor;
      }
      var l := store.ListBySubject(subject, TrimSpace(docTypeParam), 20);
      if fails || l.SubjectRequired? {
        return ReadFailed;
      }
      return Rows(l.ids);
    }

    /** `getExtraction`: the row, if it is active and the caller's own; to anyone else it is missing. */
    method GetExtraction(p: Principal, h: Headers, id: nat, fails: bool) returns (r: Reading)
      ensures r.Unavailable? <==> !cfg.hasStore
      ensures r.NoActor? <==> cfg.hasStore && ResolveActor(cfg.secret, p, h).subject == ""
      ensures var subject := ResolveActor(cfg.secret, p, h).subject;
              r.ReadFailed? <==> cfg.hasStore && subject != "" && (fails || TrimSpace(subject) == "")
      ensures r.Rows? ==> r.ids == [id] && Store.Owned(store.rows, id,
                TrimSpace(ResolveActor(cfg.secret, p, h).subject))
      ensures var subject := ResolveActor(cfg.secret, p, h).subject;
              r.Missing? <==> cfg.hasStore && !fails && TrimSpace(subject) != "" && subject != ""
                              && (id >= |store.rows| || store.rows[id].deleted
                                   || store.rows[id].subject != Some(TrimSpace(subject)))
    {
      hide TrimSpace, ResolveActor;
      if !cfg.hasStore {
        return Unavailable;
      }
      var subject := ResolveActor(cfg.secret, p, h).subject;
      if subject == "" {
        return NoActor;
      }
      var f := store.GetByIDForSubject(id, subject);
      if fails || f.ArgumentRequired? {
        return ReadFailed;
      }
      if f.NotFound? {
        return Missing;
      }
      return Rows([id]);
    }

    /** An admitted request, from its consent to its answer or refusal. */
    method Handle(id: nat, req: Request, weather: Weather) returns (answer: Option<Response>, ghost es: seq<Event>)
      requires Valid() && id in active && active[id] == Session(req, Consenting)
      modifies this`log, this`active, rdb, store
      ensures Valid() && Ran(cfg, id, old(W()), es, W())
      ensures active == old(active) - {id}
      ensures answer.Some? ==> Answered200(log, id, req, answer.value)
      ensures answer.None? ==> EndsRefused(log, id)
      ensures |es| >= 2 && es[1] == Act(id, HowOf(if Refreshes(cfg, req) then weather.delFails else weather.getFails))
      ensures answer.Some? && Writes(weather) ==> EndsWorking(es)
    {
      hide Refreshes, Ran, Answered200, EndsRefused, HowOf;
      ghost var w := W();
      es := RecordConsent(id, req, weather.consentFails);
      ghost var w1, more := W(), [];
      if !Refreshes(cfg, req) {
        answer, more := AskCache(id, req, weather);
      } else {
        answer, more := AskAnew(id, req, weather);
      }
      RanOn(cfg, id, w, es, w1, more, W());
      es := es + more;
    }

    /** Without refresh: a hit is stored again and answered, anything else goes on as a miss. */
    method AskCache(id: nat, req: Request, weather: Weather) returns (answer: Option<Response>, ghost es: seq<Event>)
      requires Valid() && id in active && active[id] == Session(req, Looking)
      modifies this`log, this`active, rdb, store
      ensures Valid() && Ran(cfg, id, old(W()), es, W())
      ensures active == old(active) - {id}
      ensures answer.Some? ==> Answered200(log, id, req, answer.value)
      ensures answer.None? ==> EndsRefused(log, id)
      ensures es != [] && es[0] == Act(id, HowOf(weather.getFails))
      ensures answer.Some? && Writes(weather) ==> EndsWorking(es)
    {
      hide Refreshes, Ran, Answered200, EndsRefused, Stamp, HowOf;
      ghost var w, more := W(), [];
      var cached;
      cached, es := LookupCache(id, req, weather.getFails, weather.delFails);
      ghost var w1 := W();
      if cached.Some? {
        var hit := Stamp(cached.value, cfg.sha(req.content), "hit");
        var body;
        body, more := PersistAndReply(id, req, hit, false, weather.tx, weather.setFails);
        answer := Some(body);
      } else {
        answer, more := ExtractMiss(id, req, weather);
      }
      RanOn(cfg, id, w, es, w1, more, W());
      es := es + more;
    }

    /** With refresh: the entry is deleted and the request goes on as a miss. */
    method AskAnew(id: nat, req: Request, weather: Weather) returns (answer: Option<Response>, ghost es: seq<Event>)
      requires Valid() && id in active && active[id] == Session(req, Invalidating)
      modifies this`log, this`active, rdb, store
      ensures Valid() && Ran(cfg, id, old(W()), es, W())
      ensures active == old(active) - {id}
      ensures answer.Some? ==> Answered200(log, id, req, answer.value)
      ensures answer.None? ==> EndsRefused(log, id)
      ensures es != [] && es[0] == Act(id, HowOf(weather.delFails))
      ensures answer.Some? && Writes(weather) ==> EndsWorking(es)
    {
      hide Refreshes, Ran, Answered200, EndsRefused, HowOf;
      ghost var w, more := W(), [];
      es := InvalidateCache(id, req, weather.delFails);
      ghost var w1 := W();
      answer, more := ExtractMiss(id, req, weather);
      RanOn(cfg, id, w, es, w1, more, W());
      es := es + more;
    }
  }

  /** The last thing logged is the 200 answer of request `id`, for its document type and content. */
  predicate Answered200(log: seq<Fact>, id: nat, req: Request, answer: Response) {
    log != [] && IsAnswer(log[|log| - 1], id, req, answer)
  }

  predicate IsAnswer(f: Fact, id: nat, req: Request, answer: Response) {
    && f.Replied? && f.id == id && f.docType == DocTypeOf(req) && f.content == req.content
    && ToResponse(f.result) == answer
  }

  /** The last thing logged is the refusal of request `id`. */
  predicate EndsRefused(log: seq<Fact>, id: nat) {
    log != [] && log[|log| - 1].Refused? && log[|log| - 1].id == id
  }

  lemma BucketParts(cfg: Config, req: Request, t: nat)
    ensures BucketOf(cfg, req, t) ==
            Bucket(req.principal.kind, QuotaId(cfg.secret, req.principal, req.headers), t / MINUTE * 60)
    ensures var b := BucketOf(cfg, req, t); BucketKey(b) == LimitKey(KindName(b.kind), b.id, t / MINUTE * 60)
  {
  }

  lemma TxParts(cfg: Config, now: nat, req: Request, result: Result, replace: bool)
    ensures TxOf(cfg, now, req, result, replace) == Store.Tx(RecordOf(cfg, req, result), replace, now)
  {
  }
}
