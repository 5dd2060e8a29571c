/** A server that is called again and again: the theorems about runs, applied to what the handler returns. */
module Sequence {
  import opened Domain
  import opened RedisModel
  import opened Protocol
  import opened Provenance
  import opened Freshness
  import opened Handler
  import opened Turns
  import Outcomes
  import Store

  /** One call of the handler, or something that happens to Redis between two calls. */
  datatype Call = Ask(req: Request, weather: Weather) | Wait(d: nat) | Lose(key: string) | Damage(key: string)

  predicate AsksFor(cfg: Config, c: Call, d: string, h: Digest) { c.Ask? && IsFor(cfg, c.req, d, h) }

  /** The cache read and the cache delete of the call go through, or its transaction and its cache write do. */
  predicate Steady(c: Call) {
    c.Ask? ==> (!c.weather.getFails && !c.weather.delFails) || Writes(c.weather)
  }

  predicate EventBetween(e: Event) { e.Tick? || e.Evict? || e.Spoil? }

  // ---- calls in turn are an orderly run ----

  /** What a call of the handler says of its events. */
  ghost predicate CalledWith(cfg: Config, w: World, evs: seq<Event>, w': World, req: Request, weather: Weather) {
    && Turn(cfg, w, evs) && evs[0].req == req && Exec(cfg, w, evs) == Some(w') && w'.active == map[] && w'.log != []
    && (|evs| > 2 ==> evs[2].Act? && (!weather.getFails && !weather.delFails ==> evs[2].how.Ok?))
    && (w'.log[|w'.log| - 1].Refused? || (Writes(weather) ==> EndsWorking(evs)))
  }

  /** A call in turn keeps the history orderly for every other key, and for its own if it is steady. */
  lemma AskInTurn(cfg: Config, hist: seq<Event>, w: World, evs: seq<Event>, w': World, c: Call, d: string, h: Digest)
    requires Reaches(cfg, hist, w) && Orderly(cfg, hist, d, h)
    requires c.Ask? && CalledWith(cfg, w, evs, w', c.req, c.weather)
    requires IsFor(cfg, c.req, d, h) ==> Steady(c)
    ensures Orderly(cfg, hist + evs, d, h)
  {
    hide Exec, Orderly, Turn, IsFor;
    assert evs[..|evs|] == evs;
    if !IsFor(cfg, c.req, d, h) {
      OtherTurn(cfg, hist, w, evs, |evs|, d, h);
    } else if !c.weather.getFails && !c.weather.delFails {
      SteadyTurn(cfg, hist, w, evs, |evs|, d, h);
    } else {
      WritingTurn(cfg, hist, w, evs, |evs|, d, h);
    }
  }

  lemma BetweenCalls(cfg: Config, hist: seq<Event>, w: World, e: Event)
    requires Reaches(cfg, hist, w) && EventBetween(e)
    ensures Reaches(cfg, hist + [e], Next(cfg, w, e))
    ensures forall d, h :: Orderly(cfg, hist, d, h) ==> Orderly(cfg, hist + [e], d, h)
  {
    hide Next, Exec;
    ExecMore(cfg, START, hist, w, e);
    forall d, h | Orderly(cfg, hist, d, h) ensures Orderly(cfg, hist + [e], d, h) {
      assert (hist + [e])[..|hist|] == hist;
    }
  }

  // ---- what the caller gets ----

  /** The answer was extracted by an earlier call for the same document type and content. */
  ghost predicate WasExtracted(log: seq<Fact>, i: nat)
    requires i < |log| && log[i].Replied?
  {
    exists j :: 0 <= j < i && log[j].Called? && log[j].docType == log[i].docType && log[j].content == log[i].content
      && log[j].out.Some? && ToResponse(log[j].out.value) == ToResponse(log[i].result)
  }

  /** Fact `i` is the answer to request number `id`; it is genuine and, where `steady`, fresh. */
  ghost predicate BackedAt(cfg: Config, log: seq<Fact>, i: nat, id: nat, req: Request, answer: Response, steady: bool)
    requires i < |log|
  {
    && IsAnswer(log[i], id, req, answer)
    && (NoCollision(cfg, log) ==> WasExtracted(log, i)) && (steady ==> IsFresh(cfg, log, i))
  }

  /** The answer that the caller of request number `id` got is the one logged for that request, and is backed. */
  ghost predicate Backed(cfg: Config, log: seq<Fact>, id: nat, req: Request, answer: Response, steady: bool) {
    exists i :: 0 <= i < |log| && BackedAt(cfg, log, i, id, req, answer, steady)
  }

  lemma {:induction false} LogGrows(cfg: Config, w: World, evs: seq<Event>, w': World)
    requires Exec(cfg, w, evs) == Some(w')
    ensures w.log <= w'.log
    decreases |evs|
  {
    hide Next;
    if evs != [] {
      var v := Exec(cfg, w, evs[..|evs| - 1]).value;
      LogGrows(cfg, w, evs[..|evs| - 1], v);
      StepGrows(cfg, v, evs[|evs| - 1]);
    }
  }

  /** Later facts take nothing back. */
  lemma BackedStays(cfg: Config, a: seq<Fact>, b: seq<Fact>, id: nat, req: Request, answer: Response, steady: bool)
    requires a <= b && Backed(cfg, a, id, req, answer, steady)
    ensures Backed(cfg, b, id, req, answer, steady)
  {
    hide IsFresh, WasExtracted, NoCollision, ToResponse, DocTypeOf;
    var i :| 0 <= i < |a| && BackedAt(cfg, a, i, id, req, answer, steady);
    assert b[i] == a[i];
    GenuineStays(cfg, a, b, i);
    if steady {
      FreshStays(cfg, a, b, i);
    }
    assert BackedAt(cfg, b, i, id, req, answer, steady);
  }

  lemma GenuineStays(cfg: Config, a: seq<Fact>, b: seq<Fact>, i: nat)
    requires a <= b && i < |a| && a[i].Replied? && (NoCollision(cfg, a) ==> WasExtracted(a, i))
    ensures NoCollision(cfg, b) ==> WasExtracted(b, i)
  {
    hide ToResponse;
    assert forall k :: 0 <= k < |a| ==> b[k] == a[k];
    if NoCollision(cfg, b) {
      assert NoCollision(cfg, a);
      var j :| 0 <= j < i && a[j].Called? && a[j].docType == a[i].docType && a[j].content == a[i].content
        && a[j].out.Some? && ToResponse(a[j].out.value) == ToResponse(a[i].result);
      assert b[j].Called?;
    }
  }

  lemma FreshStays(cfg: Config, a: seq<Fact>, b: seq<Fact>, i: nat)
    requires a <= b && i < |a| && a[i].Replied? && IsFresh(cfg, a, i)
    ensures IsFresh(cfg, b, i)
  {
    hide LatestSays;
    assert b[i] == a[i] && b[..i] == a[..i];
  }

  /** The last answer of a run, by the theorems about runs. */
  lemma LastBacked(cfg: Config, hist: seq<Event>, w: World, id: nat, req: Request, answer: Response)
    requires Reaches(cfg, hist, w) && Answered200(w.log, id, req, answer)
    ensures Backed(cfg, w.log, id, req, answer, Orderly(cfg, hist, DocTypeOf(req), cfg.sha(req.content)))
  {
    hide Exec, Orderly, IsFresh, ToResponse, DocTypeOf, NoCollision, WasExtracted;
    var i := |w.log| - 1;
    if NoCollision(cfg, w.log) {
      LastGenuine(cfg, hist, w, i);
    }
    if Orderly(cfg, hist, DocTypeOf(req), cfg.sha(req.content)) {
      AnswersAreFresh(cfg, hist, w, i);
    }
    assert BackedAt(cfg, w.log, i, id, req, answer, Orderly(cfg, hist, DocTypeOf(req), cfg.sha(req.content)));
  }

  lemma LastGenuine(cfg: Config, hist: seq<Event>, w: World, i: nat)
    requires Reaches(cfg, hist, w) && i < |w.log| && w.log[i].Replied? && NoCollision(cfg, w.log)
    ensures WasExtracted(w.log, i)
  {
    hide Exec, ToResponse, NoCollision;
    AnswersWereExtracted(cfg, hist, w, i);
  }

  // ---- the calls ----

  /** A call of the handler on a server at rest. */
  method Serve(server: Server, req: Request, weather: Weather, ghost hist: seq<Event>)
    returns (answer: Option<Response>, ghost evs: seq<Event>)
    requires server.Valid() && server.active == map[] && Reaches(server.cfg, hist, server.W())
    modifies server, server.rdb, server.store
    ensures server.Valid() && server.active == map[] && Reaches(server.cfg, hist + evs, server.W())
    ensures old(server.log) <= server.log && server.next == old(server.next) + 1
    ensures forall d, h ::
              Orderly(server.cfg, hist, d, h) && (IsFor(server.cfg, req, d, h) ==> Steady(Ask(req, weather))) ==>
                Orderly(server.cfg, hist + evs, d, h)
    ensures answer.Some? ==>
              Backed(server.cfg, server.log, old(server.next), req, answer.value,
                     Orderly(server.cfg, hist + evs, DocTypeOf(req), server.cfg.sha(req.content)))
    ensures answer.None? ==> EndsRefused(server.log, old(server.next))
  {
    hide Exec, Orderly, Refreshes, Backed, Own, IsFor, Steady;
    ghost var w := server.W();
    answer, evs := server.Extract(req, weather);
    ghost var w' := server.W();
    ExecConcat(server.cfg, START, hist, w, evs, w');
    LogGrows(server.cfg, w, evs, w');
    assert CalledWith(server.cfg, w, evs, w', req, weather) by {
      hide Answered200, EndsRefused;
      EndOf(server.log, w.next, req, answer);
    }
    forall d, h | Orderly(server.cfg, hist, d, h) && (IsFor(server.cfg, req, d, h) ==> Steady(Ask(req, weather)))
      ensures Orderly(server.cfg, hist + evs, d, h)
    {
      AskInTurn(server.cfg, hist, w, evs, w', Ask(req, weather), d, h);
    }
    if answer.Some? {
      LastBacked(server.cfg, hist + evs, w', w.next, req, answer.value);
    }
  }

  lemma EndOf(log: seq<Fact>, id: nat, req: Request, answer: Option<Response>)
    requires if answer.Some? then Answered200(log, id, req, answer.value) else EndsRefused(log, id)
    ensures log != [] && (answer.None? ==> log[|log| - 1].Refused?)
  {
  }

  /** The number of requests among the first `k` calls: the number that the next request gets. */
  function Asked(calls: seq<Call>, k: nat): nat
    requires k <= |calls|
  {
    if k == 0 then 0 else Asked(calls, k - 1) + (if calls[k - 1].Ask? then 1 else 0)
  }

  /** Of the first `k` calls, those for the key were steady. */
  ghost predicate SteadyFor(cfg: Config, calls: seq<Call>, k: nat, d: string, h: Digest)
    requires k <= |calls|
  {
    forall m :: 0 <= m < k && AsksFor(cfg, calls[m], d, h) ==> Steady(calls[m])
  }

  /** Request number `id` was refused. */
  ghost predicate WasRefused(log: seq<Fact>, id: nat) {
    exists i :: 0 <= i < |log| && log[i].Refused? && log[i].id == id
  }

  /** The answer to call `k` was extracted for its document type and content, and is the latest extraction if the calls
      so far for the same document type and digest were steady; a request without an answer was refused. */
  ghost predicate CallBacked(cfg: Config, log: seq<Fact>, calls: seq<Call>, k: nat, answer: Option<Response>)
    requires k < |calls|
  {
    if answer.None? then calls[k].Ask? ==> WasRefused(log, Asked(calls, k))
    else
      && calls[k].Ask?
      && var req := calls[k].req;
         var steady := SteadyFor(cfg, calls, k + 1, DocTypeOf(req), cfg.sha(req.content));
         Backed(cfg, log, Asked(calls, k), req, answer.value, steady)
  }

  lemma CallBackedStays(cfg: Config, a: seq<Fact>, b: seq<Fact>, calls: seq<Call>, k: nat, answer: Option<Response>)
    requires k < |calls| && a <= b && CallBacked(cfg, a, calls, k, answer)
    ensures CallBacked(cfg, b, calls, k, answer)
  {
    hide Backed, SteadyFor, Asked, DocTypeOf;
    if answer.Some? {
      var req := calls[k].req;
      var steady := SteadyFor(cfg, calls, k + 1, DocTypeOf(req), cfg.sha(req.content));
      BackedStays(cfg, a, b, Asked(calls, k), req, answer.value, steady);
    } else if calls[k].Ask? {
      var i :| 0 <= i < |a| && a[i].Refused? && a[i].id == Asked(calls, k);
      assert b[i] == a[i];
    }
  }

  lemma Weaken(cfg: Config, log: seq<Fact>, id: nat, req: Request, answer: Response, strong: bool, weak: bool)
    requires Backed(cfg, log, id, req, answer, strong) && (weak ==> strong)
    ensures Backed(cfg, log, id, req, answer, weak)
  {
    hide IsFresh, NoCollision, WasExtracted, ToResponse, DocTypeOf;
    var i :| 0 <= i < |log| && BackedAt(cfg, log, i, id, req, answer, strong);
    assert BackedAt(cfg, log, i, id, req, answer, weak);
  }

  lemma Refusal(log: seq<Fact>, id: nat)
    requires EndsRefused(log, id)
    ensures WasRefused(log, id)
  {
  }

  /** One of the calls, with the run so far as its history. */
  method ServeOne(server: Server, calls: seq<Call>, k: nat, ghost hist: seq<Event>)
    returns (answer: Option<Response>, ghost hist': seq<Event>)
    requires k < |calls| && server.Valid() && server.active == map[] && Reaches(server.cfg, hist, server.W())
    requires server.next == Asked(calls, k)
    requires forall d, h :: SteadyFor(server.cfg, calls, k, d, h) ==> Orderly(server.cfg, hist, d, h)
    modifies server, server.rdb, server.store
    ensures server.Valid() && server.active == map[] && Reaches(server.cfg, hist', server.W())
    ensures server.next == Asked(calls, k + 1) && old(server.log) <= server.log
    ensures forall d, h :: SteadyFor(server.cfg, calls, k + 1, d, h) ==> Orderly(server.cfg, hist', d, h)
    ensures CallBacked(server.cfg, server.log, calls, k, answer)
  {
    hide Exec, Orderly, Backed, Steady, IsFor;
    ghost var w := server.W();
    match calls[k] {
      case Ask(req, weather) =>
        ghost var evs;
        answer, evs := Serve(server, req, weather, hist);
        hist' := hist + evs;
        if answer.Some? {
          ghost var d, h := DocTypeOf(req), server.cfg.sha(req.content);
          ghost var strong, weak := Orderly(server.cfg, hist', d, h), SteadyFor(server.cfg, calls, k + 1, d, h);
          Weaken(server.cfg, server.log, w.next, req, answer.value, strong, weak);
        } else {
          Refusal(server.log, w.next);
        }
      case Wait(d) =>
        server.rdb.now := server.rdb.now + d;
        hist' := hist + [Tick(d)];
        BetweenCalls(server.cfg, hist, w, Tick(d));
        answer := None;
      case Lose(key) =>
        server.rdb.data := server.rdb.data - {key};
        hist' := hist + [Evict(key)];
        BetweenCalls(server.cfg, hist, w, Evict(key));
        answer := None;
      case Damage(key) =>
        server.rdb.data := server.rdb.data[key := Entry(Garbage, None)];
        hist' := hist + [Spoil(key)];
        BetweenCalls(server.cfg, hist, w, Spoil(key));
        answer := None;
    }
  }

  /** Any calls, one after the other, on a new server: every answer was extracted for its document type and content,
      and is the latest extraction as long as the calls for the same document type and digest were steady; every
      request without an answer was refused. */
  method ServeAll(server: Server, calls: seq<Call>) returns (answers: seq<Option<Response>>)
    requires server.Valid() && server.W() == START
    modifies server, server.rdb, server.store
    ensures |answers| == |calls|
    ensures forall k :: 0 <= k < |calls| ==> CallBacked(server.cfg, server.log, calls, k, answers[k])
  {
    hide Exec, Orderly, CallBacked;
    answers := [];
    ghost var hist: seq<Event> := [];
    NoEvents(server.cfg, START);
    EmptyIsOrderly(server.cfg);
    for i := 0 to |calls|
      invariant server.Valid() && server.active == map[] && Reaches(server.cfg, hist, server.W())
      invariant server.next == Asked(calls, i) && |answers| == i
      invariant forall d, h :: SteadyFor(server.cfg, calls, i, d, h) ==> Orderly(server.cfg, hist, d, h)
      invariant forall k :: 0 <= k < i ==> CallBacked(server.cfg, server.log, calls, k, answers[k])
    {
      ghost var log := server.log;
      var answer;
      answer, hist := ServeOne(server, calls, i, hist);
      forall k | 0 <= k < i ensures CallBacked(server.cfg, server.log, calls, k, answers[k]) {
        CallBackedStays(server.cfg, log, server.log, calls, k, answers[k]);
      }
      answers := answers + [answer];
    }
  }

  lemma EmptyIsOrderly(cfg: Config)
    ensures forall d, h :: Orderly(cfg, [], d, h)
  {
  }
}
