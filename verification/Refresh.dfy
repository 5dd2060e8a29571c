/** What a request asked for decides how it is served: consent, cache bypass and replacement, in every run. */
module Refresh {
  import opened Text
  import opened Domain
  import opened Identity
  import opened Protocol
  import opened Provenance
  import Store

  /** The session of a request is on a path that the request asked for. */
  ghost predicate AsAsked(cfg: Config, s: Session) {
    && DocTypeOf(s.req) != ""
    && ConsentAccepted(cfg.fold, cfg.lower, s.req.consent, s.req.headers, DocTypeOf(s.req))
    && (s.pc.Looking? || s.pc.Purging? ==> !Refreshes(cfg, s.req))
    && (s.pc.Invalidating? ==> Refreshes(cfg, s.req))
    && (s.pc.Committing? ==> s.pc.replace == Refreshes(cfg, s.req))
    && (Holds(s.pc) ==> s.pc.result.meta.cache in {"hit", "miss"})
    && (Holds(s.pc) && Refreshes(cfg, s.req) ==> s.pc.result.meta.cache == "miss")
  }

  lemma ActorAsAsked(cfg: Config, w: World, id: nat, w': World)
    requires id in w.active && id in w'.active && Moves(cfg, w, id, w') && AsAsked(cfg, w.active[id])
    ensures AsAsked(cfg, w'.active[id])
  {
    hide Refreshes, DocTypeOf, ConsentAccepted, TouchedKey, Tells, BucketOf, Store.Commit, SameAt;
    assert Goes(cfg, w, id, w.active[id], w'.active[id].pc, w');
  }

  lemma NewcomerAsAsked(cfg: Config, req: Request, valid: bool)
    requires Admissible(cfg, req, valid)
    ensures AsAsked(cfg, Session(req, Consenting))
  {
  }

  lemma {:induction false} AllAsAsked(cfg: Config, evs: seq<Event>, w: World, id: nat)
    requires Reaches(cfg, evs, w) && id in w.active
    ensures AsAsked(cfg, w.active[id])
    decreases |evs|
  {
    hide Advance, AsAsked, Admissible, Goes, Tells, TouchedKey, Store.Commit;
    var v := RunStep(cfg, evs, w);
    var e := evs[|evs| - 1];
    if e.Act? {
      AdvanceMoves(cfg, v, e.id, e.how);
    }
    if e.Arrive? && id == v.next && Admissible(cfg, e.req, e.valid) {
      NewcomerAsAsked(cfg, e.req, e.valid);
    } else {
      AllAsAsked(cfg, evs[..|evs| - 1], v, id);
      if e.Act? && e.id == id {
        ActorAsAsked(cfg, v, id, w);
      }
    }
  }

  /** In every run a committed refresh leaves exactly one active row for its type, digest and subject, the one with
      the new result; every other committed request adds one row to those. */
  lemma RowsFollowRequest(cfg: Config, evs: seq<Event>, w: World, id: nat)
    requires Reaches(cfg, evs, w) && cfg.hasStore && id in w.active && w.active[id].pc.Committing?
    ensures var s := w.active[id];
            var rows := Next(cfg, w, Act(id, Ok)).rows;
            var key := Store.KeyOf(RecordOf(cfg, s.req, s.pc.result));
            && Store.Active(rows, key) == (if Refreshes(cfg, s.req) then 1 else Store.Active(w.rows, key) + 1)
            && |rows| == |w.rows| + 1 && Store.IsActive(rows[|w.rows|], key) && rows[|w.rows|].result == s.pc.result
  {
    hide Refreshes, ConsentAccepted, Exec, Store.Active, DocTypeOf, ActorOf;
    AllAsAsked(cfg, evs, w, id);
    var s := w.active[id];
    Store.CommitActive(w.rows, TxOf(cfg, w.now, s.req, s.pc.result, s.pc.replace),
      Store.KeyOf(RecordOf(cfg, s.req, s.pc.result)));
  }

  // ---- every fact belongs to the request that arrived under its number ----

  /** The requests of a run, in the order in which they arrived and got their numbers. */
  function Arrivals(evs: seq<Event>): seq<Request> {
    if evs == [] then []
    else
      var e := evs[|evs| - 1];
      Arrivals(evs[..|evs| - 1]) + (if e.Arrive? then [e.req] else [])
  }

  /** The bucket is one of the user that the request is attributed to. */
  predicate ChargedTo(cfg: Config, req: Request, b: Bucket) {
    b.kind == req.principal.kind && b.id == ActorOf(cfg, req).subject
  }

  /** The result is what request `id` itself got from the extractor. */
  ghost predicate OwnCall(cfg: Config, log: seq<Fact>, id: nat, req: Request, r: Result) {
    exists j :: 0 <= j < |log| && log[j].Called? && log[j].id == id && log[j].docType == DocTypeOf(req)
      && log[j].content == req.content && log[j].out.Some? && r == Stamp(log[j].out.value, cfg.sha(req.content), "miss")
  }

  ghost predicate SessionOwn(cfg: Config, log: seq<Fact>, id: nat, s: Session) {
    && (s.pc.Preparing? || s.pc.Extracting? ==> ChargedTo(cfg, s.req, s.pc.bucket))
    && (Holds(s.pc) && s.pc.result.meta.cache == "miss" ==> OwnCall(cfg, log, id, s.req, s.pc.result))
  }

  /** What a fact says is what its request asked for. */
  ghost predicate FactOwn(cfg: Config, reqs: seq<Request>, log: seq<Fact>, i: nat)
    requires i < |log|
  {
    log[i].id < |reqs| &&
    var req := reqs[log[i].id];
    match log[i]
    case Consented(_, c) => c == ConsentOf(cfg, req)
    case ConsentLost(_) => true
    case Counted(_, b, t, n, allowed, _) =>
      ChargedTo(cfg, req, b) && b.window == WindowOf(t) && allowed == (n <= cfg.limit)
    case Called(_, b, subject, d, c, _, _, _) =>
      ChargedTo(cfg, req, b) && subject == ActorOf(cfg, req).subject && d == DocTypeOf(req) && c == req.content
    case Stored(_, tx) => tx.rec == RecordOf(cfg, req, tx.rec.result) && tx.replace == Refreshes(cfg, req)
    case Replied(id, d, c, r) =>
      && d == DocTypeOf(req) && c == req.content && r.meta.cache in {"hit", "miss"}
      && (Refreshes(cfg, req) ==> r.meta.cache == "miss")
      && (r.meta.cache == "miss" ==> OwnCall(cfg, log[..i], id, req, r))
    case Refused(_, _) => true
  }

  ghost predicate Inv(cfg: Config, reqs: seq<Request>, w: World) {
    && w.next == |reqs|
    && (forall id :: id in w.active ==>
          id < |reqs| && w.active[id].req == reqs[id] && SessionOwn(cfg, w.log, id, w.active[id]))
    && (forall i :: 0 <= i < |w.log| ==> FactOwn(cfg, reqs, w.log, i))
  }

  lemma OwnCallGrows(cfg: Config, a: seq<Fact>, b: seq<Fact>, id: nat, req: Request, r: Result)
    requires a <= b && OwnCall(cfg, a, id, req, r)
    ensures OwnCall(cfg, b, id, req, r)
  {
    var j :| 0 <= j < |a| && a[j].Called? && a[j].id == id && a[j].docType == DocTypeOf(req)
      && a[j].content == req.content && a[j].out.Some? && r == Stamp(a[j].out.value, cfg.sha(req.content), "miss");
    assert b[j] == a[j];
  }

  lemma SessionStaysOwn(cfg: Config, a: seq<Fact>, b: seq<Fact>, id: nat, s: Session)
    requires a <= b && SessionOwn(cfg, a, id, s)
    ensures SessionOwn(cfg, b, id, s)
  {
    hide OwnCall, ChargedTo;
    if Holds(s.pc) && s.pc.result.meta.cache == "miss" {
      OwnCallGrows(cfg, a, b, id, s.req, s.pc.result);
    }
  }

  lemma BucketCharged(cfg: Config, req: Request, t: nat)
    ensures ChargedTo(cfg, req, BucketOf(cfg, req, t)) && BucketOf(cfg, req, t).window == WindowOf(t)
  {
    hide QuotaId, ResolveActor;
    QuotaIsActor(cfg.secret, req.principal, req.headers);
  }

  lemma JustCalled(cfg: Config, w: World, id: nat, w': World)
    requires id in w.active && id in w'.active && w.active[id].pc.Extracting? && w'.active[id].pc.Committing?
    requires Moves(cfg, w, id, w')
    ensures OwnCall(cfg, w'.log, id, w.active[id].req, w'.active[id].pc.result)
  {
    hide Refreshes, DocTypeOf, TouchedKey, BucketOf, Store.Commit, SameAt, ConsentOf, TxOf, ActorOf;
    assert Goes(cfg, w, id, w.active[id], w'.active[id].pc, w');
    assert Tells(cfg, w.now, id, w.active[id], w'.log[|w.log|]);
  }

  lemma ActorOwn(cfg: Config, w: World, id: nat, w': World)
    requires id in w.active && id in w'.active && Moves(cfg, w, id, w') && SessionOwn(cfg, w.log, id, w.active[id])
    ensures SessionOwn(cfg, w'.log, id, w'.active[id])
  {
    hide OwnCall, ChargedTo, Refreshes, TouchedKey, BucketOf, Tells, Store.Commit, SameAt;
    var s, s' := w.active[id], w'.active[id];
    assert Goes(cfg, w, id, s, s'.pc, w');
    if s.pc.Extracting? {
      JustCalled(cfg, w, id, w');
    } else if s.pc.Counting? || s.pc.Expiring? {
      BucketCharged(cfg, s.req, s.pc.readAt);
    } else if Holds(s'.pc) && s'.pc.result.meta.cache == "miss" {
      OwnCallGrows(cfg, w.log, w'.log, id, s.req, s.pc.result);
    }
  }

  lemma OldFactOwn(cfg: Config, reqs: seq<Request>, reqs': seq<Request>, a: seq<Fact>, b: seq<Fact>, i: nat)
    requires reqs <= reqs' && a <= b && i < |a| && FactOwn(cfg, reqs, a, i)
    ensures FactOwn(cfg, reqs', b, i)
  {
    hide OwnCall, ChargedTo, Refreshes, ConsentOf, RecordOf, DocTypeOf, ActorOf, WindowOf;
    assert b[i] == a[i] && b[..i] == a[..i] && reqs'[a[i].id] == reqs[a[i].id];
  }

  lemma NewFactOwn(cfg: Config, reqs: seq<Request>, w: World, e: Event, i: nat)
    requires Inv(cfg, reqs, w) && Enabled(w, e) && |w.log| <= i < |Next(cfg, w, e).log| && e.Act?
    requires AsAsked(cfg, w.active[e.id])
    ensures FactOwn(cfg, reqs, Next(cfg, w, e).log, i)
  {
    hide Next, OwnCall, ChargedTo, Refreshes, ConsentOf, DocTypeOf, ActorOf, WindowOf, BucketOf, ConsentAccepted;
    StepGrows(cfg, w, e);
    NewFact(cfg, w, e, i);
    var s := w.active[e.id];
    assert SessionOwn(cfg, w.log, e.id, s);
    if s.pc.Counting? {
      BucketCharged(cfg, s.req, s.pc.readAt);
    }
    assert i == |w.log| ==> Next(cfg, w, e).log[..i] == w.log;
  }

  lemma {:induction false} InvHolds(cfg: Config, evs: seq<Event>, w: World)
    requires Reaches(cfg, evs, w)
    ensures Inv(cfg, Arrivals(evs), w)
    decreases |evs|
  {
    hide Advance, AsAsked, Admissible, Goes, Tells, TouchedKey, Store.Commit, SessionOwn, FactOwn, SameAt;
    if evs != [] {
      var v := RunStep(cfg, evs, w);
      var e, before := evs[|evs| - 1], evs[..|evs| - 1];
      var reqs, reqs' := Arrivals(before), Arrivals(evs);
      InvHolds(cfg, before, v);
      StepGrows(cfg, v, e);
      if e.Act? {
        AllAsAsked(cfg, before, v, e.id);
        AdvanceMoves(cfg, v, e.id, e.how);
      }
      assert reqs <= reqs';
      forall i | 0 <= i < |w.log| ensures FactOwn(cfg, reqs', w.log, i) {
        FactsOwn(cfg, reqs, reqs', v, e, i);
      }
      forall id | id in w.active
        ensures id < |reqs'| && w.active[id].req == reqs'[id] && SessionOwn(cfg, w.log, id, w.active[id])
      {
        if e.Act? && e.id == id {
          ActorOwn(cfg, v, id, w);
        } else if id in v.active {
          SessionStaysOwn(cfg, v.log, w.log, id, v.active[id]);
        } else {
          NothingOwn(cfg, w.log, id, w.active[id]);
        }
      }
    }
  }

  lemma NothingOwn(cfg: Config, log: seq<Fact>, id: nat, s: Session)
    requires s.pc.Consenting?
    ensures SessionOwn(cfg, log, id, s)
  {
  }

  lemma FactsOwn(cfg: Config, reqs: seq<Request>, reqs': seq<Request>, w: World, e: Event, i: nat)
    requires Inv(cfg, reqs, w) && Enabled(w, e) && i < |Next(cfg, w, e).log|
               && (e.Act? ==> AsAsked(cfg, w.active[e.id]))
    requires reqs' == reqs + (if e.Arrive? then [e.req] else [])
    ensures FactOwn(cfg, reqs', Next(cfg, w, e).log, i)
  {
    hide Next, FactOwn, SessionOwn, AsAsked;
    StepGrows(cfg, w, e);
    if i < |w.log| {
      OldFactOwn(cfg, reqs, reqs', w.log, Next(cfg, w, e).log, i);
    } else if e.Act? {
      NewFactOwn(cfg, reqs, w, e, i);
      assert reqs' == reqs;
    } else {
      NewFact(cfg, w, e, i);
      RefusalOwn(cfg, reqs', Next(cfg, w, e).log, i);
    }
  }

  lemma RefusalOwn(cfg: Config, reqs: seq<Request>, log: seq<Fact>, i: nat)
    requires i < |log| && log[i].Refused? && log[i].id < |reqs|
    ensures FactOwn(cfg, reqs, log, i)
  {
  }

  /** Attribution. In every run each fact logged under a number is about the request that arrived under it: its
      consent, the quota it was charged to, its extractor call, its transaction and its answer carry that
      request's own subject, policy, document type, content and refresh wish. */
  lemma FactsFollowRequest(cfg: Config, evs: seq<Event>, w: World, i: nat)
    requires Reaches(cfg, evs, w) && i < |w.log|
    ensures FactOwn(cfg, Arrivals(evs), w.log, i)
  {
    hide FactOwn, SessionOwn, Exec;
    InvHolds(cfg, evs, w);
  }

  /** In every run a refresh is answered with its own extraction, never from the cache: before the answer the same
      request made a successful extractor call for its type and content, and the answer is that result. */
  lemma RefreshAnswersItsOwn(cfg: Config, evs: seq<Event>, w: World, i: nat)
    requires Reaches(cfg, evs, w) && i < |w.log| && w.log[i].Replied?
    ensures w.log[i].id < |Arrivals(evs)|
    ensures Refreshes(cfg, Arrivals(evs)[w.log[i].id]) ==>
              exists j :: 0 <= j < i && w.log[j].Called? && w.log[j].id == w.log[i].id
                && w.log[j].docType == w.log[i].docType
                && w.log[j].content == w.log[i].content && w.log[j].out.Some?
                && w.log[i].result == Stamp(w.log[j].out.value, cfg.sha(w.log[i].content), "miss")
  {
    hide Refreshes, Exec, Stamp, DocTypeOf;
    FactsFollowRequest(cfg, evs, w, i);
    var f := w.log[i];
    var req := Arrivals(evs)[f.id];
    if Refreshes(cfg, req) {
      var log := w.log[..i];
      var j :| 0 <= j < |log| && log[j].Called? && log[j].id == f.id && log[j].docType == DocTypeOf(req)
        && log[j].content == req.content && log[j].out.Some?
             && f.result == Stamp(log[j].out.value, cfg.sha(req.content), "miss");
      assert w.log[j] == log[j];
    }
  }

  /** In every run each consent row holds what its own request said, as it arrived: the attributed subject and
      email, the policy of its document type, that type, and the digest of its upload. */
  lemma ConsentRowsAreOwn(cfg: Config, evs: seq<Event>, w: World, i: nat)
    requires Reaches(cfg, evs, w) && i < |w.log| && w.log[i].Consented?
    ensures w.log[i].id < |Arrivals(evs)|
    ensures var req, c := Arrivals(evs)[w.log[i].id], w.log[i].consent;
            var a, d := ResolveActor(cfg.secret, req.principal, req.headers), TrimSpace(req.docTypeParam);
            && c.subject == a.subject && c.email == a.email && c.docType == d && c.sha == cfg.sha(req.content)
            && c.policy == (if d == "curriculum_vitae" then "lgpd-cv-store-v1" else "lgpd-extract-v1")
  {
    hide Exec, ResolveActor, TrimSpace;
    FactsFollowRequest(cfg, evs, w, i);
  }

  // ---- the gate ----

  /** Exactly these ask for a refresh, in any casing and with white space around them. */
  lemma RefreshWords(cfg: Config, req: Request)
    ensures Refreshes(cfg, req) <==> TrimSpace(Lower(cfg.lower, req.refreshParam)) in ["1", "true", "yes", "y", "on"]
  {
    hide TrimSpace, Lower;
  }

  lemma RefreshAsked(cfg: Config, req: Request, x: string)
    requires LowersAscii(cfg.lower) && x in ["1", "true", "TRUE", "yes", "y", "on", "", "0", "false", "no"]
    ensures Refreshes(cfg, req.(refreshParam := x)) <==> x in ["1", "true", "TRUE", "yes", "y", "on"]
  {
    hide TrimSpace, IsSpace;
    LowerWord(cfg.lower, x);
    TrimSpaceOfTrimmed(if x == "TRUE" then "true" else x);
    RefreshWords(cfg, req.(refreshParam := x));
  }

  lemma LowerWord(lower: char -> char, x: string)
    requires LowersAscii(lower) && x in ["1", "true", "TRUE", "yes", "y", "on", "", "0", "false", "no"]
    ensures Lower(lower, x) == (if x == "TRUE" then "true" else x)
    ensures x != "" ==> var t := Lower(lower, x); !IsSpace(t[0]) && !IsSpace(t[|t| - 1])
  {
    var t := Lower(lower, x);
    if x == "TRUE" {
      assert t == "true";
    } else {
      assert t == x;
    }
  }

  /** The verdicts on the uploads of a run, in the order of arrival. */
  function Verdicts(evs: seq<Event>): seq<bool> {
    if evs == [] then []
    else
      var e := evs[|evs| - 1];
      Verdicts(evs[..|evs| - 1]) + (if e.Arrive? then [e.valid] else [])
  }

  /** The request has a document type, an accepted consent and a valid upload. */
  predicate PassesGate(cfg: Config, req: Request, valid: bool) {
    && TrimSpace(req.docTypeParam) != "" && valid
    && ConsentAccepted(cfg.fold, cfg.lower, req.consent, req.headers, TrimSpace(req.docTypeParam))
  }

  /** The only thing a request has left is its refusal at the gate. */
  ghost predicate OnlyRefused(w: World, id: nat) {
    id !in w.active && forall i :: 0 <= i < |w.log| && w.log[i].id == id ==> w.log[i] == Refused(id, BadRequest)
  }

  predicate Passed(cfg: Config, reqs: seq<Request>, valid: seq<bool>, id: nat) {
    id < |reqs| && id < |valid| && PassesGate(cfg, reqs[id], valid[id])
  }

  ghost predicate GateInv(cfg: Config, reqs: seq<Request>, valid: seq<bool>, w: World) {
    && |reqs| == w.next && |valid| == w.next
    && (forall id :: id in w.active ==> id < w.next && Passed(cfg, reqs, valid, id))
    && (forall i :: 0 <= i < |w.log| ==> w.log[i].id < w.next)
    && (forall id :: 0 <= id < w.next && !Passed(cfg, reqs, valid, id) ==> OnlyRefused(w, id))
    && (forall i :: 0 <= i < |w.log| && w.log[i] == Refused(w.log[i].id, BadRequest) ==>
          !Passed(cfg, reqs, valid, w.log[i].id))
  }

  lemma ActKeepsGate(cfg: Config, reqs: seq<Request>, valid: seq<bool>, w: World, id: nat, w': World)
    requires GateInv(cfg, reqs, valid, w) && id in w.active && Moves(cfg, w, id, w')
    ensures GateInv(cfg, reqs, valid, w')
  {
    hide Goes, TouchedKey, BucketOf, ConsentOf, TxOf, DocTypeOf, ActorOf, Refreshes, Store.Commit, SameAt, Passed;
    assert forall i :: 0 <= i < |w.log| ==> w'.log[i] == w.log[i];
  }

  lemma ArriveKeepsGate(cfg: Config, reqs: seq<Request>, valid: seq<bool>, w: World, req: Request, ok: bool)
    requires GateInv(cfg, reqs, valid, w)
    ensures GateInv(cfg, reqs + [req], valid + [ok], Arrived(cfg, w, req, ok))
  {
    hide ConsentAccepted, TrimSpace;
    var w', reqs', valid' := Arrived(cfg, w, req, ok), reqs + [req], valid + [ok];
    assert forall id :: 0 <= id < w.next ==> Passed(cfg, reqs', valid', id) == Passed(cfg, reqs, valid, id);
    assert Passed(cfg, reqs', valid', w.next) == PassesGate(cfg, req, ok);
    assert forall i :: 0 <= i < |w.log| ==> w'.log[i] == w.log[i];
  }

  lemma {:induction false} GateHolds(cfg: Config, evs: seq<Event>, w: World)
    requires Reaches(cfg, evs, w)
    ensures GateInv(cfg, Arrivals(evs), Verdicts(evs), w)
    decreases |evs|
  {
    hide Advance, Arrived, GateInv, Moves;
    if evs == [] {
      EmptyGate(cfg);
    } else {
      var v := RunStep(cfg, evs, w);
      var e := evs[|evs| - 1];
      var reqs, valid := Arrivals(evs[..|evs| - 1]), Verdicts(evs[..|evs| - 1]);
      GateHolds(cfg, evs[..|evs| - 1], v);
      assert reqs + [] == reqs && valid + [] == valid;
      match e {
        case Act(id, how) =>
          AdvanceMoves(cfg, v, id, how);
          ActKeepsGate(cfg, Arrivals(evs), Verdicts(evs), v, id, w);
        case Arrive(req, valid) =>
          ArriveKeepsGate(cfg, reqs, Verdicts(evs[..|evs| - 1]), v, req, valid);
        case _ => SameGate(cfg, Arrivals(evs), Verdicts(evs), v, w);
      }
    }
  }

  lemma EmptyGate(cfg: Config)
    ensures GateInv(cfg, [], [], START)
  {
  }

  lemma SameGate(cfg: Config, reqs: seq<Request>, valid: seq<bool>, w: World, w': World)
    requires GateInv(cfg, reqs, valid, w) && w'.log == w.log && w'.active == w.active && w'.next == w.next
    ensures GateInv(cfg, reqs, valid, w')
  {
    hide Passed;
  }

  /** The gate comes first. In every run a request with a blank document type, an upload found invalid or no accepted
      consent leaves nothing but its refusal: no consent row, no cache read, no quota unit, no call, no row. And nobody
      else is refused as a bad request. */
  lemma GateComesFirst(cfg: Config, evs: seq<Event>, w: World, i: nat)
    requires Reaches(cfg, evs, w) && i < |w.log|
    ensures var id := w.log[i].id;
            && id < |Arrivals(evs)| && id < |Verdicts(evs)|
            && (w.log[i] == Refused(id, BadRequest) <==> !PassesGate(cfg, Arrivals(evs)[id], Verdicts(evs)[id]))
            && (!PassesGate(cfg, Arrivals(evs)[id], Verdicts(evs)[id]) ==> id !in w.active)
  {
    hide PassesGate, Exec;
    GateHolds(cfg, evs, w);
    var id := w.log[i].id;
    assert Passed(cfg, Arrivals(evs), Verdicts(evs), id) == PassesGate(cfg, Arrivals(evs)[id], Verdicts(evs)[id]);
  }

  /** An arrival that does not pass the gate touches neither Redis nor the table. */
  lemma BadRequestTouchesNothing(cfg: Config, w: World, req: Request, valid: bool)
    requires !PassesGate(cfg, req, valid)
    ensures var w' := Next(cfg, w, Arrive(req, valid));
            && w'.redis == w.redis && w'.rows == w.rows && w'.active == w.active
            && w'.log == w.log + [Refused(w.next, BadRequest)]
  {
    hide ConsentAccepted, TrimSpace;
  }
}
