/** Runs of a single request between two moments at which none is being handled, and when they stay orderly. */
module Turns {
  import opened Domain
  import opened RedisModel
  import opened Keys
  import opened Protocol
  import opened Provenance
  import opened Freshness
  import Stale
  import Store

  lemma NoEvents(cfg: Config, w: World)
    ensures Exec(cfg, w, []) == Some(w)
  {
  }

  lemma {:induction false} ExecPrefix(cfg: Config, w: World, evs: seq<Event>, n: nat)
    requires n <= |evs| && Exec(cfg, w, evs).Some?
    ensures Exec(cfg, w, evs[..n]).Some?
    ensures n < |evs| ==>
              var v := Exec(cfg, w, evs[..n]).value;
              Enabled(v, evs[n]) && Exec(cfg, w, evs[..n + 1]) == Some(Next(cfg, v, evs[n]))
    decreases |evs|
  {
    hide Next;
    var m := |evs| - 1;
    if n == |evs| {
      assert evs[..n] == evs;
    } else if n == m {
      assert evs[..n + 1] == evs;
    } else {
      ExecPrefix(cfg, w, evs[..m], n);
      assert evs[..m][..n] == evs[..n] && evs[..m][..n + 1] == evs[..n + 1];
    }
  }

  /** The arrival of a request and then its own steps, from a moment at which none is being handled. */
  ghost predicate Turn(cfg: Config, w: World, evs: seq<Event>) {
    w.active == map[] && evs != [] && evs[0].Arrive? && Own(w.next, evs[1..]) && Exec(cfg, w, evs).Some?
  }

  ghost function StateAt(cfg: Config, w: World, evs: seq<Event>, n: nat): World
    requires n <= |evs| && Exec(cfg, w, evs[..n]).Some?
  {
    Exec(cfg, w, evs[..n]).value
  }

  lemma TurnPrefix(cfg: Config, w: World, evs: seq<Event>, n: nat)
    requires Turn(cfg, w, evs) && n <= |evs|
    ensures Exec(cfg, w, evs[..n]).Some?
  {
    hide Exec;
    ExecPrefix(cfg, w, evs, n);
  }

  /** How far a request can be after its `n`-th event. */
  predicate PastStage(pc: Pc, n: nat) {
    && (n == 1 ==> pc.Consenting?)
    && (n == 2 ==> pc.Looking? || pc.Invalidating?)
    && (n > 2 ==> !pc.Consenting? && !pc.Looking? && !pc.Invalidating?)
  }

  lemma StageMoves(cfg: Config, w: World, id: nat, how: How, n: nat)
    requires Enabled(w, Act(id, how)) && n > 0 && PastStage(w.active[id].pc, n)
    ensures var w' := Advance(cfg, w, id, how); id in w'.active ==> PastStage(w'.active[id].pc, n + 1)
  {
    hide Advance, Refreshes, TouchedKey, Tells, BucketOf, Store.Commit, SameAt;
    AdvanceMoves(cfg, w, id, how);
  }

  /** Only the request of the turn is there, at a stage that fits. */
  ghost predicate OnlyOne(w: World, id: nat, req: Request, n: nat) {
    forall k :: k in w.active ==> k == id && w.active[k].req == req && PastStage(w.active[k].pc, n)
  }

  lemma {:induction false} Stages(cfg: Config, w: World, evs: seq<Event>, n: nat)
    requires Turn(cfg, w, evs) && 1 <= n <= |evs|
    ensures Exec(cfg, w, evs[..n]).Some? && OnlyOne(StateAt(cfg, w, evs, n), w.next, evs[0].req, n)
  {
    hide Advance, Admissible, PastStage, Exec, Goes, Tells, TouchedKey, Store.Commit, SameAt;
    ExecPrefix(cfg, w, evs, n - 1);
    var v := StateAt(cfg, w, evs, n - 1);
    if n == 1 {
      NoEvents(cfg, w);
      assert evs[..0] == [];
      StageOne();
    } else {
      Stages(cfg, w, evs, n - 1);
      var e := evs[n - 1];
      assert e == evs[1..][n - 2];
      AdvanceMoves(cfg, v, w.next, e.how);
      StageMoves(cfg, v, w.next, e.how, n - 1);
    }
  }

  lemma StageOne()
    ensures PastStage(Consenting, 1)
  {
  }

  /** One more event of a turn keeps the run orderly if it spoils nothing. */
  lemma TurnOn(cfg: Config, hist: seq<Event>, w: World, evs: seq<Event>, n: nat, d: string, h: Digest)
    requires Reaches(cfg, hist, w) && Turn(cfg, w, evs) && n < |evs| && Exec(cfg, w, evs[..n]).Some?
    requires Orderly(cfg, hist + evs[..n], d, h) && !Spoils(cfg, StateAt(cfg, w, evs, n), evs[n], d, h)
    ensures Orderly(cfg, hist + evs[..n + 1], d, h)
    ensures Reaches(cfg, hist + evs[..n], StateAt(cfg, w, evs, n))
  {
    hide Exec, Spoils, IsFor;
    var a, v := hist + evs[..n + 1], StateAt(cfg, w, evs, n);
    ExecConcat(cfg, START, hist, w, evs[..n], v);
    assert a[..|a| - 1] == hist + evs[..n] && a[|a| - 1] == evs[n];
    if n == 0 {
      NoEvents(cfg, w);
      assert evs[..0] == [];
    } else {
      assert evs[n] == evs[1..][n - 1];
    }
  }

  // ---- a turn for another key ----

  lemma {:induction false} OtherTurn(cfg: Config, hist: seq<Event>, w: World, evs: seq<Event>, n: nat, d: string,
                                     h: Digest)
    requires Reaches(cfg, hist, w) && Orderly(cfg, hist, d, h) && Turn(cfg, w, evs) && n <= |evs|
    requires !IsFor(cfg, evs[0].req, d, h)
    ensures Orderly(cfg, hist + evs[..n], d, h)
  {
    hide Exec, Turn, IsFor, Orderly;
    if n == 0 {
      assert hist + evs[..0] == hist;
    } else {
      OtherTurn(cfg, hist, w, evs, n - 1, d, h);
      NoSpoilElsewhere(cfg, w, evs, n - 1, d, h);
      TurnOn(cfg, hist, w, evs, n - 1, d, h);
    }
  }

  lemma NoSpoilElsewhere(cfg: Config, w: World, evs: seq<Event>, n: nat, d: string, h: Digest)
    requires Turn(cfg, w, evs) && n < |evs| && !IsFor(cfg, evs[0].req, d, h)
    ensures Exec(cfg, w, evs[..n]).Some? && !Spoils(cfg, StateAt(cfg, w, evs, n), evs[n], d, h)
  {
    hide Exec, IsFor, PastStage;
    ExecPrefix(cfg, w, evs, n);
    if n > 0 {
      Stages(cfg, w, evs, n);
    }
  }

  // ---- a turn whose cache read or delete goes through ----

  /** Whatever is served under the key has the response that the request holds. */
  ghost predicate OnlyOwnServed(w: World, id: nat, d: string, h: Digest) {
    id in w.active ==>
      forall r :: Served(w.redis, w.now, CacheKey(d, h), r) ==>
        Holds(w.active[id].pc) && ToResponse(r) == ToResponse(w.active[id].pc.result)
  }

  lemma ReadGivesOwn(cfg: Config, w: World, id: nat, d: string, h: Digest)
    requires id in w.active && IsFor(cfg, w.active[id].req, d, h) && CacheFresh(cfg, w, d, h)
    requires w.active[id].pc.Looking? || w.active[id].pc.Invalidating?
    ensures OnlyOwnServed(Next(cfg, w, Act(id, Ok)), id, d, h)
  {
    hide DocTypeOf, CacheKey, Pending, LatestSays;
  }

  lemma OwnStays(cfg: Config, w: World, id: nat, how: How, d: string, h: Digest)
    requires Enabled(w, Act(id, how)) && IsFor(cfg, w.active[id].req, d, h) && OnlyOwnServed(w, id, d, h)
    ensures OnlyOwnServed(Advance(cfg, w, id, how), id, d, h)
  {
    hide Advance, Served, CacheKey, DocTypeOf, ToResponse, Goes, Tells, TouchedKey, Store.Commit, SameAt;
    var w' := Advance(cfg, w, id, how);
    var s := w.active[id];
    AdvanceMoves(cfg, w, id, how);
    if id in w'.active {
      HolderGoes(cfg, w, id, how);
      forall r | Served(w'.redis, w'.now, CacheKey(d, h), r)
        ensures Holds(w'.active[id].pc) && ToResponse(r) == ToResponse(w'.active[id].pc.result)
      {
        ServedChange(cfg, w, Act(id, how), d, h, r);
        UncachedSays(s.pc);
      }
    }
  }

  lemma UncachedSays(pc: Pc)
    ensures Holds(pc) ==> ToResponse(Uncached(pc.result)) == ToResponse(pc.result)
  {
  }

  lemma HolderGoes(cfg: Config, w: World, id: nat, how: How)
    requires Enabled(w, Act(id, how)) && id in Advance(cfg, w, id, how).active
    ensures var pc := Advance(cfg, w, id, how).active[id].pc;
            Holds(w.active[id].pc) ==> Holds(pc) && pc.result == w.active[id].pc.result
  {
    hide TxOf, Store.Commit, CacheKeyOf, DocTypeOf, CountStep, CallStep, ExpireStep, LookStep, ConsentStep,
      DeleteStep, ClockStep, PrepareStep;
  }

  /** A turn for the key whose cache read, or delete, goes through loses nothing. */
  lemma {:induction false} SteadyTurn(cfg: Config, hist: seq<Event>, w: World, evs: seq<Event>, n: nat, d: string,
                                      h: Digest)
    requires Reaches(cfg, hist, w) && Orderly(cfg, hist, d, h) && Turn(cfg, w, evs) && n <= |evs|
    requires IsFor(cfg, evs[0].req, d, h) && (|evs| > 2 ==> evs[2].Act? && evs[2].how.Ok?)
    ensures Orderly(cfg, hist + evs[..n], d, h)
    ensures Exec(cfg, w, evs[..n]).Some? && (n > 2 ==> OnlyOwnServed(StateAt(cfg, w, evs, n), w.next, d, h))
  {
    hide Exec, Turn, IsFor, Orderly, OnlyOwnServed, Spoils;
    TurnPrefix(cfg, w, evs, n);
    if n == 0 {
      assert hist + evs[..0] == hist;
    } else {
      SteadyTurn(cfg, hist, w, evs, n - 1, d, h);
      NoSpoilWhenSteady(cfg, w, evs, n - 1, d, h);
      TurnOn(cfg, hist, w, evs, n - 1, d, h);
      if n > 2 {
        ServedOn(cfg, hist, w, evs, n - 1, d, h);
      }
    }
  }

  lemma NoSpoilWhenSteady(cfg: Config, w: World, evs: seq<Event>, n: nat, d: string, h: Digest)
    requires Turn(cfg, w, evs) && n < |evs| && Exec(cfg, w, evs[..n]).Some?
    requires n > 2 ==> OnlyOwnServed(StateAt(cfg, w, evs, n), w.next, d, h)
    ensures !Spoils(cfg, StateAt(cfg, w, evs, n), evs[n], d, h)
  {
    hide Exec, IsFor, Served, CacheKey, ToResponse;
    if n > 0 {
      Stages(cfg, w, evs, n);
      assert evs[n] == evs[1..][n - 1];
    }
  }

  lemma ServedOn(cfg: Config, hist: seq<Event>, w: World, evs: seq<Event>, n: nat, d: string, h: Digest)
    requires Turn(cfg, w, evs) && 1 < n < |evs| && Exec(cfg, w, evs[..n]).Some? && IsFor(cfg, evs[0].req, d, h)
    requires Reaches(cfg, hist + evs[..n], StateAt(cfg, w, evs, n)) && Orderly(cfg, hist + evs[..n], d, h)
    requires n == 2 ==> evs[2].Act? && evs[2].how.Ok?
    requires n > 2 ==> OnlyOwnServed(StateAt(cfg, w, evs, n), w.next, d, h)
    ensures Exec(cfg, w, evs[..n + 1]).Some? && OnlyOwnServed(StateAt(cfg, w, evs, n + 1), w.next, d, h)
  {
    hide Exec, IsFor, OnlyOwnServed, Orderly, Advance, CacheFresh, HolderFresh, IsFresh, Alone;
    var v := StateAt(cfg, w, evs, n);
    ExecPrefix(cfg, w, evs, n);
    Stages(cfg, w, evs, n);
    assert evs[n] == evs[1..][n - 1];
    if n == 2 {
      Freshness.InvHolds(cfg, hist + evs[..n], v, d, h);
      ReadGivesOwn(cfg, v, w.next, d, h);
    } else {
      OwnStays(cfg, v, w.next, evs[n].how, d, h);
    }
  }

  // ---- a turn whose cache write goes through ----

  /** The turn ends with no request being handled, in a refusal, or with its last step before the answer working. */
  ghost predicate Finishes(cfg: Config, w: World, evs: seq<Event>) {
    && Turn(cfg, w, evs)
    && (var w' := Exec(cfg, w, evs).value;
        && w'.active == map[] && w'.log != []
        && (w'.log[|w'.log| - 1].Refused?
            || (|evs| >= 2 && evs[|evs| - 2].Act? && evs[|evs| - 2].how.Ok?)))
  }

  lemma ReplyEnds(cfg: Config, w: World, id: nat, how: How)
    requires Enabled(w, Act(id, how)) && w.active[id].pc.Replying?
    ensures var w' := Next(cfg, w, Act(id, how));
            w'.active == w.active - {id} && w'.log != [] && w'.log[|w'.log| - 1].Replied?
  {
    hide DocTypeOf;
  }

  lemma OwnEvent(id: nat, evs: seq<Event>, m: nat)
    requires evs != [] && Own(id, evs[1..]) && 1 <= m < |evs|
    ensures evs[m].Act? && evs[m].id == id
  {
    assert evs[m] == evs[1..][m - 1];
  }

  /** While a request is being handled the turn goes on, and afterwards it does not. */
  lemma TurnGoesOn(cfg: Config, w: World, evs: seq<Event>, m: nat)
    requires Turn(cfg, w, evs) && Exec(cfg, w, evs).value.active == map[]
    requires 1 <= m <= |evs| && Exec(cfg, w, evs[..m]).Some?
    ensures StateAt(cfg, w, evs, m).active != map[] <==> m < |evs|
  {
    hide Exec;
    if m < |evs| {
      ExecPrefix(cfg, w, evs, m);
      OwnEvent(w.next, evs, m);
    } else {
      assert evs[..m] == evs;
    }
  }

  /** A lost write is followed by the answer, and that is the end of the turn. */
  lemma LossIsLate(cfg: Config, w: World, evs: seq<Event>, n: nat)
    requires Finishes(cfg, w, evs) && 0 < n < |evs| && Exec(cfg, w, evs[..n]).Some?
    requires var v := StateAt(cfg, w, evs, n);
             w.next in v.active && evs[n].Act? && LosesWrite(cfg, v.active[w.next].pc, evs[n].how)
    ensures n == |evs| - 2 && evs[n].how.Ok?
  {
    hide Exec, Next, PastStage;
    var id, v := w.next, StateAt(cfg, w, evs, n);
    Stages(cfg, w, evs, n);
    ExecPrefix(cfg, w, evs, n);
    OwnEvent(id, evs, n);
    Stale.LossStep(cfg, v, id, evs[n].how);
    var u := StateAt(cfg, w, evs, n + 1);
    assert id in u.active;
    TurnGoesOn(cfg, w, evs, n + 1);
    ExecPrefix(cfg, w, evs, n + 1);
    OwnEvent(id, evs, n + 1);
    ReplyEnds(cfg, u, id, evs[n + 1].how);
    TurnGoesOn(cfg, w, evs, n + 2);
    assert evs[..n + 2] == evs;
  }

  /** A turn for the key whose cache write goes through, or that comes to none, loses nothing. */
  lemma {:induction false} WritingTurn(cfg: Config, hist: seq<Event>, w: World, evs: seq<Event>, n: nat, d: string,
                                       h: Digest)
    requires Reaches(cfg, hist, w) && Orderly(cfg, hist, d, h) && Finishes(cfg, w, evs) && n <= |evs|
    ensures Orderly(cfg, hist + evs[..n], d, h)
  {
    hide Exec, Turn, IsFor, Orderly, Spoils, Finishes;
    if n == 0 {
      assert hist + evs[..0] == hist;
    } else {
      WritingTurn(cfg, hist, w, evs, n - 1, d, h);
      FinishesTurn(cfg, w, evs, n - 1);
      NoSpoilWhenWritten(cfg, hist, w, evs, n - 1, d, h);
      TurnOn(cfg, hist, w, evs, n - 1, d, h);
    }
  }

  lemma FinishesTurn(cfg: Config, w: World, evs: seq<Event>, n: nat)
    requires Finishes(cfg, w, evs) && n <= |evs|
    ensures Turn(cfg, w, evs) && Exec(cfg, w, evs[..n]).Some?
  {
    hide Exec;
    ExecPrefix(cfg, w, evs, n);
  }

  lemma NoSpoilWhenWritten(cfg: Config, hist: seq<Event>, w: World, evs: seq<Event>, n: nat, d: string, h: Digest)
    requires Finishes(cfg, w, evs) && n < |evs| && Exec(cfg, w, evs[..n]).Some?
    requires Reaches(cfg, hist, w) && Orderly(cfg, hist + evs[..n], d, h)
    ensures !Spoils(cfg, StateAt(cfg, w, evs, n), evs[n], d, h)
  {
    hide Exec, IsFor, Served, CacheKey, ToResponse, Orderly, Pending, LatestSays, HolderFresh, IsFresh, Alone,
      PastStage;
    var v := StateAt(cfg, w, evs, n);
    ExecConcat(cfg, START, hist, w, evs[..n], v);
    Freshness.InvHolds(cfg, hist + evs[..n], v, d, h);
    if n > 0 && w.next in v.active {
      Stages(cfg, w, evs, n);
      assert evs[n] == evs[1..][n - 1];
      if LosesWrite(cfg, v.active[w.next].pc, evs[n].how) {
        LossIsLate(cfg, w, evs, n);
      }
    } else if n > 0 {
      Stages(cfg, w, evs, n);
    }
  }
}
