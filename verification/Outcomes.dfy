/** Every request ends once. */
module Outcomes {
  import opened Domain
  import opened Protocol
  import opened Provenance
  import Store

  /** No answer and no refusal of request `id` yet. */
  ghost predicate Open(log: seq<Fact>, id: nat) { forall i :: 0 <= i < |log| && IsEnd(log[i]) ==> log[i].id != id }

  ghost predicate Ended(log: seq<Fact>, id: nat) { exists i :: 0 <= i < |log| && IsEnd(log[i]) && log[i].id == id }

  ghost predicate EndsDiffer(log: seq<Fact>) {
    forall i, j :: 0 <= i < j < |log| && IsEnd(log[i]) && IsEnd(log[j]) ==> log[i].id != log[j].id
  }

  ghost predicate Inv(w: World) {
    && (forall i :: 0 <= i < |w.log| ==> w.log[i].id < w.next)
    && (forall id :: id in w.active ==> id < w.next && Open(w.log, id))
    && (forall id :: 0 <= id < w.next && id !in w.active ==> Ended(w.log, id))
    && EndsDiffer(w.log)
  }

  lemma OpenGrows(a: seq<Fact>, b: seq<Fact>, id: nat)
    requires a <= b && Open(a, id) && forall i :: |a| <= i < |b| ==> !IsEnd(b[i]) || b[i].id != id
    ensures Open(b, id)
  {
    assert forall i :: 0 <= i < |a| ==> b[i] == a[i];
  }

  lemma EndedGrows(a: seq<Fact>, b: seq<Fact>, id: nat)
    requires a <= b && Ended(a, id)
    ensures Ended(b, id)
  {
    var i :| 0 <= i < |a| && IsEnd(a[i]) && a[i].id == id;
    assert b[i] == a[i];
  }

  /** At most the last fact of a step is an end, and only of a request that had none. */
  lemma EndsStayDifferent(a: seq<Fact>, b: seq<Fact>)
    requires a <= b && EndsDiffer(a)
    requires forall i :: |a| <= i < |b| && IsEnd(b[i]) ==> i == |b| - 1 && Open(a, b[i].id)
    ensures EndsDiffer(b)
  {
    hide IsEnd;
    assert forall i :: 0 <= i < |a| ==> b[i] == a[i];
  }

  lemma ActKeeps(cfg: Config, w: World, id: nat, w': World)
    requires Inv(w) && id in w.active && Moves(cfg, w, id, w')
    ensures Inv(w')
  {
    hide Goes, TouchedKey, BucketOf, ConsentOf, TxOf, DocTypeOf, ActorOf, Store.Commit, SameAt, Open, Ended,
      EndsDiffer;
    EndsStayDifferent(w.log, w'.log);
    assert forall i :: 0 <= i < |w.log| ==> w'.log[i] == w.log[i];
    forall k | k in w'.active ensures Open(w'.log, k) {
      OpenGrows(w.log, w'.log, k);
    }
    forall k | 0 <= k < w'.next && k !in w'.active ensures Ended(w'.log, k) {
      if k == id {
        JustEnded(w'.log, id);
      } else {
        EndedGrows(w.log, w'.log, k);
      }
    }
  }

  lemma JustEnded(log: seq<Fact>, id: nat)
    requires log != [] && IsEnd(log[|log| - 1]) && log[|log| - 1].id == id
    ensures Ended(log, id)
  {
  }

  lemma ArriveKeeps(cfg: Config, w: World, req: Request, valid: bool)
    requires Inv(w)
    ensures Inv(Arrived(cfg, w, req, valid))
  {
    hide Admissible, Ended, EndsDiffer;
    var w' := Arrived(cfg, w, req, valid);
    assert Open(w.log, w.next);
    EndsStayDifferent(w.log, w'.log);
    assert forall i :: 0 <= i < |w.log| ==> w'.log[i] == w.log[i];
    forall k | 0 <= k < w'.next && k !in w'.active ensures Ended(w'.log, k) {
      if k == w.next {
        JustEnded(w'.log, k);
      } else {
        EndedGrows(w.log, w'.log, k);
      }
    }
  }

  lemma {:induction false} InvHolds(cfg: Config, evs: seq<Event>, w: World)
    requires Reaches(cfg, evs, w)
    ensures Inv(w)
    decreases |evs|
  {
    hide Advance, Arrived, Open, Ended, EndsDiffer;
    if evs == [] {
      NothingEnded();
    } else {
      var v := RunStep(cfg, evs, w);
      var e := evs[|evs| - 1];
      InvHolds(cfg, evs[..|evs| - 1], v);
      match e {
        case Act(id, how) =>
          AdvanceMoves(cfg, v, id, how);
          ActKeeps(cfg, v, id, w);
        case Arrive(req, valid) => ArriveKeeps(cfg, v, req, valid);
        case _ =>
      }
    }
  }

  lemma NothingEnded()
    ensures EndsDiffer([])
  {
  }

  /** In every run a request that has arrived is either still being handled, without any outcome, or has ended with
      exactly one answer or refusal. */
  lemma ExactlyOneOutcome(cfg: Config, evs: seq<Event>, w: World, id: nat)
    requires Reaches(cfg, evs, w) && id < w.next
    ensures id in w.active ==> forall i :: 0 <= i < |w.log| && IsEnd(w.log[i]) ==> w.log[i].id != id
    ensures id !in w.active ==> exists i :: 0 <= i < |w.log| && IsEnd(w.log[i]) && w.log[i].id == id
    ensures forall i, j :: 0 <= i < j < |w.log| && IsEnd(w.log[i]) && IsEnd(w.log[j]) ==> w.log[i].id != w.log[j].id
  {
    hide Exec;
    InvHolds(cfg, evs, w);
  }
}
