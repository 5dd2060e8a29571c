/** Consent before processing, in every interleaved run. */
module Consent {
  import opened Domain
  import opened Identity
  import opened Protocol
  import opened Provenance
  import Quota
  import Store

  /** Request `id` left consent `c` in the table, or its consent insert failed. */
  ghost predicate Vouched(log: seq<Fact>, id: nat, c: ConsentRow) {
    exists j :: 0 <= j < |log| && (log[j] == Consented(id, c) || log[j] == ConsentLost(id))
  }

  /** Before fact `i`, the request behind it left a consent for this subject, type and digest, under
      the policy that type requires, or lost it. */
  ghost predicate Covered(log: seq<Fact>, i: nat, subject: string, docType: string, sha: string)
    requires i < |log|
  {
    exists email :: Vouched(log[..i], log[i].id, ConsentRow(subject, email, RequiredPolicy(docType), sha, docType))
  }

  ghost predicate FactCovered(cfg: Config, log: seq<Fact>, i: nat)
    requires i < |log|
  {
    match log[i]
    case Called(_, _, subject, d, c, _, _, _) => Covered(log, i, subject, d, cfg.sha(c))
    case Stored(_, tx) => Covered(log, i, tx.rec.subject, tx.rec.docType, tx.rec.sha)
    case _ => true
  }

  ghost predicate Inv(cfg: Config, w: World) {
    && (forall id :: id in w.active && !w.active[id].pc.Consenting? ==>
         Vouched(w.log, id, ConsentOf(cfg, w.active[id].req)))
    && (forall i :: 0 <= i < |w.log| ==> FactCovered(cfg, w.log, i))
  }

  lemma VouchedGrows(a: seq<Fact>, b: seq<Fact>, id: nat, c: ConsentRow)
    requires a <= b && Vouched(a, id, c)
    ensures Vouched(b, id, c)
  {
    var j :| 0 <= j < |a| && (a[j] == Consented(id, c) || a[j] == ConsentLost(id));
    assert b[j] == a[j];
  }

  lemma CoveredStays(cfg: Config, a: seq<Fact>, b: seq<Fact>, i: nat)
    requires a <= b && i < |a| && FactCovered(cfg, a, i)
    ensures FactCovered(cfg, b, i)
  {
    assert b[i] == a[i] && b[..i] == a[..i];
  }

  /** A call or a stored row of a request that has been vouched for is covered. */
  lemma NewFactCovered(cfg: Config, w: World, id: nat, log: seq<Fact>)
    requires id in w.active && |log| > |w.log| && log[..|w.log|] == w.log
    requires Tells(cfg, w.now, id, w.active[id], log[|w.log|])
    requires w.active[id].pc.Consenting? || Vouched(w.log, id, ConsentOf(cfg, w.active[id].req))
    ensures FactCovered(cfg, log, |w.log|)
  {
    hide Vouched, DocTypeOf, ActorOf, BucketOf;
    var s := w.active[id];
    var f := log[|w.log|];
    if f.Called? || f.Stored? {
      var c := ConsentOf(cfg, s.req);
      assert Vouched(log[..|w.log|], id, ConsentRow(c.subject, c.email, c.policy, c.sha, c.docType));
    }
  }

  lemma FactsKept(cfg: Config, w: World, e: Event)
    requires Inv(cfg, w) && Enabled(w, e)
    ensures forall i :: 0 <= i < |Next(cfg, w, e).log| ==> FactCovered(cfg, Next(cfg, w, e).log, i)
  {
    hide Next, Vouched, Covered, ConsentOf, TxOf, DocTypeOf, ActorOf, BucketOf;
    var w' := Next(cfg, w, e);
    StepGrows(cfg, w, e);
    forall i | 0 <= i < |w'.log| ensures FactCovered(cfg, w'.log, i) {
      if i < |w.log| {
        CoveredStays(cfg, w.log, w'.log, i);
      } else {
        NewFact(cfg, w, e, i);
        if i == |w.log| && e.Act? {
          NewFactCovered(cfg, w, e.id, w'.log);
        }
      }
    }
  }

  lemma SessionsKept(cfg: Config, w: World, e: Event, id: nat)
    requires Inv(cfg, w) && Enabled(w, e)
    requires id in Next(cfg, w, e).active && !Next(cfg, w, e).active[id].pc.Consenting?
    ensures Vouched(Next(cfg, w, e).log, id, ConsentOf(cfg, Next(cfg, w, e).active[id].req))
  {
    hide Advance, Vouched, ConsentOf, TxOf, DocTypeOf, ActorOf, BucketOf, TouchedKey, Admissible, FactCovered,
      Store.Commit;
    var w' := Next(cfg, w, e);
    StepGrows(cfg, w, e);
    if e.Act? {
      AdvanceMoves(cfg, w, e.id, e.how);
    }
    if e.Act? && e.id == id && w.active[id].pc.Consenting? {
      ConsentLeft(cfg, w, id, e.how);
    } else {
      VouchedGrows(w.log, w'.log, id, ConsentOf(cfg, w.active[id].req));
    }
  }

  lemma ConsentLeft(cfg: Config, w: World, id: nat, how: How)
    requires Enabled(w, Act(id, how)) && w.active[id].pc.Consenting?
    ensures Vouched(Advance(cfg, w, id, how).log, id, ConsentOf(cfg, w.active[id].req))
  {
    hide ConsentOf, Refreshes;
    var w' := ConsentStep(cfg, w, id, how);
    assert w'.log[|w.log|] in {Consented(id, ConsentOf(cfg, w.active[id].req)), ConsentLost(id)};
  }

  lemma {:induction false} InvHolds(cfg: Config, evs: seq<Event>, w: World)
    requires Reaches(cfg, evs, w)
    ensures Inv(cfg, w)
    decreases |evs|
  {
    hide Next, FactCovered, Vouched, ConsentOf;
    if evs != [] {
      var v := RunStep(cfg, evs, w);
      var e := evs[|evs| - 1];
      InvHolds(cfg, evs[..|evs| - 1], v);
      FactsKept(cfg, v, e);
      forall id | id in w.active && !w.active[id].pc.Consenting?
        ensures Vouched(w.log, id, ConsentOf(cfg, w.active[id].req))
      {
        SessionsKept(cfg, v, e, id);
      }
    }
  }

  /** A consent row for this subject, type and digest under the required policy stands before `i`. */
  ghost predicate ConsentBefore(log: seq<Fact>, i: nat, subject: string, docType: string, sha: string)
    requires i < |log|
  {
    exists j :: 0 <= j < i && log[j].Consented? && log[j].id == log[i].id && log[j].consent.subject == subject
      && log[j].consent.docType == docType && log[j].consent.sha == sha
      && log[j].consent.policy == RequiredPolicy(docType)
  }

  // ---- one consent step per request ----

  predicate IsConsent(f: Fact) { f.Consented? || f.ConsentLost? }

  /** Request `id` has not been at its consent step. */
  ghost predicate Unsaid(log: seq<Fact>, id: nat) {
    forall i :: 0 <= i < |log| && IsConsent(log[i]) ==> log[i].id != id
  }

  ghost predicate SaidOnce(log: seq<Fact>) {
    forall i, j :: 0 <= i < j < |log| && IsConsent(log[i]) && IsConsent(log[j]) ==> log[i].id != log[j].id
  }

  ghost predicate Once(w: World) {
    (forall id :: id in w.active && w.active[id].pc.Consenting? ==> Unsaid(w.log, id)) && SaidOnce(w.log)
  }

  lemma UnsaidGrows(a: seq<Fact>, b: seq<Fact>, id: nat)
    requires a <= b && Unsaid(a, id)
    requires forall i :: |a| <= i < |b| ==> !IsConsent(b[i]) || b[i].id != id
    ensures Unsaid(b, id)
  {
    assert forall i :: 0 <= i < |a| ==> b[i] == a[i];
  }

  /** A step says consent only for a request that was about to. */
  lemma SaidOnceGrows(a: seq<Fact>, b: seq<Fact>)
    requires a <= b && SaidOnce(a)
    requires forall i :: |a| <= i < |b| && IsConsent(b[i]) ==> i == |a| && Unsaid(a, b[i].id)
    ensures SaidOnce(b)
  {
    hide IsConsent;
    assert forall i :: 0 <= i < |a| ==> b[i] == a[i];
  }

  lemma NewIdUnsaid(cfg: Config, w: World)
    requires Quota.Tidy(cfg, w)
    ensures Unsaid(w.log, w.next)
  {
    hide Quota.SessionTidy;
    forall i | 0 <= i < |w.log| ensures w.log[i].id != w.next {
      assert Quota.FactTidy(w.log, w.next, w.active, i);
    }
  }

  lemma OnceKept(cfg: Config, w: World, e: Event)
    requires Once(w) && Quota.Tidy(cfg, w) && Enabled(w, e)
    ensures Once(Next(cfg, w, e))
  {
    hide Advance, Quota.Tidy, Unsaid, SaidOnce, ConsentOf, TxOf, DocTypeOf, ActorOf, BucketOf, TouchedKey, Admissible,
      Store.Commit;
    var w' := Next(cfg, w, e);
    StepGrows(cfg, w, e);
    if e.Act? {
      AdvanceMoves(cfg, w, e.id, e.how);
    }
    SaidOnceGrows(w.log, w'.log);
    NewIdUnsaid(cfg, w);
    forall id | id in w'.active && w'.active[id].pc.Consenting? ensures Unsaid(w'.log, id) {
      UnsaidGrows(w.log, w'.log, id);
    }
  }

  lemma {:induction false} OnceHolds(cfg: Config, evs: seq<Event>, w: World)
    requires Reaches(cfg, evs, w)
    ensures Once(w)
    decreases |evs|
  {
    hide Next, Once, Quota.Tidy;
    if evs == [] {
      NothingSaid();
    } else {
      var v := RunStep(cfg, evs, w);
      OnceHolds(cfg, evs[..|evs| - 1], v);
      Quota.TidyHolds(cfg, evs[..|evs| - 1], v);
      OnceKept(cfg, v, evs[|evs| - 1]);
    }
  }

  lemma NothingSaid()
    ensures Once(START)
  {
  }

  /** The consent insert of request `id` was lost, or no consent store is configured. */
  ghost predicate LostConsent(log: seq<Fact>, id: nat) { exists j :: 0 <= j < |log| && log[j] == ConsentLost(id) }

  /** In every run an extractor call or a stored extraction is preceded by a consent row of the same request
      with the same subject, document type and digest, under the policy that document type requires, if and
      only if that request's own consent insert was not lost. */
  lemma ConsentPrecedes(cfg: Config, evs: seq<Event>, w: World, i: nat)
    requires Reaches(cfg, evs, w) && i < |w.log|
    ensures var f := w.log[i];
            f.Called? ==> (ConsentBefore(w.log, i, f.subject, f.docType, cfg.sha(f.content)) <==>
              !LostConsent(w.log, f.id))
    ensures var f := w.log[i];
            f.Stored? ==>
              (ConsentBefore(w.log, i, f.tx.rec.subject, f.tx.rec.docType, f.tx.rec.sha) <==> !LostConsent(w.log, f.id))
  {
    hide ConsentBefore, Covered, LostConsent, Exec;
    InvHolds(cfg, evs, w);
    OnceHolds(cfg, evs, w);
    assert FactCovered(cfg, w.log, i);
    var f := w.log[i];
    if f.Called? {
      FromCover(w.log, i, f.subject, f.docType, cfg.sha(f.content));
    } else if f.Stored? {
      FromCover(w.log, i, f.tx.rec.subject, f.tx.rec.docType, f.tx.rec.sha);
    }
  }

  lemma FromCover(log: seq<Fact>, i: nat, subject: string, docType: string, sha: string)
    requires i < |log| && Covered(log, i, subject, docType, sha) && SaidOnce(log)
    ensures ConsentBefore(log, i, subject, docType, sha) <==> !LostConsent(log, log[i].id)
  {
    var id := log[i].id;
    var email :| Vouched(log[..i], id, ConsentRow(subject, email, RequiredPolicy(docType), sha, docType));
    var c := ConsentRow(subject, email, RequiredPolicy(docType), sha, docType);
    var j :| 0 <= j < i && (log[..i][j] == Consented(id, c) || log[..i][j] == ConsentLost(id));
    assert log[j] == log[..i][j] && IsConsent(log[j]);
    forall k | 0 <= k < |log| && IsConsent(log[k]) && log[k].id == id ensures k == j {
    }
  }
}
