/** The extractions table over whole runs. */
module Ledger {
  import opened Text
  import opened Domain
  import opened Identity
  import opened Protocol
  import opened Provenance
  import Refresh
  import Store

  /** The committed transactions of a log, in order. */
  function Txs(log: seq<Fact>): seq<Store.Tx> {
    if log == [] then []
    else
      var f := log[|log| - 1];
      Txs(log[..|log| - 1]) + (if f.Stored? then [f.tx] else [])
  }

  lemma TxsAppend(log: seq<Fact>, f: Fact)
    ensures Txs(log + [f]) == Txs(log) + (if f.Stored? then [f.tx] else [])
  {
    assert (log + [f])[..|log|] == log;
  }

  lemma AfterAppend(txs: seq<Store.Tx>, tx: Store.Tx)
    ensures Store.After(txs + [tx]) == Store.Commit(Store.After(txs), tx)
  {
    assert (txs + [tx])[..|txs|] == txs;
  }

  /** One step adds the transaction it records, if any, to the history behind the table. */
  lemma HistoryStep(a: seq<Fact>, b: seq<Fact>, rows: seq<Store.Row>, rows': seq<Store.Row>)
    requires a <= b && |b| <= |a| + 2 && rows == Store.After(Txs(a))
    requires |b| == |a| + 2 ==> !b[|a| + 1].Stored?
    requires rows' == if |b| > |a| && b[|a|].Stored? then Store.Commit(rows, b[|a|].tx) else rows
    ensures rows' == Store.After(Txs(b))
  {
    hide Store.Commit, Store.After, Txs;
    if |b| == |a| {
      assert b == a;
    } else {
      var m := a + [b[|a|]];
      OneFact(a, b[|a|], rows, rows');
      if |b| == |a| + 2 {
        assert b == m + [b[|a| + 1]];
        OneFact(m, b[|a| + 1], rows', rows');
      } else {
        assert b == m;
      }
    }
  }

  lemma OneFact(a: seq<Fact>, f: Fact, rows: seq<Store.Row>, rows': seq<Store.Row>)
    requires rows == Store.After(Txs(a)) && rows' == if f.Stored? then Store.Commit(rows, f.tx) else rows
    ensures rows' == Store.After(Txs(a + [f]))
  {
    hide Store.Commit, Store.After, Txs;
    TxsAppend(a, f);
    if f.Stored? {
      AfterAppend(Txs(a), f.tx);
    } else {
      assert Txs(a) + [] == Txs(a);
    }
  }

  /** In every run the table is the result of the committed transactions, one after the other. */
  lemma {:induction false} TableIsHistory(cfg: Config, evs: seq<Event>, w: World)
    requires Reaches(cfg, evs, w)
    ensures w.rows == Store.After(Txs(w.log))
    decreases |evs|
  {
    hide Advance, Admissible, Tells, TouchedKey, Goes, Store.Commit, Store.After;
    if evs == [] {
      EmptyTable();
    } else {
      var v := RunStep(cfg, evs, w);
      var e := evs[|evs| - 1];
      TableIsHistory(cfg, evs[..|evs| - 1], v);
      if e.Act? {
        AdvanceMoves(cfg, v, e.id, e.how);
      }
      HistoryStep(v.log, w.log, v.rows, w.rows);
    }
  }

  lemma EmptyTable()
    ensures Store.After([]) == []
  {
  }

  /** Conservation in every run: for each document type, digest and subject, the active rows are the
      inserts since the last refresh of that key, plus the row the refresh left. */
  lemma ActiveRows(cfg: Config, evs: seq<Event>, w: World, key: Store.Key)
    requires Reaches(cfg, evs, w)
    ensures var txs := Txs(w.log);
            Store.Active(w.rows, key) == Store.InsertsSince(txs, key) + (if Store.HasReplace(txs, key) then 1 else 0)
  {
    TableIsHistory(cfg, evs, w);
    Store.ActiveHistory(Txs(w.log), key);
  }

  /** Along every run rows are only added, and no deleted row comes back. */
  lemma {:induction false} RowsOnlyGrow(cfg: Config, evs: seq<Event>, n: nat, v: World, w: World)
    requires n <= |evs| && Reaches(cfg, evs[..n], v) && Reaches(cfg, evs, w)
    ensures Store.Evolves(v.rows, w.rows)
    decreases |evs| - n
  {
    hide Next;
    if n == |evs| {
      assert evs[..n] == evs;
    } else {
      var m := |evs| - 1;
      var u := RunStep(cfg, evs, w);
      assert evs[..m][..n] == evs[..n];
      RowsOnlyGrow(cfg, evs[..m], n, v, u);
      StepGrows(cfg, u, evs[m]);
      Store.EvolvesTransitive(v.rows, u.rows, w.rows);
    }
  }

  // ---- failed requests ----

  ghost predicate NeverStored(log: seq<Fact>, id: nat) {
    forall i :: 0 <= i < |log| && log[i].Stored? ==> log[i].id != id
  }

  /** Requests that have not committed, or were refused, have stored nothing. */
  ghost predicate Inv(w: World) {
    && (forall id :: id in w.active ==> id < w.next)
    && (forall id :: id in w.active && !w.active[id].pc.Caching? && !w.active[id].pc.Replying? ==>
          NeverStored(w.log, id))
    && (forall i :: 0 <= i < |w.log| ==> w.log[i].id < w.next)
    && (forall i :: 0 <= i < |w.log| && w.log[i].Refused? ==>
         w.log[i].id !in w.active && NeverStored(w.log, w.log[i].id))
  }

  lemma NeverStoredGrows(a: seq<Fact>, b: seq<Fact>, id: nat)
    requires a <= b && NeverStored(a, id)
    requires forall i :: |a| <= i < |b| ==> !b[i].Stored? || b[i].id != id
    ensures NeverStored(b, id)
  {
    assert forall i :: 0 <= i < |a| ==> b[i] == a[i];
  }

  /** What a step of request `id` says about the requests that have stored nothing. */
  lemma ActKeeps(cfg: Config, w: World, id: nat, w': World)
    requires Inv(w) && id in w.active && Moves(cfg, w, id, w')
    ensures Inv(w')
  {
    hide Moves, NeverStored;
    OthersKeep(cfg, w, id, w');
    RefusedKeep(cfg, w, id, w');
  }

  lemma OthersKeep(cfg: Config, w: World, id: nat, w': World)
    requires Inv(w) && id in w.active && Moves(cfg, w, id, w')
    ensures forall k :: k in w'.active ==> k < w'.next
    ensures forall k :: k in w'.active && !w'.active[k].pc.Caching? && !w'.active[k].pc.Replying? ==>
              NeverStored(w'.log, k)
  {
    hide TouchedKey, BucketOf, ConsentOf, TxOf, DocTypeOf, ActorOf, Refreshes, Store.Commit, SameAt, NeverStored;
    forall k | k in w'.active && !w'.active[k].pc.Caching? && !w'.active[k].pc.Replying?
      ensures NeverStored(w'.log, k)
    {
      assert k == id ==> Goes(cfg, w, id, w.active[id], w'.active[id].pc, w');
      NeverStoredGrows(w.log, w'.log, k);
    }
  }

  lemma RefusedKeep(cfg: Config, w: World, id: nat, w': World)
    requires Inv(w) && id in w.active && Moves(cfg, w, id, w')
    ensures forall i :: 0 <= i < |w'.log| ==> w'.log[i].id < w'.next
    ensures forall i :: 0 <= i < |w'.log| && w'.log[i].Refused? ==>
              w'.log[i].id !in w'.active && NeverStored(w'.log, w'.log[i].id)
  {
    hide TouchedKey, BucketOf, ConsentOf, TxOf, DocTypeOf, ActorOf, Refreshes, Store.Commit, SameAt, NeverStored,
      Goes;
    forall i | 0 <= i < |w'.log| ensures w'.log[i].id < w'.next {
      assert i < |w.log| ==> w'.log[i] == w.log[i];
    }
    forall i | 0 <= i < |w'.log| && w'.log[i].Refused?
      ensures w'.log[i].id !in w'.active && NeverStored(w'.log, w'.log[i].id)
    {
      if i < |w.log| {
        assert w'.log[i] == w.log[i];
        NeverStoredGrows(w.log, w'.log, w.log[i].id);
      } else {
        assert Tells(cfg, w.now, id, w.active[id], w'.log[i]);
        NeverStoredGrows(w.log, w'.log, id);
      }
    }
  }

  lemma ArriveKeeps(cfg: Config, w: World, req: Request, valid: bool)
    requires Inv(w)
    ensures Inv(Arrived(cfg, w, req, valid))
  {
    hide Admissible, NeverStored;
    var w' := Arrived(cfg, w, req, valid);
    NewIdStoredNothing(w, w'.log);
    forall k | k in w'.active && k != w.next ensures NeverStored(w.log, k) ==> NeverStored(w'.log, k) {
      if NeverStored(w.log, k) {
        NeverStoredGrows(w.log, w'.log, k);
      }
    }
    forall i | 0 <= i < |w.log| && w.log[i].Refused? ensures NeverStored(w'.log, w.log[i].id) {
      NeverStoredGrows(w.log, w'.log, w.log[i].id);
    }
  }

  lemma NewIdStoredNothing(w: World, log: seq<Fact>)
    requires Inv(w) && w.log <= log && forall i :: |w.log| <= i < |log| ==> !log[i].Stored?
    ensures NeverStored(log, w.next)
  {
    assert forall i :: 0 <= i < |w.log| ==> log[i] == w.log[i];
  }

  lemma {:induction false} InvHolds(cfg: Config, evs: seq<Event>, w: World)
    requires Reaches(cfg, evs, w)
    ensures Inv(w)
    decreases |evs|
  {
    hide Advance, Arrived, NeverStored;
    if evs != [] {
      var v := RunStep(cfg, evs, w);
      var e := evs[|evs| - 1];
      InvHolds(cfg, evs[..|evs| - 1], v);
      match e {
        case Act(id, how) =>
          AdvanceMoves(cfg, v, id, how);
          ActKeeps(cfg, v, id, w);
        case Arrive(req, valid) => ArriveKeeps(cfg, v, req, valid);
        case _ =>
      }
    }
  }

  /** In every run a request that was refused, a refresh included, stored nothing and so soft-deleted
      nothing: only a committed transaction changes the table. */
  lemma RefusedChangesNothing(cfg: Config, evs: seq<Event>, w: World, i: nat, j: nat)
    requires Reaches(cfg, evs, w)
    requires i < |w.log| && w.log[i].Refused? && j < |w.log| && w.log[j].Stored?
    ensures w.log[j].id != w.log[i].id
  {
    InvHolds(cfg, evs, w);
  }

  /** The table changes only in a transaction step that succeeds. */
  lemma OnlyCommitsChangeRows(cfg: Config, w: World, e: Event)
    requires Enabled(w, e) && Next(cfg, w, e).rows != w.rows
    ensures e.Act? && w.active[e.id].pc.Committing? && cfg.hasStore && !e.how.Fail?
    ensures Next(cfg, w, e).rows == Store.Commit(w.rows,
              TxOf(cfg, w.now, w.active[e.id].req, w.active[e.id].pc.result, w.active[e.id].pc.replace))
  {
    hide Advance, Admissible, TouchedKey, Goes, ConsentOf, TxOf, BucketOf, DocTypeOf, ActorOf, Store.Commit;
    if e.Act? {
      AdvanceMoves(cfg, w, e.id, e.how);
      assert Tells(cfg, w.now, e.id, w.active[e.id], Next(cfg, w, e).log[|w.log|]);
      CommitOutcome(cfg, w, e.id, e.how);
    }
  }

  lemma CommitOutcome(cfg: Config, w: World, id: nat, how: How)
    requires Enabled(w, Act(id, how)) && w.active[id].pc.Committing?
    ensures Advance(cfg, w, id, how).rows != w.rows ==> cfg.hasStore && !how.Fail?
  {
    hide TxOf, Store.Commit;
  }

  // ---- what a user reads ----

  /** Row `i` of the table is what transaction `i` inserted, up to the deleted flag. */
  lemma {:induction false} RowOfTx(txs: seq<Store.Tx>, i: nat)
    requires i < |txs|
    ensures |Store.After(txs)| == |txs|
    ensures Store.After(txs)[i].(deleted := false) == Store.RowOf(txs[i].rec, txs[i].now)
  {
    hide Store.RowOf, Store.KeyOf, Store.IsActive;
    var n := |txs| - 1;
    AfterLength(txs[..n]);
    if i < n {
      RowOfTx(txs[..n], i);
    } else {
      FreshRow(txs[n]);
    }
  }

  lemma {:induction false} AfterLength(txs: seq<Store.Tx>)
    ensures |Store.After(txs)| == |txs|
  {
    if txs != [] {
      AfterLength(txs[..|txs| - 1]);
    }
  }

  lemma FreshRow(tx: Store.Tx)
    ensures !Store.RowOf(tx.rec, tx.now).deleted
  {
  }

  lemma {:induction false} TxLogged(log: seq<Fact>, i: nat)
    requires i < |Txs(log)|
    ensures exists k :: 0 <= k < |log| && log[k].Stored? && log[k].tx == Txs(log)[i]
  {
    var n := |log| - 1;
    if i < |Txs(log[..n])| {
      TxLogged(log[..n], i);
      var k :| 0 <= k < n && log[..n][k].Stored? && log[..n][k].tx == Txs(log[..n])[i];
      assert log[k] == log[..n][k];
    } else {
      assert log[n].Stored? && log[n].tx == Txs(log)[i];
    }
  }

  /** Some request stored this row, for this subject. */
  ghost predicate StoredFor(log: seq<Fact>, row: Store.Row, subject: string) {
    exists k :: 0 <= k < |log| && log[k].Stored? && log[k].tx.rec.subject == subject
      && log[k].tx.rec.docType == row.docType && log[k].tx.rec.sha == row.sha && log[k].tx.rec.result == row.result
  }

  lemma OwnedWasStored(cfg: Config, evs: seq<Event>, w: World, id: nat, subject: string)
    requires Reaches(cfg, evs, w) && Store.Owned(w.rows, id, subject)
    ensures StoredFor(w.log, w.rows[id], subject)
  {
    hide Store.After, Txs, Exec;
    TableIsHistory(cfg, evs, w);
    var txs := Txs(w.log);
    AfterLength(txs);
    RowOfTx(txs, id);
    TxLogged(w.log, id);
    var k :| 0 <= k < |w.log| && w.log[k].Stored? && w.log[k].tx == txs[id];
    var rec := w.log[k].tx.rec;
    assert rec.subject == subject && rec.docType == w.rows[id].docType && rec.result == w.rows[id].result;
  }

  /** In every run, whatever a caller lists or fetches is active and was stored by a request attributed to
      the same subject as the caller, up to the white space that reading trims off. */
  lemma ReadsAreOwn(cfg: Config, evs: seq<Event>, w: World, p: Principal, h: Headers, docType: string, limit: int,
                    id: nat)
    requires Reaches(cfg, evs, w)
    ensures var subject := ResolveActor(cfg.secret, p, h).subject;
            var l := Store.ListSpec(w.rows, subject, docType, limit);
            (l.Listed? && id in l.ids) || Store.Owned(w.rows, id, TrimSpace(subject)) ==>
              id < |w.rows| && !w.rows[id].deleted && StoredFor(w.log, w.rows[id], TrimSpace(subject))
  {
    hide Store.ListSpec, ResolveActor, StoredFor, Exec;
    var subject := ResolveActor(cfg.secret, p, h).subject;
    Store.ReadsAreScoped(w.rows, subject, docType, limit);
    var l := Store.ListSpec(w.rows, subject, docType, limit);
    if (l.Listed? && id in l.ids) || Store.Owned(w.rows, id, TrimSpace(subject)) {
      if l.Listed? && id in l.ids {
        var k :| 0 <= k < |l.ids| && l.ids[k] == id;
      }
      OwnedWasStored(cfg, evs, w, id, TrimSpace(subject));
    }
  }

  /** In every run the rows stand in the order of their creation times, none later than now: listing by position is
      listing by `created_at`. */
  lemma {:induction false} RowsInTime(cfg: Config, evs: seq<Event>, w: World)
    requires Reaches(cfg, evs, w)
    ensures Store.ByTime(w.rows) && forall i :: 0 <= i < |w.rows| ==> w.rows[i].created <= w.now
    decreases |evs|
  {
    hide Next, Store.ByTime;
    if evs == [] {
      NoRowsInTime();
    } else {
      var v := RunStep(cfg, evs, w);
      RowsInTime(cfg, evs[..|evs| - 1], v);
      TimeKept(cfg, v, evs[|evs| - 1]);
    }
  }

  lemma NoRowsInTime()
    ensures Store.ByTime([])
  {
  }

  lemma TimeKept(cfg: Config, w: World, e: Event)
    requires Enabled(w, e) && Store.ByTime(w.rows) && forall i :: 0 <= i < |w.rows| ==> w.rows[i].created <= w.now
    ensures var w' := Next(cfg, w, e); Store.ByTime(w'.rows) && forall i :: 0 <= i < |w'.rows| ==>
              w'.rows[i].created <= w'.now
  {
    hide Next, Store.ByTime, Store.Commit, TxOf;
    StepGrows(cfg, w, e);
    if Next(cfg, w, e).rows != w.rows {
      OnlyCommitsChangeRows(cfg, w, e);
      var s := w.active[e.id];
      TxTime(cfg, w.now, s.req, s.pc.result, s.pc.replace);
      CommitInTime(w.rows, TxOf(cfg, w.now, s.req, s.pc.result, s.pc.replace), w.now);
    }
  }

  lemma TxTime(cfg: Config, now: nat, req: Request, result: Result, replace: bool)
    ensures TxOf(cfg, now, req, result, replace).now == now
  {
    hide RecordOf;
  }

  lemma CommitInTime(rows: seq<Store.Row>, tx: Store.Tx, now: nat)
    requires Store.ByTime(rows) && tx.now == now && forall i :: 0 <= i < |rows| ==> rows[i].created <= now
    ensures var rows' := Store.Commit(rows, tx);
            Store.ByTime(rows') && forall i :: 0 <= i < |rows'| ==> rows'[i].created <= now
  {
    hide Store.KeyOf, Store.IsActive;
  }

  // ---- what a row holds ----

  function OrNull(s: string): Option<string> { if s == "" then None else Some(s) }

  /** The row holds the request's own data and the time `now`. */
  predicate IsRowFor(cfg: Config, row: Store.Row, req: Request, result: Result, now: nat) {
    var a := ResolveActor(cfg.secret, req.principal, req.headers);
    && row.docType == TrimSpace(req.docTypeParam) && row.sha == cfg.sha(req.content) && row.filename == req.filename
    && row.subject == OrNull(a.subject) && row.client == OrNull(a.client) && row.email == OrNull(a.email)
    && row.result == result && row.created == now
  }

  /** A step that changes the table appends the row of the acting request, with its data, its result, and the time of
      this very step. */
  lemma NewRowIsOwn(cfg: Config, w: World, e: Event)
    requires Enabled(w, e) && Next(cfg, w, e).rows != w.rows
    ensures e.Act? && w.active[e.id].pc.Committing?
    ensures var s, rows := w.active[e.id], Next(cfg, w, e).rows;
            |rows| == |w.rows| + 1 && !rows[|w.rows|].deleted
            && IsRowFor(cfg, rows[|w.rows|], s.req, s.pc.result, w.now)
  {
    hide Next, ResolveActor, TrimSpace, Store.KeyOf;
    OnlyCommitsChangeRows(cfg, w, e);
  }

  /** In every run each row holds the data of the request that stored it, as it arrived, and the time of its
      transaction. */
  lemma RowsAreOwn(cfg: Config, evs: seq<Event>, w: World, id: nat)
    requires Reaches(cfg, evs, w) && id < |w.rows|
    ensures exists k :: 0 <= k < |w.log| && w.log[k].Stored? && w.log[k].id < |Refresh.Arrivals(evs)|
              && IsRowFor(cfg, w.rows[id], Refresh.Arrivals(evs)[w.log[k].id], w.log[k].tx.rec.result, w.log[k].tx.now)
  {
    hide Store.After, Txs, Exec, ResolveActor, TrimSpace;
    TableIsHistory(cfg, evs, w);
    var txs := Txs(w.log);
    AfterLength(txs);
    RowOfTx(txs, id);
    TxLogged(w.log, id);
    var k :| 0 <= k < |w.log| && w.log[k].Stored? && w.log[k].tx == txs[id];
    Refresh.FactsFollowRequest(cfg, evs, w, k);
    RowIsFor(cfg, w.rows[id], Refresh.Arrivals(evs)[w.log[k].id], w.log[k].tx);
  }

  lemma RowIsFor(cfg: Config, row: Store.Row, req: Request, tx: Store.Tx)
    requires row.(deleted := false) == Store.RowOf(tx.rec, tx.now) && tx.rec == RecordOf(cfg, req, tx.rec.result)
    ensures IsRowFor(cfg, row, req, tx.rec.result, tx.now)
  {
    hide ResolveActor, TrimSpace;
  }
}
