/** The soft-delete table of extractions. One transaction is one atomic change. */
module Store {
  import opened Text
  import opened Domain

  datatype Record = Record(
    docType: string, sha: string, filename: string,
    subject: string, client: string, email: string, result: Result)

  datatype Row = Row(
    docType: string, sha: string, filename: string,
    subject: Option<string>, client: Option<string>, email: Option<string>, result: Result,
    created: nat, deleted: bool)

  function NullIfEmpty(s: string): Option<string> { if s == "" then None else Some(s) }

  function RowOf(rec: Record, now: nat): Row {
    Row(rec.docType, rec.sha, rec.filename, NullIfEmpty(rec.subject), NullIfEmpty(rec.client),
        NullIfEmpty(rec.email), rec.result, now, false)
  }

  /** What a refresh is scoped to. */
  datatype Key = Key(docType: string, sha: string, subject: Option<string>)

  function KeyOf(rec: Record): Key { Key(rec.docType, rec.sha, NullIfEmpty(rec.subject)) }

  predicate IsActive(row: Row, key: Key) {
    !row.deleted && row.docType == key.docType && row.sha == key.sha && row.subject == key.subject
  }

  /** UPDATE ... SET deleted_at: every active row of the key, and no other. */
  function SoftDelete(rows: seq<Row>, key: Key): (out: seq<Row>)
    ensures |out| == |rows|
    ensures forall i :: 0 <= i < |rows| ==>
              out[i] == if IsActive(rows[i], key) then rows[i].(deleted := true) else rows[i]
  {
    seq(|rows|, i requires 0 <= i < |rows| => if IsActive(rows[i], key) then rows[i].(deleted := true) else rows[i])
  }

  /** A committed transaction: `replace` is the refresh form. */
  datatype Tx = Tx(rec: Record, replace: bool, now: nat)

  function Commit(rows: seq<Row>, tx: Tx): seq<Row> {
    (if tx.replace then SoftDelete(rows, KeyOf(tx.rec)) else rows) + [RowOf(tx.rec, tx.now)]
  }

  // ---- what every transaction keeps ----

  /** Rows only grow, and the one field that changes is the deleted flag, which is only ever set. */
  ghost predicate Evolves(a: seq<Row>, b: seq<Row>) {
    && |a| <= |b|
    && forall i :: 0 <= i < |a| ==> b[i] == a[i] || b[i] == a[i].(deleted := true)
  }

  lemma EvolvesTransitive(a: seq<Row>, b: seq<Row>, c: seq<Row>)
    requires Evolves(a, b) && Evolves(b, c)
    ensures Evolves(a, c)
  {
    forall i | 0 <= i < |a| ensures c[i] == a[i] || c[i] == a[i].(deleted := true) {
      assert b[i] == a[i] || b[i] == a[i].(deleted := true);
    }
  }

  /** Number of active rows of a key. */
  function Active(rows: seq<Row>, key: Key): nat {
    if rows == [] then 0
    else Active(rows[..|rows| - 1], key) + (if IsActive(rows[|rows| - 1], key) then 1 else 0)
  }

  lemma {:induction false} SoftDeleteActive(rows: seq<Row>, key: Key, other: Key)
    ensures Active(SoftDelete(rows, key), other) == if key == other then 0 else Active(rows, other)
  {
    if rows != [] {
      var n := |rows| - 1;
      assert SoftDelete(rows, key)[..n] == SoftDelete(rows[..n], key);
      SoftDeleteActive(rows[..n], key, other);
    }
  }

  lemma ActiveAppend(rows: seq<Row>, row: Row, key: Key)
    ensures Active(rows + [row], key) == Active(rows, key) + (if IsActive(row, key) then 1 else 0)
  {
    assert (rows + [row])[..|rows|] == rows;
  }

  /** One transaction: a Replace leaves exactly one active row of its key, an Insert adds one, and
      the active rows of every other key, other users of the same document included, stay. */
  lemma CommitActive(rows: seq<Row>, tx: Tx, key: Key)
    ensures Active(Commit(rows, tx), key) ==
            if KeyOf(tx.rec) != key then Active(rows, key) else if tx.replace then 1 else Active(rows, key) + 1
    ensures Evolves(rows, Commit(rows, tx))
    ensures KeyOf(tx.rec) != key ==>
              forall i :: 0 <= i < |rows| && IsActive(rows[i], key) ==> Commit(rows, tx)[i] == rows[i]
  {
    var kept := if tx.replace then SoftDelete(rows, KeyOf(tx.rec)) else rows;
    ActiveAppend(kept, RowOf(tx.rec, tx.now), key);
    SoftDeleteActive(rows, KeyOf(tx.rec), key);
  }

  // ---- whole histories ----

  /** The table after a history of committed transactions. */
  function After(txs: seq<Tx>): seq<Row> {
    if txs == [] then [] else Commit(After(txs[..|txs| - 1]), txs[|txs| - 1])
  }

  ghost predicate HasReplace(txs: seq<Tx>, key: Key) {
    exists i :: 0 <= i < |txs| && txs[i].replace && KeyOf(txs[i].rec) == key
  }

  /** Inserts of a key since its last Replace. */
  function InsertsSince(txs: seq<Tx>, key: Key): nat {
    if txs == [] then 0
    else
      var t := txs[|txs| - 1];
      if KeyOf(t.rec) != key then InsertsSince(txs[..|txs| - 1], key)
      else if t.replace then 0
      else InsertsSince(txs[..|txs| - 1], key) + 1
  }

  /** Conservation over every history: the active rows of a key are the inserts since its last
      Replace, plus the one row that Replace itself left, if there was one. */
  lemma {:induction false} ActiveHistory(txs: seq<Tx>, key: Key)
    ensures Active(After(txs), key) == InsertsSince(txs, key) + (if HasReplace(txs, key) then 1 else 0)
    ensures |After(txs)| == |txs|
  {
    hide HasReplace, KeyOf, IsActive;
    if txs == [] {
      HasReplaceStep(txs, key);
    } else {
      var n := |txs| - 1;
      ActiveHistory(txs[..n], key);
      CommitActive(After(txs[..n]), txs[n], key);
      HasReplaceStep(txs, key);
    }
  }

  lemma HasReplaceStep(txs: seq<Tx>, key: Key)
    ensures txs == [] ==> !HasReplace(txs, key)
    ensures txs != [] ==>
              var n := |txs| - 1;
              HasReplace(txs, key) == (HasReplace(txs[..n], key) || (txs[n].replace && KeyOf(txs[n].rec) == key))
  {
    if txs != [] {
      var n := |txs| - 1;
      if HasReplace(txs[..n], key) {
        var i :| 0 <= i < n && txs[..n][i].replace && KeyOf(txs[..n][i].rec) == key;
        assert txs[i].replace && KeyOf(txs[i].rec) == key;
      }
      if HasReplace(txs, key) {
        var i :| 0 <= i < |txs| && txs[i].replace && KeyOf(txs[i].rec) == key;
        assert i < n ==> txs[..n][i].replace && KeyOf(txs[..n][i].rec) == key;
      }
    }
  }

  /** Along a history the table evolves: nothing is lost and no deleted row comes back. */
  lemma {:induction false} HistoryEvolves(txs: seq<Tx>, n: nat)
    requires n <= |txs|
    ensures Evolves(After(txs[..n]), After(txs))
    decreases |txs| - n
  {
    if n == |txs| {
      assert txs[..n] == txs;
    } else {
      HistoryEvolves(txs, n + 1);
      assert txs[..n + 1][..n] == txs[..n];
      CommitActive(After(txs[..n]), txs[n], KeyOf(txs[n].rec));
      EvolvesTransitive(After(txs[..n]), After(txs[..n + 1]), After(txs));
    }
  }

  // ---- reading ----

  /** What a query by `subject` may see. `docType` empty means every type. */
  predicate Visible(row: Row, subject: string, docType: string) {
    !row.deleted && row.subject == Some(subject) && (docType == "" || row.docType == docType)
  }

  /** Visible row numbers below `n`, newest first. */
  function Newest(rows: seq<Row>, n: nat, subject: string, docType: string): seq<nat>
    requires n <= |rows|
  {
    if n == 0 then []
    else if Visible(rows[n - 1], subject, docType) then [n - 1] + Newest(rows, n - 1, subject, docType)
    else Newest(rows, n - 1, subject, docType)
  }

  /** Rows stand in the table in the order of their creation times. */
  predicate ByTime(rows: seq<Row>) { forall i, j :: 0 <= i < j < |rows| ==> rows[i].created <= rows[j].created }

  predicate Falling(ids: seq<nat>) { forall j, k :: 0 <= j < k < |ids| ==> ids[j] > ids[k] }

  lemma {:induction false} NewestVisible(rows: seq<Row>, n: nat, subject: string, docType: string)
    requires n <= |rows|
    ensures var ids := Newest(rows, n, subject, docType);
            && (forall k :: 0 <= k < |ids| ==> ids[k] < n && Visible(rows[ids[k]], subject, docType))
            && Falling(ids)
            && (forall i :: 0 <= i < n && Visible(rows[i], subject, docType) ==> i in ids)
  {
    hide Visible;
    if n > 0 {
      NewestVisible(rows, n - 1, subject, docType);
    }
  }

  lemma FallingInTime(rows: seq<Row>, ids: seq<nat>)
    requires ByTime(rows) && Falling(ids) && forall k :: 0 <= k < |ids| ==> ids[k] < |rows|
    ensures forall j, k :: 0 <= j < k < |ids| ==> rows[ids[j]].created >= rows[ids[k]].created
  {
  }

  /** It holds the visible rows, all of them and no other, each once, the most recently created first. */
  lemma NewestExact(rows: seq<Row>, subject: string, docType: string)
    ensures var ids := Newest(rows, |rows|, subject, docType);
            && (forall k :: 0 <= k < |ids| ==> ids[k] < |rows| && Visible(rows[ids[k]], subject, docType))
            && (forall i :: 0 <= i < |rows| && Visible(rows[i], subject, docType) ==> i in ids)
            && Falling(ids)
            && (ByTime(rows) ==> forall j, k :: 0 <= j < k < |ids| ==> rows[ids[j]].created >= rows[ids[k]].created)
  {
    hide Visible, Newest, Falling;
    NewestVisible(rows, |rows|, subject, docType);
    if ByTime(rows) {
      FallingInTime(rows, Newest(rows, |rows|, subject, docType));
    }
  }

  function Take(s: seq<nat>, n: nat): (t: seq<nat>)
    ensures t <= s && |t| <= n
  {
    if |s| <= n then s else s[..n]
  }

  lemma TakeFront(out: seq<nat>, rest: seq<nat>, n: nat)
    requires |out| == n || (|out| <= n && rest == [])
    ensures Take(out + rest, n) == out
  {
  }

  function PageSize(limit: int): (n: nat)
    ensures 1 <= n <= 50
  {
    if limit <= 0 || limit > 50 then 20 else limit
  }

  datatype Listing = Listed(ids: seq<nat>) | SubjectRequired

  function ListSpec(rows: seq<Row>, subject: string, docType: string, limit: int): Listing {
    var s := TrimSpace(subject);
    if s == "" then SubjectRequired else Listed(Take(Newest(rows, |rows|, s, docType), PageSize(limit)))
  }

  /** The first `n` rows of `ORDER BY created_at DESC` among those a subject may see: visible rows, each once, later
      rows first; one is left out only if the page is full of later ones. */
  predicate IsPage(rows: seq<Row>, ids: seq<nat>, subject: string, docType: string, n: nat) {
    && |ids| <= n
    && (forall k :: 0 <= k < |ids| ==> ids[k] < |rows| && Visible(rows[ids[k]], subject, docType))
    && Falling(ids)
    && (forall i :: 0 <= i < |rows| && Visible(rows[i], subject, docType) && i !in ids ==>
          |ids| == n && forall k :: 0 <= k < n ==> ids[k] > i)
  }

  lemma TakeIsPage(rows: seq<Row>, subject: string, docType: string, n: nat)
    ensures IsPage(rows, Take(Newest(rows, |rows|, subject, docType), n), subject, docType, n)
  {
    hide Visible, Newest, Take, Falling;
    var all := Newest(rows, |rows|, subject, docType);
    var ids := Take(all, n);
    NewestVisible(rows, |rows|, subject, docType);
    TakeFalls(all, n);
    forall i | 0 <= i < |rows| && Visible(rows[i], subject, docType) && i !in ids
      ensures |ids| == n && forall k :: 0 <= k < n ==> ids[k] > i
    {
      LeftOut(all, n, i);
    }
  }

  lemma TakeFalls(all: seq<nat>, n: nat)
    requires Falling(all)
    ensures Falling(Take(all, n))
  {
  }

  lemma LeftOut(all: seq<nat>, n: nat, i: nat)
    requires Falling(all) && i in all && i !in Take(all, n)
    ensures |Take(all, n)| == n && forall k :: 0 <= k < n ==> Take(all, n)[k] > i
  {
    var t := Take(all, n);
    var k :| 0 <= k < |all| && all[k] == i;
    forall m | 0 <= m < |t| ensures t[m] == all[m] && m != k {
      assert t[m] in t;
    }
    assert |t| <= k;
  }

  /** A page lists the most recently created rows first, and what it leaves out is not more recent. */
  lemma PageByTime(rows: seq<Row>, ids: seq<nat>, subject: string, docType: string, n: nat)
    requires ByTime(rows) && IsPage(rows, ids, subject, docType, n)
    ensures forall j, k :: 0 <= j < k < |ids| ==> rows[ids[j]].created >= rows[ids[k]].created
    ensures forall i, k :: 0 <= i < |rows| && 0 <= k < |ids| && Visible(rows[i], subject, docType) && i !in ids ==>
              rows[ids[k]].created >= rows[i].created
  {
    hide Visible;
    FallingInTime(rows, ids);
  }

  /** A page in terms of the rows: which rows may stand on it, and which have to. */
  lemma PageExact(rows: seq<Row>, subject: string, docType: string, limit: int)
    ensures var s := TrimSpace(subject);
            var n := if 1 <= limit <= 50 then limit else 20;
            match ListSpec(rows, subject, docType, limit)
            case SubjectRequired => s == ""
            case Listed(ids) =>
              && s != "" && |ids| <= n
              && (forall k :: 0 <= k < |ids| ==>
                    && ids[k] < |rows| && !rows[ids[k]].deleted && rows[ids[k]].subject == Some(s)
                    && (docType != "" ==> rows[ids[k]].docType == docType))
              && (forall j, k :: 0 <= j < k < |ids| ==> ids[j] > ids[k])
              && (forall i ::
                    (0 <= i < |rows| && !rows[i].deleted && rows[i].subject == Some(s)
                     && (docType == "" || rows[i].docType == docType) && i !in ids) ==>
                      |ids| == n && forall k :: 0 <= k < n ==> ids[k] > i)
  {
    hide TrimSpace, Newest, Take;
    TakeIsPage(rows, TrimSpace(subject), docType, PageSize(limit));
  }

  datatype Fetch = Found(id: nat) | NotFound | ArgumentRequired

  /** Row `id` is an active row stored under `subject`. */
  predicate Owned(rows: seq<Row>, id: nat, subject: string) {
    id < |rows| && !rows[id].deleted && rows[id].subject == Some(subject)
  }

  /** Everything listed is an active row stored under the trimmed actor. */
  lemma ReadsAreScoped(rows: seq<Row>, subject: string, docType: string, limit: int)
    ensures var l := ListSpec(rows, subject, docType, limit);
            l.Listed? ==> |l.ids| <= 50 && forall k :: 0 <= k < |l.ids| ==> Owned(rows, l.ids[k], TrimSpace(subject))
  {
    hide TrimSpace, Newest, Take;
    TakeIsPage(rows, TrimSpace(subject), docType, PageSize(limit));
  }

  /** A user gets back the row just stored for them exactly when their subject has no surrounding
      white space: rows keep the subject as it is, queries trim it. */
  lemma OwnRowFound(rows: seq<Row>, tx: Tx)
    ensures var trimmed := TrimSpace(tx.rec.subject);
            trimmed != "" && Owned(Commit(rows, tx), |rows|, trimmed) <==>
              tx.rec.subject != "" && trimmed == tx.rec.subject
  {
    hide TrimSpace;
    assert Commit(rows, tx)[|rows|] == RowOf(tx.rec, tx.now);
  }

  /** The table with its operations. */
  class Extractions {
    var rows: seq<Row>

    constructor ()
      ensures rows == []
    {
      rows := [];
    }

    /** `Insert` and `Replace`. When the transaction breaks, some statement or the commit failed and the rollback
        leaves the table as it was; when it goes unheard, it was committed and only the answer is lost. */
    method Persist(rec: Record, replace: bool, now: nat, tx: Outcome) returns (ok: bool)
      modifies this
      ensures ok == tx.Works?
      ensures rows == if tx.Breaks? then old(rows) else Commit(old(rows), Tx(rec, replace, now))
      ensures Evolves(old(rows), rows)
      ensures !tx.Breaks? ==> Active(rows, KeyOf(rec)) == if replace then 1 else Active(old(rows), KeyOf(rec)) + 1
    {
      CommitActive(rows, Tx(rec, replace, now), KeyOf(rec));
      var working := rows;
      if replace {
        working := SoftDelete(working, KeyOf(rec));
      }
      working := working + [RowOf(rec, now)];
      if tx.Breaks? {
        return false;
      }
      rows := working;
      return tx.Works?;
    }

    /** `ListBySubject`: the newest visible rows, at most a page of them. */
    method ListBySubject(subject: string, docType: string, limit: int) returns (r: Listing)
      ensures r.SubjectRequired? <==> TrimSpace(subject) == ""
      ensures r.Listed? ==> IsPage(rows, r.ids, TrimSpace(subject), docType, PageSize(limit))
      ensures r == ListSpec(rows, subject, docType, limit)
    {
      hide TrimSpace, Visible, IsPage;
      var s := TrimSpace(subject);
      if s == "" {
        return SubjectRequired;
      }
      var page := PageSize(limit);
      TakeIsPage(rows, s, docType, page);
      var out: seq<nat> := [];
      var n: nat := |rows|;
      while n > 0 && |out| < page
        invariant n <= |rows| && |out| <= page
        invariant Newest(rows, |rows|, s, docType) == out + Newest(rows, n, s, docType)
        decreases n
      {
        n := n - 1;
        if Visible(rows[n], s, docType) {
          out := out + [n];
        }
      }
      r := Listed(out);
      TakeFront(out, Newest(rows, n, s, docType), page);
    }

    /** `GetByIDForSubject`: found if and only if the row is there, active and the trimmed subject's own. */
    method GetByIDForSubject(id: nat, subject: string) returns (r: Fetch)
      ensures r.ArgumentRequired? <==> TrimSpace(subject) == ""
      ensures r == Found(id) <==> TrimSpace(subject) != "" && Owned(rows, id, TrimSpace(subject))
      ensures r.NotFound? <==> TrimSpace(subject) != "" && !Owned(rows, id, TrimSpace(subject))
    {
      var s := TrimSpace(subject);
      if s == "" {
        return ArgumentRequired;
      }
      if id < |rows| && rows[id].subject == Some(s) && !rows[id].deleted {
        return Found(id);
      }
      return NotFound;
    }
  }
}
