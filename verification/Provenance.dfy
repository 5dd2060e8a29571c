/** Where cached entries, stored rows and answers come from, in every interleaved run. */
module Provenance {
  import opened Domain
  import opened Identity
  import opened RedisModel
  import opened Keys
  import opened Protocol
  import Extractor
  import Store

  /** `f` is a successful extractor call for type `d` and a content hashing to `h`, and `r` is its
      result with the digest stamped and no cache tag. */
  predicate CallGave(cfg: Config, f: Fact, d: string, h: string, r: Result) {
    f.Called? && f.docType == d && cfg.sha(f.content) == h && f.out.Some? && r == Stamp(f.out.value, h, "")
  }

  ghost predicate Origin(cfg: Config, log: seq<Fact>, d: string, h: string, r: Result) {
    exists j :: 0 <= j < |log| && CallGave(cfg, log[j], d, h, r)
  }

  predicate RowGives(row: Store.Row, d: string, h: string, r: Result) {
    row.docType == d && row.sha == h && Uncached(row.result) == r
  }

  ghost predicate HasRow(rows: seq<Store.Row>, d: string, h: string, r: Result) {
    exists i :: 0 <= i < |rows| && RowGives(rows[i], d, h, r)
  }

  predicate Holds(pc: Pc) { pc.Committing? || pc.Caching? || pc.Replying? }

  ghost predicate SessionOk(cfg: Config, log: seq<Fact>, rows: seq<Store.Row>, s: Session) {
    var d, h := DocTypeOf(s.req), cfg.sha(s.req.content);
    && (Holds(s.pc) ==> Origin(cfg, log, d, h, Uncached(s.pc.result)))
    && (cfg.hasStore && s.pc.Caching? ==> HasRow(rows, d, h, Uncached(s.pc.result)))
  }

  ghost predicate SessionsOk(cfg: Config, w: World) {
    forall id :: id in w.active ==> SessionOk(cfg, w.log, w.rows, w.active[id])
  }

  ghost predicate EntryOk(cfg: Config, log: seq<Fact>, rows: seq<Store.Row>, d: string, h: string, r: Result) {
    Origin(cfg, log, d, h, r) && (cfg.hasStore ==> HasRow(rows, d, h, r))
  }

  predicate CachedAs(m: Keyspace, key: string, r: Result) { key in m && m[key].value == Payload(r) }

  ghost predicate CacheOk(cfg: Config, w: World) {
    forall d: string, h: Digest, r :: CachedAs(w.redis, CacheKey(d, h), r) ==> EntryOk(cfg, w.log, w.rows, d, h, r)
  }

  ghost predicate ReplyOk(cfg: Config, log: seq<Fact>, i: nat)
    requires i < |log| && log[i].Replied?
  {
    Origin(cfg, log[..i], log[i].docType, cfg.sha(log[i].content), Uncached(log[i].result))
  }

  ghost predicate RepliesOk(cfg: Config, log: seq<Fact>) {
    forall i :: 0 <= i < |log| && log[i].Replied? ==> ReplyOk(cfg, log, i)
  }

  ghost predicate Inv(cfg: Config, w: World) { SessionsOk(cfg, w) && CacheOk(cfg, w) && RepliesOk(cfg, w.log) }

  // ---- growth ----

  lemma OriginGrows(cfg: Config, a: seq<Fact>, b: seq<Fact>, d: string, h: string, r: Result)
    requires a <= b && Origin(cfg, a, d, h, r)
    ensures Origin(cfg, b, d, h, r)
  {
    var j :| 0 <= j < |a| && CallGave(cfg, a[j], d, h, r);
    assert b[j] == a[j];
  }

  lemma HasRowGrows(a: seq<Store.Row>, b: seq<Store.Row>, d: string, h: string, r: Result)
    requires Store.Evolves(a, b) && HasRow(a, d, h, r)
    ensures HasRow(b, d, h, r)
  {
    var i :| 0 <= i < |a| && RowGives(a[i], d, h, r);
    assert RowGives(b[i], d, h, r);
  }

  lemma SessionGrows(cfg: Config, w: World, w': World, s: Session)
    requires w.log <= w'.log && Store.Evolves(w.rows, w'.rows) && SessionOk(cfg, w.log, w.rows, s)
    ensures SessionOk(cfg, w'.log, w'.rows, s)
  {
    if Holds(s.pc) {
      var d, h, r := DocTypeOf(s.req), cfg.sha(s.req.content), Uncached(s.pc.result);
      OriginGrows(cfg, w.log, w'.log, d, h, r);
      if cfg.hasStore && s.pc.Caching? {
        HasRowGrows(w.rows, w'.rows, d, h, r);
      }
    }
  }

  lemma EntryGrows(cfg: Config, w: World, w': World, d: string, h: string, r: Result)
    requires w.log <= w'.log && Store.Evolves(w.rows, w'.rows) && EntryOk(cfg, w.log, w.rows, d, h, r)
    ensures EntryOk(cfg, w'.log, w'.rows, d, h, r)
  {
    OriginGrows(cfg, w.log, w'.log, d, h, r);
    if cfg.hasStore {
      HasRowGrows(w.rows, w'.rows, d, h, r);
    }
  }

  // ---- one step ----

  /** Every step only appends to the log, and the table evolves. */
  lemma StepGrows(cfg: Config, w: World, e: Event)
    requires Enabled(w, e)
    ensures var w' := Next(cfg, w, e); w.log <= w'.log && Store.Evolves(w.rows, w'.rows)
    ensures var w' := Next(cfg, w, e); w.now <= w'.now && w.next <= w'.next
  {
    hide Advance, Admissible, Store.Commit, Tells, TouchedKey;
    if e.Act? {
      AdvanceMoves(cfg, w, e.id, e.how);
      var w' := Advance(cfg, w, e.id, e.how);
      if |w'.log| > |w.log| && w'.log[|w.log|].Stored? {
        var tx := w'.log[|w.log|].tx;
        Store.CommitActive(w.rows, tx, Store.KeyOf(tx.rec));
      }
    }
  }

  /** A cached result is one that was cached before the step, or one that a request at its cache
      write puts there. */
  lemma CacheChange(cfg: Config, w: World, e: Event, d: string, h: Digest, r: Result)
    requires Enabled(w, e) && CachedAs(Next(cfg, w, e).redis, CacheKey(d, h), r)
    ensures CachedAs(w.redis, CacheKey(d, h), r)
            || (e.Act? && w.active[e.id].pc.Caching? && r == Uncached(w.active[e.id].pc.result)
                && d == DocTypeOf(w.active[e.id].req) && h == cfg.sha(w.active[e.id].req.content))
  {
    hide Advance, Admissible, Store.Commit, Tells, CacheKey, LimitKey, DocTypeOf, BucketOf, KindName;
    if e.Act? {
      var s := w.active[e.id];
      AdvanceMoves(cfg, w, e.id, e.how);
      if TouchedKey(cfg, s) == Some(CacheKey(d, h)) {
        CacheTouched(cfg, w, e.id, e.how, d, h, r);
      }
    }
  }

  lemma CacheTouched(cfg: Config, w: World, id: nat, how: How, d: string, h: Digest, r: Result)
    requires Enabled(w, Act(id, how)) && CachedAs(Advance(cfg, w, id, how).redis, CacheKey(d, h), r)
    requires TouchedKey(cfg, w.active[id]) == Some(CacheKey(d, h))
    ensures CachedAs(w.redis, CacheKey(d, h), r)
            || (w.active[id].pc.Caching? && r == Uncached(w.active[id].pc.result)
                && d == DocTypeOf(w.active[id].req) && h == cfg.sha(w.active[id].req.content))
  {
    hide CountStep, ExpireStep, ConsentStep, LookStep, ClockStep, PrepareStep, CallStep, CommitStep, ReplyStep,
      CacheKey, LimitKey, DocTypeOf, BucketOf, KindName;
    var s := w.active[id];
    var d', h' := DocTypeOf(s.req), cfg.sha(s.req.content);
    DigestHasNoColon(h);
    DigestHasNoColon(h');
    CacheKeyInjective(d, h, d', h');
    if s.pc.Counting? || s.pc.Expiring? {
      var b := BucketOf(cfg, s.req, s.pc.readAt);
      KeysDisjoint(d, h, KindName(b.kind), b.id, b.window);
    }
  }

  lemma CacheKept(cfg: Config, w: World, e: Event)
    requires Inv(cfg, w) && Enabled(w, e)
    ensures CacheOk(cfg, Next(cfg, w, e))
  {
    hide Next, CacheKey, EntryOk, RepliesOk;
    var w' := Next(cfg, w, e);
    StepGrows(cfg, w, e);
    forall d: string, h: Digest, r | CachedAs(w'.redis, CacheKey(d, h), r)
      ensures EntryOk(cfg, w'.log, w'.rows, d, h, r)
    {
      CacheChange(cfg, w, e, d, h, r);
      if !CachedAs(w.redis, CacheKey(d, h), r) {
        assert SessionOk(cfg, w.log, w.rows, w.active[e.id]);
        EntryFromSession(cfg, w, w.active[e.id]);
      }
      EntryGrows(cfg, w, w', d, h, r);
    }
  }

  lemma EntryFromSession(cfg: Config, w: World, s: Session)
    requires SessionOk(cfg, w.log, w.rows, s) && s.pc.Caching?
    ensures EntryOk(cfg, w.log, w.rows, DocTypeOf(s.req), cfg.sha(s.req.content), Uncached(s.pc.result))
  {
  }

  /** A cache hit: the result read has the origin its entry had. */
  lemma LookKept(cfg: Config, w: World, id: nat, how: How)
    requires CacheOk(cfg, w) && id in w.active && w.active[id].pc.Looking?
    ensures var w' := LookStep(cfg, w, id, how);
            w'.log == w.log && w'.rows == w.rows && SessionOk(cfg, w'.log, w'.rows, w'.active[id])
  {
    hide Origin, HasRow, DocTypeOf, CacheKey;
    var s := w.active[id];
    var key := CacheKeyOf(cfg, s.req);
    if Live(w.redis, key, w.now) && w.redis[key].value.Payload? {
      var r := w.redis[key].value.result;
      assert CachedAs(w.redis, CacheKey(DocTypeOf(s.req), cfg.sha(s.req.content)), r);
      assert Origin(cfg, w.log, DocTypeOf(s.req), cfg.sha(s.req.content), r);
      OriginShape(cfg, w.log, DocTypeOf(s.req), cfg.sha(s.req.content), r);
    }
  }

  /** A result with an origin is stamped with its digest and untagged. */
  lemma OriginShape(cfg: Config, log: seq<Fact>, d: string, h: string, r: Result)
    requires Origin(cfg, log, d, h, r)
    ensures Uncached(Stamp(r, h, "hit")) == r
  {
  }

  /** A fresh extraction: the call just logged is the origin. */
  lemma CallKept(cfg: Config, w: World, id: nat, how: How)
    requires id in w.active && w.active[id].pc.Extracting? && how.Scripted?
    ensures var w' := CallStep(cfg, w, id, w.active[id].pc.bucket, w.active[id].pc.doc, how);
            id in w'.active ==> SessionOk(cfg, w'.log, w'.rows, w'.active[id])
  {
    hide Extractor.Extract, DocTypeOf, ActorOf, Refreshes;
    var s := w.active[id];
    var w' := CallStep(cfg, w, id, s.pc.bucket, s.pc.doc, how);
    if id in w'.active {
      assert CallGave(cfg, w'.log[|w.log|], DocTypeOf(s.req), cfg.sha(s.req.content),
        Uncached(w'.active[id].pc.result));
    }
  }

  /** A committed transaction: the row just added holds the result. */
  lemma CommitKept(cfg: Config, w: World, id: nat, how: How)
    requires id in w.active && w.active[id].pc.Committing? && SessionOk(cfg, w.log, w.rows, w.active[id])
    ensures var w' := CommitStep(cfg, w, id, w.active[id].pc.result, w.active[id].pc.replace, how);
            SessionOk(cfg, w'.log, w'.rows, w'.active[id])
  {
    hide DocTypeOf, ActorOf;
    var s := w.active[id];
    var w' := CommitStep(cfg, w, id, s.pc.result, s.pc.replace, how);
    OriginGrows(cfg, w.log, w'.log, DocTypeOf(s.req), cfg.sha(s.req.content), Uncached(s.pc.result));
    if cfg.hasStore && w'.active[id].pc.Caching? {
      assert RowGives(w'.rows[|w.rows|], DocTypeOf(s.req), cfg.sha(s.req.content), Uncached(s.pc.result));
    }
  }

  /** The result an acting request holds after its step has an origin, and a row once it is stored. */
  lemma ActorKept(cfg: Config, w: World, id: nat, how: How)
    requires Inv(cfg, w) && Enabled(w, Act(id, how))
    requires id in Advance(cfg, w, id, how).active
    ensures var w' := Advance(cfg, w, id, how); SessionOk(cfg, w'.log, w'.rows, w'.active[id])
  {
    hide LookStep, CallStep, CommitStep, CountStep, Origin, HasRow, Refreshes, ConsentOf, DocTypeOf, BucketOf,
      BucketKey, QuotaId, CacheKeyOf, CacheOk, RepliesOk;
    var s := w.active[id];
    assert SessionOk(cfg, w.log, w.rows, s);
    match s.pc {
      case Looking => LookKept(cfg, w, id, how);
      case Extracting(_, _) => CallKept(cfg, w, id, how);
      case Committing(_, _) => CommitKept(cfg, w, id, how);
      case Counting(t) => CountGoesOn(cfg, w, id, t, how);
      case _ =>
    }
  }

  lemma CountGoesOn(cfg: Config, w: World, id: nat, readAt: nat, how: How)
    requires id in w.active
    ensures var w' := CountStep(cfg, w, id, readAt, how); id in w'.active ==> !Holds(w'.active[id].pc)
  {
    hide BucketOf, BucketKey;
  }

  lemma SessionsKept(cfg: Config, w: World, e: Event)
    requires Inv(cfg, w) && Enabled(w, e)
    ensures SessionsOk(cfg, Next(cfg, w, e))
  {
    hide Advance, SessionOk, CacheOk, RepliesOk, Tells, TouchedKey, Admissible, Store.Evolves, Store.Commit;
    var w' := Next(cfg, w, e);
    StepGrows(cfg, w, e);
    if e.Act? {
      AdvanceMoves(cfg, w, e.id, e.how);
    }
    forall id | id in w'.active ensures SessionOk(cfg, w'.log, w'.rows, w'.active[id]) {
      if e.Act? && e.id == id {
        ActorKept(cfg, w, id, e.how);
      } else if w'.active[id].pc.Consenting? {
        FreshSession(cfg, w'.log, w'.rows, w'.active[id]);
      } else {
        SessionGrows(cfg, w, w', w.active[id]);
      }
    }
  }

  lemma FreshSession(cfg: Config, log: seq<Fact>, rows: seq<Store.Row>, s: Session)
    requires s.pc.Consenting?
    ensures SessionOk(cfg, log, rows, s)
  {
  }

  /** A new fact was told by the acting request, from the session it was in. */
  lemma NewFact(cfg: Config, w: World, e: Event, i: nat)
    requires Enabled(w, e) && |w.log| <= i < |Next(cfg, w, e).log|
    ensures var f := Next(cfg, w, e).log[i];
            if e.Act? then Tells(cfg, w.now, e.id, w.active[e.id], f) && (i > |w.log| ==> f.Refused?)
            else e.Arrive? && f == Refused(w.next, BadRequest)
    ensures e.Act? && i > |w.log| ==> Next(cfg, w, e).log[i].Refused?
  {
    hide Advance, Tells, TouchedKey, Admissible, Store.Commit;
    if e.Act? {
      AdvanceMoves(cfg, w, e.id, e.how);
    }
  }

  lemma RepliesKept(cfg: Config, w: World, e: Event)
    requires Inv(cfg, w) && Enabled(w, e)
    ensures RepliesOk(cfg, Next(cfg, w, e).log)
  {
    hide Next, CacheOk, Origin, HasRow, DocTypeOf, ActorOf, BucketOf, ConsentOf, TxOf;
    var w' := Next(cfg, w, e);
    StepGrows(cfg, w, e);
    forall i | 0 <= i < |w'.log| && w'.log[i].Replied? ensures ReplyOk(cfg, w'.log, i) {
      if i < |w.log| {
        assert w'.log[i] == w.log[i] && w'.log[..i] == w.log[..i];
        assert ReplyOk(cfg, w.log, i);
      } else {
        NewFact(cfg, w, e, i);
        assert SessionOk(cfg, w.log, w.rows, w.active[e.id]);
        assert w'.log[..i] == w.log;
      }
    }
  }

  lemma {:induction false} InvHolds(cfg: Config, evs: seq<Event>, w: World)
    requires Reaches(cfg, evs, w)
    ensures Inv(cfg, w)
    decreases |evs|
  {
    hide Next;
    if evs != [] {
      var v := RunStep(cfg, evs, w);
      var e := evs[|evs| - 1];
      InvHolds(cfg, evs[..|evs| - 1], v);
      CacheKept(cfg, v, e);
      SessionsKept(cfg, v, e);
      RepliesKept(cfg, v, e);
    }
  }

  // ---- theorems ----

  /** Cache coherence. In every run with a configured store, whatever fails, expires or is evicted,
      each cached result is, up to `Meta.Cache`, the result of a committed row of the same document
      type and digest. */
  lemma CacheCoherent(cfg: Config, evs: seq<Event>, w: World, d: string, h: Digest, r: Result)
    requires Reaches(cfg, evs, w) && cfg.hasStore
    requires CachedAs(w.redis, CacheKey(d, h), r)
    ensures exists i :: 0 <= i < |w.rows| && w.rows[i].docType == d && w.rows[i].sha == h
              && Uncached(w.rows[i].result) == r
  {
    InvHolds(cfg, evs, w);
    assert EntryOk(cfg, w.log, w.rows, d, h, r);
    var i :| 0 <= i < |w.rows| && RowGives(w.rows[i], d, h, r);
    assert w.rows[i].docType == d;
  }

  /** No two different uploads of the run share a digest. */
  ghost predicate NoCollision(cfg: Config, log: seq<Fact>) {
    forall i, j :: 0 <= i < |log| && 0 <= j < |log| && log[i].Replied? && log[j].Called? ==>
      (cfg.sha(log[i].content) == cfg.sha(log[j].content) ==> log[i].content == log[j].content)
  }

  /** Cache transparency. In every run each 200 answer was produced by an earlier successful
      extractor call for the same document type and the same content. */
  lemma AnswersWereExtracted(cfg: Config, evs: seq<Event>, w: World, i: nat)
    requires Reaches(cfg, evs, w) && NoCollision(cfg, w.log)
    requires i < |w.log| && w.log[i].Replied?
    ensures exists j :: 0 <= j < i && w.log[j].Called? && w.log[j].docType == w.log[i].docType
              && w.log[j].content == w.log[i].content && w.log[j].out.Some?
              && ToResponse(w.log[j].out.value) == ToResponse(w.log[i].result)
  {
    InvHolds(cfg, evs, w);
    assert ReplyOk(cfg, w.log, i);
    var f := w.log[i];
    var j :| 0 <= j < i && CallGave(cfg, w.log[..i][j], f.docType, cfg.sha(f.content), Uncached(f.result));
    assert w.log[..i][j] == w.log[j];
    assert w.log[j].content == f.content;
  }

  /** If the extractor is a function of document type and content, every 200 answer, cached or not,
      is the answer that function gives: what a service without a cache would have said. */
  lemma CacheIsTransparent(cfg: Config, evs: seq<Event>, w: World, f: (string, Content) -> Json, i: nat)
    requires Reaches(cfg, evs, w) && NoCollision(cfg, w.log)
    requires forall j :: 0 <= j < |w.log| && w.log[j].Called? && w.log[j].out.Some? ==>
               w.log[j].out.value.data == f(w.log[j].docType, w.log[j].content)
    requires i < |w.log| && w.log[i].Replied?
    ensures ToResponse(w.log[i].result) == Response(w.log[i].docType, f(w.log[i].docType, w.log[i].content))
  {
    AnswersWereExtracted(cfg, evs, w, i);
    var j :| 0 <= j < i && w.log[j].Called? && w.log[j].docType == w.log[i].docType
              && w.log[j].content == w.log[i].content && w.log[j].out.Some?
              && ToResponse(w.log[j].out.value) == ToResponse(w.log[i].result);
    CallTyped(cfg, evs, w, j);
  }

  /** What an extraction's result says, up to the two fields the handler stamps. */
  predicate SaysSame(r: Result, out: Result) {
    && r.docType == out.docType && r.data == out.data
    && r.meta.model == out.meta.model && r.meta.chars == out.meta.chars
    && r.meta.mode == out.meta.mode && r.meta.images == out.meta.images && r.meta.filename == out.meta.filename
  }

  lemma OriginSays(cfg: Config, log: seq<Fact>, d: string, h: string, r: Result)
    requires Origin(cfg, log, d, h, r)
    ensures r.meta.contentSha256 == h && r.meta.cache == ""
    ensures exists j :: 0 <= j < |log| && log[j].Called? && log[j].docType == d && cfg.sha(log[j].content) == h
              && log[j].out.Some? && SaysSame(r, log[j].out.value)
  {
    var j :| 0 <= j < |log| && CallGave(cfg, log[j], d, h, r);
    assert SaysSame(r, log[j].out.value);
  }

  /** In every run what is cached carries the digest it is cached under and no cache tag, and otherwise, data, file name
      and all, what an extractor call for that type and digest gave. */
  lemma CachedIsStamped(cfg: Config, evs: seq<Event>, w: World, d: string, h: Digest, r: Result)
    requires Reaches(cfg, evs, w) && CachedAs(w.redis, CacheKey(d, h), r)
    ensures r.meta.contentSha256 == h && r.meta.cache == ""
    ensures exists j :: 0 <= j < |w.log| && w.log[j].Called? && w.log[j].docType == d && cfg.sha(w.log[j].content) == h
              && w.log[j].out.Some? && SaysSame(r, w.log[j].out.value)
  {
    hide Exec, CacheKey, SaysSame, Origin, HasRow, SessionsOk, RepliesOk;
    InvHolds(cfg, evs, w);
    assert EntryOk(cfg, w.log, w.rows, d, h, r);
    OriginSays(cfg, w.log, d, h, r);
  }

  /** In every run each answer carries the digest of its own upload, and otherwise what an earlier extractor call for
      its type and digest gave. */
  lemma AnswersAreStamped(cfg: Config, evs: seq<Event>, w: World, i: nat)
    requires Reaches(cfg, evs, w) && i < |w.log| && w.log[i].Replied?
    ensures var f := w.log[i];
            && f.result.meta.contentSha256 == cfg.sha(f.content)
            && exists j :: 0 <= j < i && w.log[j].Called? && w.log[j].docType == f.docType
                 && cfg.sha(w.log[j].content) == cfg.sha(f.content)
                 && w.log[j].out.Some? && SaysSame(f.result, w.log[j].out.value)
  {
    hide Exec, CallGave, SessionsOk, CacheOk;
    InvHolds(cfg, evs, w);
    assert ReplyOk(cfg, w.log, i);
    var f, log := w.log[i], w.log[..i];
    OriginSays(cfg, log, f.docType, cfg.sha(f.content), Uncached(f.result));
    var j :| 0 <= j < |log| && log[j].Called? && log[j].docType == f.docType
      && cfg.sha(log[j].content) == cfg.sha(f.content)
      && log[j].out.Some? && SaysSame(Uncached(f.result), log[j].out.value);
    assert w.log[j] == log[j];
  }

  // ---- how long an entry lives ----

  /** Cached results expire no later than `ttl` from now. */
  ghost predicate Expiring(cfg: Config, w: World) {
    forall d: string, h: Digest, r :: CachedAs(w.redis, CacheKey(d, h), r) ==>
      w.redis[CacheKey(d, h)].expires.Some? && w.redis[CacheKey(d, h)].expires.value <= w.now + cfg.ttl
  }

  /** An entry is either left as it was or written just now. */
  lemma EntryChange(cfg: Config, w: World, e: Event, d: string, h: Digest, r: Result)
    requires Enabled(w, e) && CachedAs(Next(cfg, w, e).redis, CacheKey(d, h), r)
    ensures var m, key := Next(cfg, w, e).redis, CacheKey(d, h);
            || (CachedAs(w.redis, key, r) && m[key] == w.redis[key])
            || (w.now == Next(cfg, w, e).now && m[key].expires == Some(w.now + cfg.ttl))
  {
    hide Advance, Admissible, Store.Commit, Tells, Goes, CacheKey, LimitKey, DocTypeOf, BucketOf, KindName;
    if e.Act? {
      var s := w.active[e.id];
      AdvanceMoves(cfg, w, e.id, e.how);
      if TouchedKey(cfg, s) == Some(CacheKey(d, h)) {
        EntryTouched(cfg, w, e.id, e.how, d, h, r);
      }
    }
  }

  lemma EntryTouched(cfg: Config, w: World, id: nat, how: How, d: string, h: Digest, r: Result)
    requires Enabled(w, Act(id, how)) && CachedAs(Advance(cfg, w, id, how).redis, CacheKey(d, h), r)
    requires TouchedKey(cfg, w.active[id]) == Some(CacheKey(d, h))
    ensures var m, key := Advance(cfg, w, id, how).redis, CacheKey(d, h);
            || (CachedAs(w.redis, key, r) && m[key] == w.redis[key])
            || m[key].expires == Some(w.now + cfg.ttl)
  {
    hide CountStep, ExpireStep, ConsentStep, LookStep, ClockStep, PrepareStep, CallStep, CommitStep, ReplyStep,
      CacheKey, LimitKey, DocTypeOf, BucketOf, KindName;
    var s := w.active[id];
    if s.pc.Counting? || s.pc.Expiring? {
      var b := BucketOf(cfg, s.req, s.pc.readAt);
      KeysDisjoint(d, h, KindName(b.kind), b.id, b.window);
    }
  }

  lemma {:induction false} ExpiringHolds(cfg: Config, evs: seq<Event>, w: World)
    requires Reaches(cfg, evs, w)
    ensures Expiring(cfg, w)
    decreases |evs|
  {
    hide Next, CacheKey;
    if evs != [] {
      var v := RunStep(cfg, evs, w);
      var e := evs[|evs| - 1];
      ExpiringHolds(cfg, evs[..|evs| - 1], v);
      StepGrows(cfg, v, e);
      forall d: string, h: Digest, r | CachedAs(w.redis, CacheKey(d, h), r)
        ensures w.redis[CacheKey(d, h)].expires.Some? && w.redis[CacheKey(d, h)].expires.value <= w.now + cfg.ttl
      {
        EntryChange(cfg, v, e, d, h, r);
      }
    }
  }

  /** In every run, once `ttl` has passed without a cache write, no GET returns a result any more. */
  lemma CacheExpires(cfg: Config, evs: seq<Event>, w: World, pause: nat, d: string, h: Digest)
    requires Reaches(cfg, evs, w) && pause >= cfg.ttl
    ensures var w' := Next(cfg, w, Tick(pause)); forall r :: Get(w'.redis, CacheKey(d, h), w'.now) != Some(Payload(r))
  {
    hide Exec, CacheKey;
    ExpiringHolds(cfg, evs, w);
    forall r ensures Get(w.redis, CacheKey(d, h), w.now + pause) != Some(Payload(r)) {
      if CachedAs(w.redis, CacheKey(d, h), r) {
        assert w.redis[CacheKey(d, h)].expires.value <= w.now + cfg.ttl;
      }
    }
  }

  /** A result just written is what a GET returns until `ttl` is over, however the clock moves. */
  lemma WrittenIsServed(cfg: Config, w: World, id: nat, pause: nat)
    requires id in w.active && w.active[id].pc.Caching? && cfg.hasCache && pause < cfg.ttl
    ensures var s, w' := w.active[id], Next(cfg, Next(cfg, w, Act(id, Ok)), Tick(pause));
            Get(w'.redis, CacheKey(DocTypeOf(s.req), cfg.sha(s.req.content)), w'.now)
            == Some(Payload(Uncached(s.pc.result)))
  {
    hide CacheKey, DocTypeOf;
  }

  /** A counter whose EXPIRE went through is gone after two minutes. */
  lemma CounterExpires(cfg: Config, w: World, id: nat, pause: nat)
    requires id in w.active && w.active[id].pc.Expiring? && pause >= 120 * 1_000_000_000
    ensures var s, w' := w.active[id], Next(cfg, Next(cfg, w, Act(id, Ok)), Tick(pause));
            Get(w'.redis, BucketKey(BucketOf(cfg, s.req, s.pc.readAt)), w'.now) == None
  {
    hide BucketKey, BucketOf;
  }

  /** A successful call returns the document type it was asked for. */
  lemma {:induction false} CallTyped(cfg: Config, evs: seq<Event>, w: World, j: nat)
    requires Reaches(cfg, evs, w) && j < |w.log| && w.log[j].Called? && w.log[j].out.Some?
    ensures w.log[j].out.value.docType == w.log[j].docType
    decreases |evs|
  {
    hide Next, DocTypeOf, ActorOf, BucketOf, ConsentOf, TxOf;
    if evs != [] {
      var v := RunStep(cfg, evs, w);
      var e := evs[|evs| - 1];
      StepGrows(cfg, v, e);
      if j < |v.log| {
        CallTyped(cfg, evs[..|evs| - 1], v, j);
      } else {
        NewFact(cfg, v, e, j);
      }
    }
  }
}
