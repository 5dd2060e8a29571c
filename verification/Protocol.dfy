/** The extract endpoint as a step machine. Requests interleave freely; every Redis command, every
    database transaction and every upstream call is one atomic step whose outcome the event carries,
    so a sequence of events is one run under one pattern of failures, delays and evictions. */
module Protocol {
  import opened Text
  import opened Domain
  import opened Identity
  import opened RedisModel
  import opened Keys
  import opened Upstream
  import Extractor
  import Store

  datatype Config = Config(
    sha: Content -> Digest,
    svc: Extractor.Service,
    limit: nat,
    ttl: nat,
    secret: string,
    hasCache: bool,
    hasStore: bool,
    hasConsents: bool,
    fold: char -> char,
    lower: char -> char)

  datatype Request = Request(
    docTypeParam: string, refreshParam: string, content: Content, filename: string,
    consent: string, principal: Principal, headers: Headers)

  function DocTypeOf(req: Request): string { TrimSpace(req.docTypeParam) }

  predicate Refreshes(cfg: Config, req: Request) { IsTruthy(TrimSpace(Lower(cfg.lower, req.refreshParam))) }

  function ActorOf(cfg: Config, req: Request): Actor { ResolveActor(cfg.secret, req.principal, req.headers) }

  function CacheKeyOf(cfg: Config, req: Request): string { CacheKey(DocTypeOf(req), cfg.sha(req.content)) }

  // ---- quota buckets ----

  /** One fixed window of one principal; `window` is its start in Unix seconds. */
  datatype Bucket = Bucket(kind: Kind, id: string, window: nat)

  function WindowOf(t: nat): nat { t / MINUTE * 60 }

  function BucketOf(cfg: Config, req: Request, readAt: nat): Bucket {
    Bucket(req.principal.kind, QuotaId(cfg.secret, req.principal, req.headers), WindowOf(readAt))
  }

  function BucketKey(b: Bucket): string { LimitKey(KindName(b.kind), b.id, b.window) }

  // ---- state ----

  datatype ConsentRow = ConsentRow(subject: string, email: string, policy: string, sha: string, docType: string)

  /** Where a request stands, with the locals it still needs. */
  datatype Pc =
    | Consenting
    | Looking
    | Purging
    | Invalidating
    | Clocking
    | Counting(readAt: nat)
    | Expiring(readAt: nat, allowed: bool)
    | Preparing(bucket: Bucket)
    | Extracting(bucket: Bucket, doc: Document)
    | Committing(result: Result, replace: bool)
    | Caching(result: Result)
    | Replying(result: Result)

  datatype Session = Session(req: Request, pc: Pc)

  datatype Why = BadRequest | Unauthorized | LimiterDown | RateLimited | Unprepared | ExtractFailed

  /** What happened, in order. `Consented` and `Stored` facts are the rows of the consent table and
      the committed transactions of the extractions table. */
  datatype Fact =
    | Consented(id: nat, consent: ConsentRow)
    | ConsentLost(id: nat)
    | Counted(id: nat, bucket: Bucket, readAt: nat, count: nat, allowed: bool, heard: bool)
    | Called(id: nat, bucket: Bucket, subject: string, docType: string, content: Content,
             out: Option<Result>, attempts: nat, backoff: nat)
    | Stored(id: nat, tx: Store.Tx)
    | Replied(id: nat, docType: string, content: Content, result: Result)
    | Refused(id: nat, why: Why)

  datatype World = World(
    now: nat, redis: Keyspace, rows: seq<Store.Row>, log: seq<Fact>, next: nat, active: map<nat, Session>)

  const START := World(0, map[], [], [], 0, map[])

  // ---- steps ----

  /** How the environment lets a step end. `Late` is a command that takes effect although the caller sees an
      error. */
  datatype How = Ok | Fail | Late | Prepared(doc: Document) | Scripted(first: ChatScript, repair: ChatScript)

  datatype Event =
    | Arrive(req: Request, valid: bool)
    | Act(id: nat, how: How)
    | Tick(d: nat)
    | Evict(key: string)
    | Spoil(key: string)

  predicate Enabled(w: World, e: Event) {
    match e
    case Act(id, how) =>
      id in w.active &&
      (match w.active[id].pc
       case Preparing(_) => how.Prepared? || how.Fail?
       case Extracting(_, _) => how.Scripted?
       case _ => how.Ok? || how.Fail? || how.Late?)
    case _ => true
  }

  function Note(w: World, f: Fact): World { w.(log := w.log + [f]) }

  function Goto(w: World, id: nat, pc: Pc): World
    requires id in w.active
  {
    w.(active := w.active[id := w.active[id].(pc := pc)])
  }

  function Close(w: World, id: nat, f: Fact): World { Note(w, f).(active := w.active - {id}) }

  function Refuse(w: World, id: nat, why: Why): World { Close(w, id, Refused(id, why)) }

  /** Parameter, upload and consent checks; only what passes gets a session. */
  predicate Admissible(cfg: Config, req: Request, valid: bool) {
    && DocTypeOf(req) != ""
    && ConsentAccepted(cfg.fold, cfg.lower, req.consent, req.headers, DocTypeOf(req))
    && valid
  }

  function ConsentOf(cfg: Config, req: Request): ConsentRow {
    var a := ActorOf(cfg, req);
    ConsentRow(a.subject, a.email, RequiredPolicy(DocTypeOf(req)), cfg.sha(req.content), DocTypeOf(req))
  }

  function RecordOf(cfg: Config, req: Request, result: Result): Store.Record {
    var a := ActorOf(cfg, req);
    Store.Record(DocTypeOf(req), cfg.sha(req.content), req.filename, a.subject, a.client, a.email, result)
  }

  // One function per program counter.

  function ConsentStep(cfg: Config, w: World, id: nat, how: How): World
    requires id in w.active
  {
    var req := w.active[id].req;
    var f := if cfg.hasConsents && !how.Fail? then Consented(id, ConsentOf(cfg, req)) else ConsentLost(id);
    Goto(Note(w, f), id, if Refreshes(cfg, req) then Invalidating else Looking)
  }

  function LookStep(cfg: Config, w: World, id: nat, how: How): World
    requires id in w.active
  {
    var req := w.active[id].req;
    if !cfg.hasCache || !how.Ok? then Goto(w, id, Clocking)
    else match Get(w.redis, CacheKeyOf(cfg, req), w.now)
      case None => Goto(w, id, Clocking)
      case Some(Payload(r)) => Goto(w, id, Committing(Stamp(r, cfg.sha(req.content), "hit"), false))
      case Some(_) => Goto(w, id, Purging)
  }

  function DeleteStep(cfg: Config, w: World, id: nat, how: How): World
    requires id in w.active
  {
    var key := CacheKeyOf(cfg, w.active[id].req);
    Goto(if cfg.hasCache && !how.Fail? then w.(redis := Del(w.redis, key)) else w, id, Clocking)
  }

  function ClockStep(cfg: Config, w: World, id: nat): World
    requires id in w.active
  {
    var req := w.active[id].req;
    if QuotaId(cfg.secret, req.principal, req.headers) == "" then Refuse(w, id, Unauthorized)
    else Goto(w, id, Counting(w.now))
  }

  function Decide(cfg: Config, w: World, id: nat, readAt: nat, allowed: bool): World
    requires id in w.active
  {
    if allowed then Goto(w, id, Preparing(BucketOf(cfg, w.active[id].req, readAt))) else Refuse(w, id, RateLimited)
  }

  function CountStep(cfg: Config, w: World, id: nat, readAt: nat, how: How): World
    requires id in w.active
  {
    var b := BucketOf(cfg, w.active[id].req, readAt);
    if how.Fail? then Refuse(w, id, LimiterDown)
    else match Incr(w.redis, BucketKey(b), w.now)
      case None => Refuse(w, id, LimiterDown)
      case Some((m, n)) =>
        var allowed := n <= cfg.limit;
        var w1 := Note(w.(redis := m), Counted(id, b, readAt, n, allowed, how.Ok?));
        if !how.Ok? then Refuse(w1, id, LimiterDown)
        else if n == 1 then Goto(w1, id, Expiring(readAt, allowed)) else Decide(cfg, w1, id, readAt, allowed)
  }

  function ExpireStep(cfg: Config, w: World, id: nat, readAt: nat, allowed: bool, how: How): World
    requires id in w.active
  {
    var key := BucketKey(BucketOf(cfg, w.active[id].req, readAt));
    Decide(cfg, if !how.Fail? then w.(redis := Expire(w.redis, key, w.now, 2 * MINUTE)) else w, id, readAt, allowed)
  }

  function PrepareStep(w: World, id: nat, b: Bucket, how: How): World
    requires id in w.active && (how.Fail? || how.Prepared?)
  {
    if how.Fail? then Refuse(w, id, Unprepared) else Goto(w, id, Extracting(b, how.doc))
  }

  function CallStep(cfg: Config, w: World, id: nat, b: Bucket, doc: Document, how: How): World
    requires id in w.active && how.Scripted?
  {
    var req := w.active[id].req;
    var o := Extractor.Extract(cfg.svc, DocTypeOf(req), doc, how.first, how.repair);
    var out := if o.out.Done? then Some(o.out.result) else None;
    var w1 := Note(w, Called(id, b, ActorOf(cfg, req).subject, DocTypeOf(req), req.content, out, o.attempts,
      o.backoff));
    if out.Some?
    then Goto(w1, id, Committing(Stamp(out.value, cfg.sha(req.content), "miss"), Refreshes(cfg, req)))
    else Refuse(w1, id, ExtractFailed)
  }

  function TxOf(cfg: Config, now: nat, req: Request, result: Result, replace: bool): Store.Tx {
    Store.Tx(RecordOf(cfg, req, result), replace, now)
  }

  function CommitStep(cfg: Config, w: World, id: nat, result: Result, replace: bool, how: How): World
    requires id in w.active
  {
    if !cfg.hasStore then Goto(w, id, Caching(result))
    else if how.Fail? then Goto(w, id, Replying(result))
    else
      var tx := TxOf(cfg, w.now, w.active[id].req, result, replace);
      Goto(Note(w.(rows := Store.Commit(w.rows, tx)), Stored(id, tx)), id, if how.Ok? then Caching(result)
        else Replying(result))
  }

  function CacheStep(cfg: Config, w: World, id: nat, result: Result, how: How): World
    requires id in w.active
  {
    var key := CacheKeyOf(cfg, w.active[id].req);
    Goto(if cfg.hasCache && !how.Fail?
         then w.(redis := SetEx(w.redis, key, Payload(Uncached(result)), w.now, cfg.ttl))
         else w, id, Replying(result))
  }

  function ReplyStep(w: World, id: nat, result: Result): World
    requires id in w.active
  {
    var req := w.active[id].req;
    Close(w, id, Replied(id, DocTypeOf(req), req.content, result))
  }

  /** One step of one request. */
  function Advance(cfg: Config, w: World, id: nat, how: How): World
    requires Enabled(w, Act(id, how))
  {
    match w.active[id].pc
    case Consenting => ConsentStep(cfg, w, id, how)
    case Looking => LookStep(cfg, w, id, how)
    case Purging => DeleteStep(cfg, w, id, how)
    case Invalidating => DeleteStep(cfg, w, id, how)
    case Clocking => ClockStep(cfg, w, id)
    case Counting(readAt) => CountStep(cfg, w, id, readAt, how)
    case Expiring(readAt, allowed) => ExpireStep(cfg, w, id, readAt, allowed, how)
    case Preparing(b) => PrepareStep(w, id, b, how)
    case Extracting(b, doc) => CallStep(cfg, w, id, b, doc, how)
    case Committing(result, replace) => CommitStep(cfg, w, id, result, replace, how)
    case Caching(result) => CacheStep(cfg, w, id, result, how)
    case Replying(result) => ReplyStep(w, id, result)
  }

  function Arrived(cfg: Config, w: World, req: Request, valid: bool): World {
    var w1 := w.(next := w.next + 1);
    if Admissible(cfg, req, valid) then w1.(active := w.active[w.next := Session(req, Consenting)])
    else Note(w1, Refused(w.next, BadRequest))
  }

  function Next(cfg: Config, w: World, e: Event): World
    requires Enabled(w, e)
  {
    match e
    case Arrive(req, valid) => Arrived(cfg, w, req, valid)
    case Act(id, how) => Advance(cfg, w, id, how)
    case Tick(d) => w.(now := w.now + d)
    case Evict(key) => w.(redis := Del(w.redis, key))
    case Spoil(key) => w.(redis := w.redis[key := Entry(Garbage, None)])
  }

  /** The world after a run from `w`, if every event of it is enabled in its turn. */
  function Exec(cfg: Config, w: World, evs: seq<Event>): Option<World> {
    if evs == [] then Some(w)
    else
      var n := |evs| - 1;
      match Exec(cfg, w, evs[..n])
      case None => None
      case Some(v) => if Enabled(v, evs[n]) then Some(Next(cfg, v, evs[n])) else None
  }

  /** `w` is reached by the run `evs` from the empty system. */
  predicate Reaches(cfg: Config, evs: seq<Event>, w: World) { Exec(cfg, START, evs) == Some(w) }

  /** Induction over runs, one step at a time. */
  lemma RunStep(cfg: Config, evs: seq<Event>, w: World) returns (v: World)
    requires Reaches(cfg, evs, w) && evs != []
    ensures Reaches(cfg, evs[..|evs| - 1], v)
    ensures Enabled(v, evs[|evs| - 1]) && w == Next(cfg, v, evs[|evs| - 1])
  {
    v := Exec(cfg, START, evs[..|evs| - 1]).value;
  }

  /** A run goes on with one more enabled event. */
  lemma ExecMore(cfg: Config, w0: World, evs: seq<Event>, w: World, e: Event)
    requires Exec(cfg, w0, evs) == Some(w) && Enabled(w, e)
    ensures Exec(cfg, w0, evs + [e]) == Some(Next(cfg, w, e))
  {
    hide Next;
    assert (evs + [e])[..|evs|] == evs;
  }

  /** Two runs one after the other are one run. */
  lemma {:induction false} ExecConcat(cfg: Config, w0: World, a: seq<Event>, w1: World, b: seq<Event>, w2: World)
    requires Exec(cfg, w0, a) == Some(w1) && Exec(cfg, w1, b) == Some(w2)
    ensures Exec(cfg, w0, a + b) == Some(w2)
    decreases |b|
  {
    hide Next;
    if b == [] {
      assert a + b == a;
    } else {
      var n := |b| - 1;
      var v := Exec(cfg, w1, b[..n]).value;
      ExecConcat(cfg, w0, a, w1, b[..n], v);
      assert (a + b)[..|a| + n] == a + b[..n];
      assert (a + b)[|a| + n] == b[n];
    }
  }

  lemma ExecOne(cfg: Config, w: World, e: Event)
    requires Enabled(w, e)
    ensures Exec(cfg, w, [e]) == Some(Next(cfg, w, e))
  {
    hide Next;
    assert [e][..0] == [];
  }

  /** Every event is a step of request `id`. */
  predicate Own(id: nat, evs: seq<Event>) { forall i :: 0 <= i < |evs| ==> evs[i].Act? && evs[i].id == id }

  // ---- what a step may change ----

  /** Where each refusal comes from; a bad request never gets as far as a session. */
  predicate RefusalFits(pc: Pc, why: Why) {
    match why
    case BadRequest => false
    case Unauthorized => pc.Clocking?
    case LimiterDown => pc.Counting?
    case RateLimited => pc.Counting? || (pc.Expiring? && !pc.allowed)
    case Unprepared => pc.Preparing?
    case ExtractFailed => pc.Extracting?
  }

  /** A fact that request `id` can add while in session `s`, and when. */
  predicate Tells(cfg: Config, now: nat, id: nat, s: Session, f: Fact) {
    && f.id == id
    && match f
       case Consented(_, c) => s.pc.Consenting? && c == ConsentOf(cfg, s.req)
       case ConsentLost(_) => s.pc.Consenting?
       case Counted(_, b, t, n, allowed, _) =>
         s.pc == Counting(t) && b == BucketOf(cfg, s.req, t) && allowed == (n <= cfg.limit)
       case Called(_, b, subject, d, c, out, attempts, backoff) =>
         && s.pc.Extracting? && b == s.pc.bucket && subject == ActorOf(cfg, s.req).subject
         && d == DocTypeOf(s.req) && c == s.req.content && attempts <= 6 && backoff <= 18
         && (out.Some? ==> out.value.docType == d)
       case Stored(_, tx) => s.pc.Committing? && tx == TxOf(cfg, now, s.req, s.pc.result, s.pc.replace)
       case Replied(_, d, c, r) => s.pc == Replying(r) && d == DocTypeOf(s.req) && c == s.req.content
       case Refused(_, why) => RefusalFits(s.pc, why)
  }

  /** The only key a request's next step can touch, if any. */
  function TouchedKey(cfg: Config, s: Session): Option<string> {
    match s.pc
    case Counting(t) => Some(BucketKey(BucketOf(cfg, s.req, t)))
    case Expiring(t, _) => Some(BucketKey(BucketOf(cfg, s.req, t)))
    case Purging => Some(CacheKeyOf(cfg, s.req))
    case Invalidating => Some(CacheKeyOf(cfg, s.req))
    case Caching(_) => Some(CacheKeyOf(cfg, s.req))
    case _ => None
  }

  predicate SameAt(a: Keyspace, b: Keyspace, key: string) {
    (key in a <==> key in b) && (key in a ==> a[key] == b[key])
  }

  /** Where a request that stays active goes next, and the fact it leaves behind. */
  predicate Goes(cfg: Config, w: World, id: nat, s: Session, pc: Pc, r: World) {
    match s.pc
    case Consenting => pc == (if Refreshes(cfg, s.req) then Invalidating else Looking) && |r.log| == |w.log| + 1
    case Looking =>
      && r.log == w.log
      && (pc == Clocking || pc == Purging || (pc.Committing? && pc.result.meta.cache == "hit" && !pc.replace))
    case Purging => pc == Clocking && r.log == w.log
    case Invalidating => pc == Clocking && r.log == w.log
    case Clocking => pc == Counting(w.now) && r.log == w.log
    case Counting(t) =>
      var b := BucketOf(cfg, s.req, t);
      && |r.log| == |w.log| + 1 && r.log[|w.log|].Counted? && r.log[|w.log|].heard
      && ((pc.Expiring? && pc.readAt == t && r.log[|w.log|].allowed == pc.allowed)
          || (pc == Preparing(b) && r.log[|w.log|].allowed))
    case Expiring(t, allowed) => allowed && pc == Preparing(BucketOf(cfg, s.req, t)) && r.log == w.log
    case Preparing(b) => pc.Extracting? && pc.bucket == b && r.log == w.log
    case Extracting(b, _) =>
      && pc.Committing? && pc.result.meta.cache == "miss" && pc.replace == Refreshes(cfg, s.req)
           && |r.log| == |w.log| + 1
      && r.log[|w.log|].Called? && r.log[|w.log|].out.Some?
      && pc.result == Stamp(r.log[|w.log|].out.value, cfg.sha(s.req.content), "miss")
    case Committing(result, _) =>
      && (pc == Caching(result) || pc == Replying(result))
      && |r.log| <= |w.log| + 1
    case Caching(result) => pc == Replying(result) && r.log == w.log
    case Replying(_) => false
  }

  /** The answer or the refusal of a request. */
  predicate IsEnd(f: Fact) { f.Replied? || f.Refused? }

  /** What one step of request `id` can do to the world: it adds at most two facts, of its own; it
      changes at most the key and the session that are its own; and the table changes exactly when a
      transaction is recorded. */
  ghost predicate Moves(cfg: Config, w: World, id: nat, r: World)
    requires id in w.active
  {
    var s := w.active[id];
    && w.log <= r.log && |r.log| <= |w.log| + 2 && r.now == w.now && r.next == w.next
    && (forall i :: |w.log| <= i < |r.log| ==>
          && Tells(cfg, w.now, id, s, r.log[i]) && (i > |w.log| ==> r.log[i].Refused?)
          && (IsEnd(r.log[i]) ==> id !in r.active && i == |r.log| - 1))
    && (id !in r.active ==> |r.log| > |w.log| && IsEnd(r.log[|r.log| - 1]))
    && (forall k :: k != id ==> (k in r.active <==> k in w.active) && (k in w.active ==> r.active[k] == w.active[k]))
    && (id in r.active ==> r.active[id].req == s.req && Goes(cfg, w, id, s, r.active[id].pc, r))
    && (forall key :: Some(key) != TouchedKey(cfg, s) ==> SameAt(r.redis, w.redis, key))
    && r.rows == (if |r.log| > |w.log| && r.log[|w.log|].Stored? then Store.Commit(w.rows, r.log[|w.log|].tx)
         else w.rows)
  }

  lemma ConsentMoves(cfg: Config, w: World, id: nat, how: How)
    requires id in w.active && w.active[id].pc.Consenting?
    ensures Moves(cfg, w, id, ConsentStep(cfg, w, id, how))
  {
    hide DocTypeOf, Refreshes, ActorOf, ConsentOf;
  }

  lemma LookMoves(cfg: Config, w: World, id: nat, how: How)
    requires id in w.active && w.active[id].pc.Looking?
    ensures Moves(cfg, w, id, LookStep(cfg, w, id, how))
  {
    hide DocTypeOf, CacheKeyOf;
  }

  lemma DeleteMoves(cfg: Config, w: World, id: nat, how: How)
    requires id in w.active && (w.active[id].pc.Purging? || w.active[id].pc.Invalidating?)
    ensures Moves(cfg, w, id, DeleteStep(cfg, w, id, how))
  {
    hide DocTypeOf, CacheKeyOf;
  }

  lemma ClockMoves(cfg: Config, w: World, id: nat)
    requires id in w.active && w.active[id].pc.Clocking?
    ensures Moves(cfg, w, id, ClockStep(cfg, w, id))
  {
    hide QuotaId, CacheKeyOf;
  }

  lemma IncrTouches(m: Keyspace, key: string, now: nat)
    ensures Incr(m, key, now).Some? ==> forall k :: k != key ==> SameAt(Incr(m, key, now).value.0, m, k)
  {
  }

  lemma CountMoves(cfg: Config, w: World, id: nat, how: How)
    requires id in w.active && w.active[id].pc.Counting?
    ensures Moves(cfg, w, id, CountStep(cfg, w, id, w.active[id].pc.readAt, how))
  {
    hide Moves, BucketOf, BucketKey, Incr, CacheKeyOf;
    var t := w.active[id].pc.readAt;
    var b := BucketOf(cfg, w.active[id].req, t);
    var r := Incr(w.redis, BucketKey(b), w.now);
    IncrTouches(w.redis, BucketKey(b), w.now);
    if how.Fail? || r.None? {
      CountRefused(cfg, w, id, how);
    } else {
      Counts(cfg, w, id, how, b, r.value.0, r.value.1);
    }
  }

  lemma CountRefused(cfg: Config, w: World, id: nat, how: How)
    requires id in w.active && w.active[id].pc.Counting?
    requires how.Fail? || Incr(w.redis, BucketKey(BucketOf(cfg, w.active[id].req, w.active[id].pc.readAt)), w.now).None?
    ensures Moves(cfg, w, id, CountStep(cfg, w, id, w.active[id].pc.readAt, how))
  {
    hide BucketOf, BucketKey, Incr, CacheKeyOf, Goes;
  }

  lemma Counts(cfg: Config, w: World, id: nat, how: How, b: Bucket, m: Keyspace, n: nat)
    requires id in w.active && w.active[id].pc.Counting? && b == BucketOf(cfg, w.active[id].req, w.active[id].pc.readAt)
    requires !how.Fail? && Incr(w.redis, BucketKey(b), w.now) == Some((m, n))
    requires forall k :: k != BucketKey(b) ==> SameAt(m, w.redis, k)
    ensures Moves(cfg, w, id, CountStep(cfg, w, id, w.active[id].pc.readAt, how))
  {
    hide BucketOf, BucketKey, Incr, CacheKeyOf, SameAt;
  }

  lemma ExpireMoves(cfg: Config, w: World, id: nat, how: How)
    requires id in w.active && w.active[id].pc.Expiring?
    ensures Moves(cfg, w, id, ExpireStep(cfg, w, id, w.active[id].pc.readAt, w.active[id].pc.allowed, how))
  {
    hide BucketOf, BucketKey;
  }

  lemma PrepareMoves(cfg: Config, w: World, id: nat, how: How)
    requires id in w.active && w.active[id].pc.Preparing? && (how.Fail? || how.Prepared?)
    ensures Moves(cfg, w, id, PrepareStep(w, id, w.active[id].pc.bucket, how))
  {
    hide CacheKeyOf;
  }

  lemma CallMoves(cfg: Config, w: World, id: nat, how: How)
    requires id in w.active && w.active[id].pc.Extracting? && how.Scripted?
    ensures Moves(cfg, w, id, CallStep(cfg, w, id, w.active[id].pc.bucket, w.active[id].pc.doc, how))
  {
    hide Extractor.Extract, DocTypeOf, ActorOf, Refreshes, CacheKeyOf;
    Extractor.ExtractCost(cfg.svc, DocTypeOf(w.active[id].req), w.active[id].pc.doc, how.first, how.repair);
  }

  lemma CommitMoves(cfg: Config, w: World, id: nat, how: How)
    requires id in w.active && w.active[id].pc.Committing?
    ensures Moves(cfg, w, id, CommitStep(cfg, w, id, w.active[id].pc.result, w.active[id].pc.replace, how))
  {
    hide TxOf, CacheKeyOf, Store.Commit;
  }

  lemma CacheMoves(cfg: Config, w: World, id: nat, how: How)
    requires id in w.active && w.active[id].pc.Caching?
    ensures Moves(cfg, w, id, CacheStep(cfg, w, id, w.active[id].pc.result, how))
  {
    hide CacheKeyOf;
  }

  lemma ReplyMoves(cfg: Config, w: World, id: nat)
    requires id in w.active && w.active[id].pc.Replying?
    ensures Moves(cfg, w, id, ReplyStep(w, id, w.active[id].pc.result))
  {
    hide DocTypeOf, CacheKeyOf;
  }

  lemma AdvanceMoves(cfg: Config, w: World, id: nat, how: How)
    requires Enabled(w, Act(id, how))
    ensures Moves(cfg, w, id, Advance(cfg, w, id, how))
  {
    hide Moves, ConsentStep, LookStep, DeleteStep, ClockStep, CountStep, ExpireStep, PrepareStep, CallStep,
      CommitStep, CacheStep, ReplyStep;
    match w.active[id].pc {
      case Consenting => ConsentMoves(cfg, w, id, how);
      case Looking => LookMoves(cfg, w, id, how);
      case Purging => DeleteMoves(cfg, w, id, how);
      case Invalidating => DeleteMoves(cfg, w, id, how);
      case Clocking => ClockMoves(cfg, w, id);
      case Counting(_) => CountMoves(cfg, w, id, how);
      case Expiring(_, _) => ExpireMoves(cfg, w, id, how);
      case Preparing(_) => PrepareMoves(cfg, w, id, how);
      case Extracting(_, _) => CallMoves(cfg, w, id, how);
      case Committing(_, _) => CommitMoves(cfg, w, id, how);
      case Caching(_) => CacheMoves(cfg, w, id, how);
      case Replying(_) => ReplyMoves(cfg, w, id);
    }
  }
}
