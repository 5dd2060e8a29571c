/** A run that answers stale, event by event: a request, a refresh that loses its DEL and then its transaction, and the
    request again. */
module StaleRun {
  import opened Text
  import opened Domain
  import opened Identity
  import opened RedisModel
  import opened Keys
  import opened Upstream
  import opened Protocol
  import opened Freshness
  import opened Stale
  import opened Turns
  import Extractor
  import Unwrap
  import Store

  // ---- the events ----

  /** Arrival, consent, GET, clock, INCR, EXPIRE, preparation, extraction, transaction, SET, answer. */
  function Extraction(id: nat, req: Request, doc: Document, s: ChatScript): seq<Event> {
    [Arrive(req, true), Act(id, Ok), Act(id, Ok), Act(id, Ok), Act(id, Ok), Act(id, Ok), Act(id, Prepared(doc)),
     Act(id, Scripted(s, s)), Act(id, Ok), Act(id, Ok), Act(id, Ok)]
  }

  /** Arrival, consent, lost DEL, clock, INCR, preparation, extraction. */
  function RefreshWithoutDelete(id: nat, req: Request, doc: Document, s: ChatScript): seq<Event> {
    [Arrive(req, true), Act(id, Ok), Act(id, Fail), Act(id, Ok), Act(id, Ok), Act(id, Prepared(doc)),
     Act(id, Scripted(s, s))]
  }

  /** The whole run: the DEL and the transaction of the refresh are the two events that fail, and what follows is its
      answer and the request once more, from arrival to answer. */
  function TheRun(p: Request, x: string, doc: Document, s: ChatScript, s': ChatScript): seq<Event> {
    Extraction(0, p, doc, s) + RefreshWithoutDelete(1, p.(refreshParam := x), doc, s') + [Act(1, Fail)]
    + Aftermath(1, 2, p.(refreshParam := ""))
  }

  // ---- stretches of the run of a single request ----

  /** A request alone in the system, at this point. */
  function At(w: World, id: nat, req: Request, pc: Pc): World { w.(active := map[id := Session(req, pc)]) }

  lemma Single(id: nat, s: Session, s': Session)
    ensures map[id := s][id := s'] == map[id := s'] && map[id := s] - {id} == map[] && map[][id := s] == map[id := s]
  {
  }

  lemma Begin(cfg: Config, w: World, req: Request)
    requires Admissible(cfg, req, true) && w.active == map[] && cfg.hasConsents
    ensures var w1 := w.(next := w.next + 1, log := w.log + [Consented(w.next, ConsentOf(cfg, req))]);
            Exec(cfg, w, [Arrive(req, true), Act(w.next, Ok)])
            == Some(At(w1, w.next, req, if Refreshes(cfg, req) then Invalidating else Looking))
  {
    hide Admissible, ConsentOf, Refreshes, Exec;
    Single(w.next, Session(req, Consenting), Session(req, if Refreshes(cfg, req) then Invalidating else Looking));
    ExecOne(cfg, w, Arrive(req, true));
    var v := Next(cfg, w, Arrive(req, true));
    assert v == At(w.(next := w.next + 1), w.next, req, Consenting);
    ExecMore(cfg, w, [Arrive(req, true)], v, Act(w.next, Ok));
    assert [Arrive(req, true)] + [Act(w.next, Ok)] == [Arrive(req, true), Act(w.next, Ok)];
  }

  lemma Miss(cfg: Config, w: World, id: nat, req: Request)
    requires Get(w.redis, CacheKeyOf(cfg, req), w.now) == None
    ensures Exec(cfg, At(w, id, req, Looking), [Act(id, Ok)]) == Some(At(w, id, req, Clocking))
  {
    hide CacheKeyOf;
    Single(id, Session(req, Looking), Session(req, Clocking));
    ExecOne(cfg, At(w, id, req, Looking), Act(id, Ok));
  }

  lemma LoseDelete(cfg: Config, w: World, id: nat, req: Request)
    ensures Exec(cfg, At(w, id, req, Invalidating), [Act(id, Fail)]) == Some(At(w, id, req, Clocking))
  {
    hide CacheKeyOf;
    Single(id, Session(req, Invalidating), Session(req, Clocking));
    ExecOne(cfg, At(w, id, req, Invalidating), Act(id, Fail));
  }

  /** Clock, INCR, and EXPIRE after the first. */
  function Payment(id: nat, n: nat): seq<Event> {
    [Act(id, Ok), Act(id, Ok)] + (if n == 1 then [Act(id, Ok)] else [])
  }

  function Paid(cfg: Config, w: World, req: Request, m: Keyspace, n: nat): Keyspace {
    if n == 1 then Expire(m, BucketKey(BucketOf(cfg, req, w.now)), w.now, 2 * MINUTE) else m
  }

  lemma Pay(cfg: Config, w: World, id: nat, req: Request, m: Keyspace, n: nat)
    requires QuotaId(cfg.secret, req.principal, req.headers) != "" && n <= cfg.limit
    requires Incr(w.redis, BucketKey(BucketOf(cfg, req, w.now)), w.now) == Some((m, n))
    ensures var b := BucketOf(cfg, req, w.now);
            var w1 := w.(redis := Paid(cfg, w, req, m, n), log := w.log + [Counted(id, b, w.now, n, true, true)]);
            Exec(cfg, At(w, id, req, Clocking), Payment(id, n)) == Some(At(w1, id, req, Preparing(b)))
  {
    hide QuotaId, BucketOf, BucketKey, Incr, CountStep, ExpireStep, Paid, Exec;
    var w0, e := At(w, id, req, Clocking), Act(id, Ok);
    ExecOne(cfg, w0, e);
    var v := At(w, id, req, Counting(w.now));
    Single(id, Session(req, Clocking), Session(req, Counting(w.now)));
    ExecMore(cfg, w0, [e], v, e);
    assert [e] + [e] == [e, e];
    Count(cfg, w, id, req, m, n);
    if n == 1 {
      ExecMore(cfg, w0, [e, e], CountStep(cfg, v, id, w.now, Ok), e);
    } else {
      assert Payment(id, n) == [e, e];
    }
  }

  lemma Count(cfg: Config, w: World, id: nat, req: Request, m: Keyspace, n: nat)
    requires n <= cfg.limit && Incr(w.redis, BucketKey(BucketOf(cfg, req, w.now)), w.now) == Some((m, n))
    ensures var b := BucketOf(cfg, req, w.now);
            var w1 := w.(redis := m, log := w.log + [Counted(id, b, w.now, n, true, true)]);
            && CountStep(cfg, At(w, id, req, Counting(w.now)), id, w.now, Ok)
               == At(w1, id, req, if n == 1 then Expiring(w.now, true) else Preparing(b))
            && (n == 1 ==>
                  ExpireStep(cfg, At(w1, id, req, Expiring(w.now, true)), id, w.now, true, Ok)
                  == At(w1.(redis := Paid(cfg, w, req, m, n)), id, req, Preparing(b)))
            && (n != 1 ==> Paid(cfg, w, req, m, n) == m)
  {
    hide BucketOf, BucketKey, Incr, Expire;
    var b := BucketOf(cfg, req, w.now);
    Single(id, Session(req, Counting(w.now)), Session(req, Expiring(w.now, true)));
    Single(id, Session(req, Counting(w.now)), Session(req, Preparing(b)));
    Single(id, Session(req, Expiring(w.now, true)), Session(req, Preparing(b)));
  }

  function Output(cfg: Config, req: Request, doc: Document, s: ChatScript): Extractor.Outcome {
    Extractor.Extract(cfg.svc, DocTypeOf(req), doc, s, s)
  }

  lemma Call(cfg: Config, w: World, id: nat, req: Request, b: Bucket, doc: Document, s: ChatScript)
    requires Output(cfg, req, doc, s).out.Done?
    ensures var o := Output(cfg, req, doc, s);
            var r := o.out.result;
            var who := ActorOf(cfg, req).subject;
            var f := Called(id, b, who, DocTypeOf(req), req.content, Some(r), o.attempts, o.backoff);
            var pc := Committing(Stamp(r, cfg.sha(req.content), "miss"), Refreshes(cfg, req));
            Exec(cfg, At(w, id, req, Preparing(b)), [Act(id, Prepared(doc)), Act(id, Scripted(s, s))])
            == Some(At(w.(log := w.log + [f]), id, req, pc))
  {
    hide Extractor.Extract, DocTypeOf, ActorOf, Refreshes, Exec;
    var w0 := At(w, id, req, Preparing(b));
    var r := Output(cfg, req, doc, s).out.result;
    var pc := Committing(Stamp(r, cfg.sha(req.content), "miss"), Refreshes(cfg, req));
    Single(id, Session(req, Preparing(b)), Session(req, Extracting(b, doc)));
    Single(id, Session(req, Extracting(b, doc)), Session(req, pc));
    ExecOne(cfg, w0, Act(id, Prepared(doc)));
    ExecMore(cfg, w0, [Act(id, Prepared(doc))], At(w, id, req, Extracting(b, doc)), Act(id, Scripted(s, s)));
    assert [Act(id, Prepared(doc))] + [Act(id, Scripted(s, s))] == [Act(id, Prepared(doc)), Act(id, Scripted(s, s))];
  }

  lemma Keep(cfg: Config, w: World, id: nat, req: Request, r: Result, replace: bool) returns (w': World)
    requires cfg.hasStore && cfg.hasCache
    ensures Exec(cfg, At(w, id, req, Committing(r, replace)), [Act(id, Ok), Act(id, Ok), Act(id, Ok)]) == Some(w')
    ensures w'.active == map[] && w'.now == w.now && w'.next == w.next
    ensures w'.redis == SetEx(w.redis, CacheKeyOf(cfg, req), Payload(Uncached(r)), w.now, cfg.ttl)
  {
    hide TxOf, DocTypeOf, CacheKeyOf, Store.Commit, Exec;
    var w0, e, tx := At(w, id, req, Committing(r, replace)), Act(id, Ok), TxOf(cfg, w.now, req, r, replace);
    Single(id, Session(req, Committing(r, replace)), Session(req, Caching(r)));
    Single(id, Session(req, Caching(r)), Session(req, Replying(r)));
    Single(id, Session(req, Replying(r)), Session(req, Replying(r)));
    ExecOne(cfg, w0, e);
    var w1 := At(w.(rows := Store.Commit(w.rows, tx), log := w.log + [Stored(id, tx)]), id, req, Caching(r));
    ExecMore(cfg, w0, [e], w1, e);
    assert [e] + [e] == [e, e] && [e, e] + [e] == [e, e, e];
    var m := SetEx(w.redis, CacheKeyOf(cfg, req), Payload(Uncached(r)), w.now, cfg.ttl);
    var w2 := At(w1.(redis := m), id, req, Replying(r));
    ExecMore(cfg, w0, [e, e], w2, e);
    w' := Next(cfg, w2, e);
  }

  // ---- the two extractions ----

  /** What an extraction needs: an admissible request that may pay, and a provider that answers. */
  predicate Serves(cfg: Config, req: Request, doc: Document, s: ChatScript) {
    && Admissible(cfg, req, true) && cfg.hasConsents && cfg.hasCache && cfg.hasStore
    && QuotaId(cfg.secret, req.principal, req.headers) != "" && Output(cfg, req, doc, s).out.Done?
  }

  /** From the gate to the transaction: a miss, or a refresh that loses its DEL. */
  lemma Extracts(cfg: Config, w: World, req: Request, doc: Document, s: ChatScript, m: Keyspace, n: nat)
    returns (w': World, evs: seq<Event>)
    requires Serves(cfg, req, doc, s) && w.active == map[] && n <= cfg.limit
    requires Incr(w.redis, BucketKey(BucketOf(cfg, req, w.now)), w.now) == Some((m, n))
    requires !Refreshes(cfg, req) ==> Get(w.redis, CacheKeyOf(cfg, req), w.now) == None
    ensures var r := Stamp(Output(cfg, req, doc, s).out.result, cfg.sha(req.content), "miss");
            Exec(cfg, w, evs) == Some(At(w', w.next, req, Committing(r, Refreshes(cfg, req))))
    ensures w'.redis == Paid(cfg, w, req, m, n) && w'.now == w.now && w'.next == w.next + 1
    ensures var id := w.next;
            evs == [Arrive(req, true), Act(id, Ok)] + [Act(id, if Refreshes(cfg, req) then Fail else Ok)]
                   + Payment(id, n) + [Act(id, Prepared(doc)), Act(id, Scripted(s, s))]
  {
    hide Exec, Admissible, QuotaId, Extractor.Extract, DocTypeOf, Refreshes, ConsentOf, BucketOf, BucketKey,
      CacheKeyOf, Incr, Get, Payment, Paid;
    var id, b, o := w.next, BucketOf(cfg, req, w.now), Output(cfg, req, doc, s);
    var w1 := w.(next := id + 1, log := w.log + [Consented(id, ConsentOf(cfg, req))]);
    Begin(cfg, w, req);
    evs := [Arrive(req, true), Act(id, Ok)];
    var pc := if Refreshes(cfg, req) then Invalidating else Looking;
    var look := [Act(id, if Refreshes(cfg, req) then Fail else Ok)];
    if Refreshes(cfg, req) {
      LoseDelete(cfg, w1, id, req);
    } else {
      Miss(cfg, w1, id, req);
    }
    ExecConcat(cfg, w, evs, At(w1, id, req, pc), look, At(w1, id, req, Clocking));
    evs := evs + look;
    Pay(cfg, w1, id, req, m, n);
    var paid := Paid(cfg, w1, req, m, n);
    SamePaid(cfg, w, w1, req, m, n);
    var w2 := w1.(redis := paid, log := w1.log + [Counted(id, b, w.now, n, true, true)]);
    ExecConcat(cfg, w, evs, At(w1, id, req, Clocking), Payment(id, n), At(w2, id, req, Preparing(b)));
    evs := evs + Payment(id, n);
    Call(cfg, w2, id, req, b, doc, s);
    var who := ActorOf(cfg, req).subject;
    var f := Called(id, b, who, DocTypeOf(req), req.content, Some(o.out.result), o.attempts, o.backoff);
    var pc2 := Committing(Stamp(o.out.result, cfg.sha(req.content), "miss"), Refreshes(cfg, req));
    w' := w2.(log := w2.log + [f]);
    var call := [Act(id, Prepared(doc)), Act(id, Scripted(s, s))];
    ExecConcat(cfg, w, evs, At(w2, id, req, Preparing(b)), call, At(w', id, req, pc2));
    evs := evs + call;
  }

  lemma SamePaid(cfg: Config, w: World, w': World, req: Request, m: Keyspace, n: nat)
    requires w'.now == w.now
    ensures Paid(cfg, w', req, m, n) == Paid(cfg, w, req, m, n)
  {
  }

  /** A turn in which at most the cache read or delete fails loses nothing. */
  lemma {:induction false} CarefulTurn(cfg: Config, hist: seq<Event>, w: World, evs: seq<Event>, n: nat, d: string,
                                       h: Digest)
    requires Reaches(cfg, hist, w) && Orderly(cfg, hist, d, h) && Turn(cfg, w, evs) && n <= |evs| && cfg.hasCache
    requires forall m :: 0 <= m < |evs| && m != 2 && evs[m].Act? ==> !evs[m].how.Fail? && !evs[m].how.Late?
    ensures Orderly(cfg, hist + evs[..n], d, h)
  {
    hide Exec, Turn, Orderly, Spoils;
    if n == 0 {
      assert hist + evs[..0] == hist;
    } else {
      CarefulTurn(cfg, hist, w, evs, n - 1, d, h);
      TurnPrefix(cfg, w, evs, n - 1);
      NoSpoilWhenCareful(cfg, w, evs, n - 1, d, h);
      TurnOn(cfg, hist, w, evs, n - 1, d, h);
    }
  }

  lemma NoSpoilWhenCareful(cfg: Config, w: World, evs: seq<Event>, n: nat, d: string, h: Digest)
    requires Turn(cfg, w, evs) && n < |evs| && Exec(cfg, w, evs[..n]).Some? && cfg.hasCache
    requires n != 2 && evs[n].Act? ==> !evs[n].how.Fail? && !evs[n].how.Late?
    ensures !Spoils(cfg, StateAt(cfg, w, evs, n), evs[n], d, h)
  {
    hide Exec, IsFor, Served, CacheKey, ToResponse;
    ExecPrefix(cfg, w, evs, n);
    if n > 0 {
      Stages(cfg, w, evs, n);
    }
  }

  // ---- the whole run ----

  /** A counter that expires in two minutes counts on, and leaves other keys. */
  lemma SecondCount(key: string, other: string, r: Result, ttl: nat) returns (m: Keyspace, c: Keyspace, c': Keyspace)
    requires key != other && ttl > 0
    ensures Incr(map[], key, 0) == Some((m, 1))
    ensures c == SetEx(Expire(m, key, 0, 2 * MINUTE), other, Payload(r), 0, ttl)
    ensures Incr(c, key, 0) == Some((c', 2)) && Served(c', 0, other, r)
  {
    m := map[key := Entry(Counter(1), None)];
    assert map[][key := Entry(Counter(1), None)] == m;
    c := SetEx(Expire(m, key, 0, 2 * MINUTE), other, Payload(r), 0, ttl);
    c' := c[key := c[key].(value := Counter(2))];
  }

  lemma KeysApart(cfg: Config, req: Request)
    ensures CacheKeyOf(cfg, req) != BucketKey(BucketOf(cfg, req, 0))
  {
    hide CacheKey, LimitKey, DocTypeOf, QuotaId, KindName;
    var b := BucketOf(cfg, req, 0);
    KeysDisjoint(DocTypeOf(req), cfg.sha(req.content), KindName(b.kind), b.id, b.window);
  }

  lemma NothingCached(key: string)
    ensures Get(map[], key, 0) == None
  {
  }

  lemma FirstPart(cfg: Config, p: Request, doc: Document, s: ChatScript, m: Keyspace) returns (w: World)
    requires Serves(cfg, p, doc, s) && 1 <= cfg.limit && !Refreshes(cfg, p)
    requires Incr(map[], BucketKey(BucketOf(cfg, p, 0)), 0) == Some((m, 1))
    ensures Exec(cfg, START, Extraction(0, p, doc, s)) == Some(w) && w.active == map[] && w.now == 0 && w.next == 1
    ensures var r := Stamp(Output(cfg, p, doc, s).out.result, cfg.sha(p.content), "miss");
            w.redis == SetEx(Paid(cfg, START, p, m, 1), CacheKeyOf(cfg, p), Payload(Uncached(r)), 0, cfg.ttl)
  {
    hide Exec, Admissible, QuotaId, Extractor.Extract, DocTypeOf, Refreshes, BucketOf, BucketKey, CacheKeyOf, Incr,
      Get, SetEx, Paid;
    NothingCached(CacheKeyOf(cfg, p));
    var r := Stamp(Output(cfg, p, doc, s).out.result, cfg.sha(p.content), "miss");
    var w1, evs := Extracts(cfg, START, p, doc, s, m, 1);
    w := Keep(cfg, w1, 0, p, r, false);
    ExecConcat(cfg, START, evs, At(w1, 0, p, Committing(r, false)), [Act(0, Ok), Act(0, Ok), Act(0, Ok)], w);
    assert evs + [Act(0, Ok), Act(0, Ok), Act(0, Ok)] == Extraction(0, p, doc, s);
  }

  lemma TwoTurns(cfg: Config, w: World, v: World, p: Request, q: Request, doc: Document, s: ChatScript, s': ChatScript,
                 d: string, h: Digest)
    requires Exec(cfg, START, Extraction(0, p, doc, s)) == Some(w) && w.active == map[] && w.next == 1 && cfg.hasCache
    requires Exec(cfg, w, RefreshWithoutDelete(1, q, doc, s')) == Some(v)
    ensures var evs := Extraction(0, p, doc, s) + RefreshWithoutDelete(1, q, doc, s');
            Reaches(cfg, evs, v) && Orderly(cfg, evs, d, h)
  {
    hide Exec;
    var a, b := Extraction(0, p, doc, s), RefreshWithoutDelete(1, q, doc, s');
    NoEvents(cfg, START);
    assert [] + a == a && a[..|a|] == a && b[..|b|] == b;
    CarefulTurn(cfg, [], START, a, |a|, d, h);
    CarefulTurn(cfg, a, w, b, |b|, d, h);
    ExecConcat(cfg, START, a, w, b, v);
  }

  /** For every configuration with cache, store, consents and a limit of two or more, and every request it
      serves with two different responses, this very run is possible. The requests for the document come one at
      a time, every GET is answered, only the DEL and the transaction of the refresh fail, the latter is the one
      step that loses a cache write while another response is served, and the last answer is stale. */
  lemma RefreshInVain(cfg: Config, p: Request, x: string, doc: Document, s: ChatScript, s': ChatScript)
    returns (w: World)
    requires var q := p.(refreshParam := x);
             Serves(cfg, p, doc, s) && Serves(cfg, q, doc, s') && !Refreshes(cfg, p) && Refreshes(cfg, q)
    requires cfg.limit >= 2 && cfg.ttl > 0
    requires ToResponse(Output(cfg, p, doc, s).out.result)
             != ToResponse(Output(cfg, p.(refreshParam := x), doc, s').out.result)
    ensures Reaches(cfg, TheRun(p, x, doc, s, s'), w)
    ensures OrderlyBut(cfg, TheRun(p, x, doc, s, s'), DocTypeOf(p), cfg.sha(p.content), 18)
    ensures EndsStale(cfg, w.log, DocTypeOf(p), cfg.sha(p.content))
  {
    hide Exec, Admissible, Extractor.Extract, Refreshes, QuotaId, BucketKey, CacheKey, Incr, Get, SetEx, Expire,
      IsFresh, ConsentAccepted, Served, OrderlyBut, EndsStale, Aftermath, TrimSpace;
    var q, d, h := p.(refreshParam := x), DocTypeOf(p), cfg.sha(p.content);
    var key, other := BucketKey(BucketOf(cfg, p, 0)), CacheKeyOf(cfg, p);
    var r := Stamp(Output(cfg, p, doc, s).out.result, h, "miss");
    KeysApart(cfg, p);
    var m, c, c' := SecondCount(key, other, Uncached(r), cfg.ttl);
    var w1 := FirstPart(cfg, p, doc, s, m);
    assert w1.redis == c;
    var w2, evs := Extracts(cfg, w1, q, doc, s', c', 2);
    assert evs == RefreshWithoutDelete(1, q, doc, s');
    var r' := Stamp(Output(cfg, q, doc, s').out.result, h, "miss");
    var v := At(w2, 1, q, Committing(r', true));
    TwoTurns(cfg, w1, v, p, q, doc, s, s', d, h);
    var hist := Extraction(0, p, doc, s) + RefreshWithoutDelete(1, q, doc, s');
    assert Served(v.redis, v.now, CacheKey(d, h), Uncached(r)) && ToResponse(Uncached(r)) != ToResponse(r');
    assert Spoils(cfg, v, Act(1, Fail), d, h);
    var more;
    more, w := LossGoesStale(cfg, hist, v, 1, Fail, d, h);
    assert q.(refreshParam := "") == p.(refreshParam := "");
    assert hist + [Act(1, Fail)] + more == TheRun(p, x, doc, s, s');
  }

  // ---- a concrete one ----

  const ZEROS: Digest := seq(64, i => '0')
  const SERVICE := Extractor.Service({"invoice_nf"}, "model", (d: string, s: string) => Some(String(s)),
                                     (d: string, j: Json) => j)
  const CFG := Config((c: Content) => ZEROS, SERVICE, 2, 1, "", true, true, true, (c: char) => c, (c: char) => c)
  const USER := Principal("ana", "web", "ana@example.org", JWT)
  const PLAIN := Request("invoice_nf", "", [], "nf.pdf", "lgpd-extract-v1", USER, Headers("", "", "", ""))
  const PAPER := Document("application/pdf", "nf.pdf", "text", 1, 0)

  function Says(text: string): ChatScript { Script([Answered(text), Fault, Fault], [false, false]) }

  lemma Asks(x: string)
    requires x == "" || x == "1"
    ensures var req := PLAIN.(refreshParam := x);
            && DocTypeOf(req) == "invoice_nf" && Admissible(CFG, req, true) && (Refreshes(CFG, req) <==> x == "1")
            && QuotaId(CFG.secret, req.principal, req.headers) == "ana"
  {
    hide TrimSpace, Lower, IsSpace, ConsentAccepted;
    Words();
    Folded(x);
    Consents();
  }

  lemma Words()
    ensures TrimSpace("invoice_nf") == "invoice_nf" && TrimSpace("lgpd-extract-v1") == "lgpd-extract-v1"
    ensures TrimSpace("1") == "1" && TrimSpace("") == ""
  {
    hide TrimSpace;
    TrimSpaceOfTrimmed("invoice_nf");
    TrimSpaceOfTrimmed("lgpd-extract-v1");
    TrimSpaceOfTrimmed("1");
    TrimSpaceOfTrimmed("");
  }

  lemma Folded(x: string)
    ensures Lower(CFG.lower, x) == x
  {
  }

  lemma Consents()
    ensures ConsentAccepted(CFG.fold, CFG.lower, PLAIN.consent, PLAIN.headers, "invoice_nf")
  {
    hide TrimSpace, Lower;
    Words();
  }

  lemma Gives(digit: char)
    requires IsDigit(digit)
    ensures var text := ['{', digit, '}'];
            var o := Extractor.Extract(SERVICE, "invoice_nf", PAPER, Says(text), Says(text));
            o.out.Done? && o.out.result.data == String(text)
  {
    hide Unwrap.Slice;
    var text := ['{', digit, '}'];
    assert Unwrap.Slice(text) == text by {
      BareReply(text);
    }
  }

  /** A bare body is its own reply. */
  lemma BareReply(body: string)
    requires |body| == 3 && body[0] == '{' && IsDigit(body[1]) && body[2] == '}'
    ensures Unwrap.Slice(body) == body
  {
    hide Unwrap.Slice, Contains;
    NoTag(body);
    assert [] + [] + body + [] == body;
    Unwrap.SliceUnwraps([], [], Unwrap.Bare, body, []);
  }

  lemma NoTag(body: string)
    requires |body| == 3
    ensures !Contains(body, Unwrap.OPEN)
  {
  }

  /** With this configuration and these requests the run answers stale. */
  lemma AnswersStale()
    ensures var run := TheRun(PLAIN, "1", PAPER, Says("{1}"), Says("{2}"));
            exists w :: Reaches(CFG, run, w) && EndsStale(CFG, w.log, "invoice_nf", ZEROS)
  {
    hide Extractor.Extract, Admissible, Refreshes, QuotaId, Reaches, EndsStale, DocTypeOf, TheRun, OrderlyBut;
    Asks("");
    Asks("1");
    Gives('1');
    Gives('2');
    var w := RefreshInVain(CFG, PLAIN, "1", PAPER, Says("{1}"), Says("{2}"));
    assert Reaches(CFG, TheRun(PLAIN, "1", PAPER, Says("{1}"), Says("{2}")), w);
  }
}
