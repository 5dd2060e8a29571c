/** The fixed-window limiter and the header arithmetic of the middleware. */
module RateLimit {
  import opened Domain
  import opened RedisModel
  import opened Keys

  /** `Remaining` and the wait a refused caller is told, in nanoseconds. */
  datatype Verdict = Verdict(allowed: bool, limit: int, remaining: int, retryAfter: nat)

  /** Time to the end of the window, but at least one second. */
  function RetryAfter(now: nat): nat {
    var left := MINUTE - now % MINUTE;
    if left < SECOND then SECOND else left
  }

  function Judge(limit: nat, n: nat, now: nat): Verdict {
    Verdict(n <= limit, limit, if limit < n then 0 else limit - n, RetryAfter(now))
  }

  /** The `Retry-After` header, in whole seconds. */
  function HeaderSeconds(retryAfter: nat): nat {
    var sec := retryAfter / SECOND;
    if sec < 1 then 1 else sec
  }

  /** The header never says 0, and otherwise drops the fraction. */
  lemma HeaderAtLeastOne(wait: nat)
    ensures HeaderSeconds(wait) >= 1
    ensures wait >= SECOND ==> HeaderSeconds(wait) * SECOND <= wait < HeaderSeconds(wait) * SECOND + SECOND
  {
  }

  function WindowEnd(now: nat): nat { now / MINUTE * MINUTE + MINUTE }

  /** `RetryAfter` is between one second and one minute and leads into the very next window. */
  lemma RetryLandsInNextWindow(now: nat)
    ensures SECOND <= RetryAfter(now) <= MINUTE
    ensures (now + RetryAfter(now)) / MINUTE == now / MINUTE + 1
  {
    assert now == now / MINUTE * MINUTE + now % MINUTE;
  }

  /** The header drops the fraction of a second: it stays short of the window end by less than one
      second, and leads into a later window exactly when the caller was refused on a whole second or in
      the last second of the window. */
  lemma HeaderFallsShort(now: nat)
    ensures var sec := HeaderSeconds(RetryAfter(now));
            && 1 <= sec <= 60
            && WindowEnd(now) < now + sec * SECOND + SECOND
            && ((now + sec * SECOND) / MINUTE > now / MINUTE <==> now % SECOND == 0 || WindowEnd(now) - now < SECOND)
  {
    var q, m := now / MINUTE, now % MINUTE;
    assert now == q * MINUTE + m;
    var left := MINUTE - m;
    WholeSeconds(now);
    var sec := HeaderSeconds(RetryAfter(now));
    if left < SECOND {
      assert RetryAfter(now) == SECOND && sec == 1;
      LaterWindow(q, m + SECOND);
    } else {
      assert left == left / SECOND * SECOND + left % SECOND;
      assert sec == left / SECOND;
      assert m + sec * SECOND == MINUTE - left % SECOND;
      LaterWindow(q, m + sec * SECOND);
    }
  }

  lemma LaterWindow(q: nat, x: nat)
    requires x < 2 * MINUTE
    ensures (q * MINUTE + x) / MINUTE > q <==> x >= MINUTE
  {
    if x < MINUTE {
      assert (q * MINUTE + x) / MINUTE == q;
    } else {
      assert (q * MINUTE + x) / MINUTE == q + 1;
    }
  }

  /** Windows start on whole seconds. */
  lemma WholeSeconds(now: nat)
    ensures now % SECOND == 0 <==> (MINUTE - now % MINUTE) % SECOND == 0
  {
    var q, m := now / MINUTE, now % MINUTE;
    assert now == q * MINUTE + m;
    assert now % SECOND == m % SECOND by {
      assert now == (q * 60) * SECOND + m;
    }
    assert m == m / SECOND * SECOND + m % SECOND;
    assert MINUTE - m == (60 - m / SECOND) * SECOND - m % SECOND;
  }

  /** The shared Redis server. */
  class RedisServer {
    var data: Keyspace
    var now: nat

    constructor ()
      ensures data == map[] && now == 0
    {
      data := map[];
      now := 0;
    }

    method IncrKey(key: string, incr: Outcome) returns (n: Option<nat>)
      modifies this`data
      ensures var r := Incr(old(data), key, now);
              && data == (if incr.Breaks? || r.None? then old(data) else r.value.0)
              && n == (if incr.Works? && r.Some? then Some(r.value.1) else None)
    {
      if incr.Breaks? {
        return None;
      }
      if !Live(data, key, now) {
        data := data[key := Entry(Counter(1), None)];
        return if incr.Works? then Some(1) else None;
      }
      match data[key].value {
        case Counter(k) =>
          data := data[key := data[key].(value := Counter(k + 1))];
          return if incr.Works? then Some(k + 1) else None;
        case _ =>
          return None;
      }
    }

    method ExpireKey(key: string, ttl: nat, fails: bool)
      modifies this`data
      ensures data == if fails then old(data) else Expire(old(data), key, now, ttl)
    {
      if !fails && Live(data, key, now) {
        data := data[key := data[key].(expires := Some(now + ttl))];
      }
    }
  }

  class Limiter {
    const rdb: RedisServer?
    const limit: nat

    constructor (rdb: RedisServer?, limitPerMinute: int)
      ensures this.rdb == rdb
      ensures limit == if limitPerMinute > 0 then limitPerMinute else 60
    {
      this.rdb := rdb;
      this.limit := if limitPerMinute <= 0 then 60 else limitPerMinute;
    }

    /** One INCR, and an EXPIRE after the first. An error of the INCR refuses: no verdict, and nothing counted
        unless the INCR took effect unheard. A failed EXPIRE is ignored. */
    method Allow(kind: string, id: string, incr: Outcome, expireFails: bool) returns (v: Option<Verdict>)
      modifies rdb
      ensures rdb == null ==> v == None
      ensures rdb != null ==> rdb.now == old(rdb.now)
      ensures rdb != null ==>
                var key := LimitKey(kind, id, rdb.now / MINUTE * 60);
                var r := Incr(old(rdb.data), key, rdb.now);
                if incr.Breaks? || r.None? then v == None && rdb.data == old(rdb.data)
                else if incr.Unheard? then v == None && rdb.data == r.value.0
                else
                  var (m, n) := r.value;
                  && v == Some(Judge(limit, n, rdb.now))
                  && rdb.data == if n == 1 && !expireFails then Expire(m, key, rdb.now, 2 * MINUTE) else m
    {
      if rdb == null {
        return None;
      }
      var now := rdb.now;
      var window := now / MINUTE * 60;
      var key := LimitKey(kind, id, window);
      var n := rdb.IncrKey(key, incr);
      if n.None? {
        return None;
      }
      if n.value == 1 {
        rdb.ExpireKey(key, 2 * MINUTE, expireFails);
      }
      var remaining := limit as int - n.value;
      if remaining < 0 {
        remaining := 0;
      }
      var retryAfter: int := MINUTE - now % MINUTE;
      if retryAfter < SECOND {
        retryAfter := SECOND;
      }
      return Some(Verdict(n.value <= limit, limit, remaining, retryAfter));
    }
  }
}
