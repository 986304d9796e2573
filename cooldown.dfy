/**
 * The extra-info cooldown of `query_server`: a process-wide map from
 * `ip:port` to the second (u64, since the Unix epoch) of the last extra-info
 * request, which lets a new request through only when none is on record or
 * at least three seconds have passed. The subtraction `now - last_time` is
 * u64 arithmetic; a release build wraps it around, as written out here.
 */
module Cooldown {
  import opened Bytes
  import opened Text

  const U64_LIMIT: nat := 0x1_0000_0000_0000_0000
  type u64 = x: int | 0 <= x < U64_LIMIT

  const COOLDOWN_SECS: nat := 3

  /** The map key: the address exactly as the caller passed it, a colon, the port in decimal. */
  function Key(ip: string, port: int): (k: string)
    ensures |ip| < |k| && k[..|ip|] == ip && k[|ip|] == ':'
    ensures forall i :: |ip| < i < |k| ==> k[i] != ':'
  {
    ip + ":" + FormatInt(port)
  }

  /**
   * The last colon of a key is the one before the port, so two different
   * endpoints never share a cooldown entry, whatever colons the address holds.
   */
  lemma KeyInjective(ip1: string, port1: int, ip2: string, port2: int)
    requires IsI32(port1) && IsI32(port2)
    requires Key(ip1, port1) == Key(ip2, port2)
    ensures ip1 == ip2 && port1 == port2
  {
    var k := Key(ip1, port1);
    assert |ip1| == |ip2|;
    assert ip1 == k[..|ip1|] == ip2;
    assert FormatInt(port1) == k[|ip1| + 1..] == FormatInt(port2);
    ParseFormatI32(port1);
    ParseFormatI32(port2);
  }

  /** `now - last` as u64 subtraction, wrapping around below zero. */
  function ElapsedSecs(now: u64, last: u64): (d: u64)
    ensures last <= now ==> d == now - last
    ensures now < last ==> d == U64_LIMIT + now - last
  {
    (now - last) % U64_LIMIT
  }

  /** Whether an extra-info request for `key` may go out at `now`. */
  predicate Admits(table: map<string, u64>, key: string, now: u64)
    ensures key !in table ==> Admits(table, key, now)
    ensures key in table && table[key] <= now ==> (Admits(table, key, now) <==> table[key] + COOLDOWN_SECS <= now)
    ensures key in table && now < table[key] ==> (Admits(table, key, now) <==> table[key] - now <= U64_LIMIT - COOLDOWN_SECS)
  {
    key !in table || ElapsedSecs(now, table[key]) >= COOLDOWN_SECS
  }

  /**
   * The gate as a value: whether the request goes out, and the table after.
   * A request let through records `now` for its key; a suppressed one
   * leaves the table as it was.
   */
  function Gate(table: map<string, u64>, key: string, now: u64): (r: (bool, map<string, u64>))
    ensures r.0 == Admits(table, key, now)
    ensures r.0 ==> key in r.1 && r.1[key] == now
    ensures !r.0 ==> r.1 == table
    ensures forall k :: k != key ==> (k in r.1 <==> k in table) && (k in table ==> r.1[k] == table[k])
  {
    if Admits(table, key, now) then (true, table[key := now]) else (false, table)
  }

  class CooldownTable {
    /** `OMP_EXTRA_INFO_LAST_UPDATE_LIST`. */
    var last: map<string, u64>

    constructor ()
      ensures last == map[]
    {
      last := map[];
    }

    /** The locked block of `query_server` that decides `should_request`. */
    method Admit(key: string, now: u64) returns (admit: bool)
      modifies this
      ensures (admit, last) == Gate(old(last), key, now)
    {
      if key in last && ElapsedSecs(now, last[key]) < COOLDOWN_SECS {
        admit := false;
      } else {
        last := last[key := now];
        admit := true;
      }
    }
  }

  /** A key seen for the first time is always let through. */
  lemma FirstRequestAdmitted(table: map<string, u64>, key: string, now: u64)
    requires key !in table
    ensures Gate(table, key, now) == (true, table[key := now])
  {
  }

  /**
   * A second request for the same key less than three seconds after one that
   * was let through is suppressed, and changes nothing.
   */
  lemma RepeatWithinCooldown(table: map<string, u64>, key: string, now: u64, later: u64)
    requires Gate(table, key, now).0
    requires now <= later < now + COOLDOWN_SECS
    ensures var after := Gate(table, key, now).1;
            Gate(after, key, later) == (false, after)
  {
    var after := Gate(table, key, now).1;
    assert ElapsedSecs(later, after[key]) == later - now;
  }

  /** Three seconds or more after the last request let through, the next one goes out. */
  lemma AdmittedAfterCooldown(table: map<string, u64>, key: string, now: u64)
    requires key in table && table[key] + COOLDOWN_SECS <= now
    ensures Gate(table, key, now) == (true, table[key := now])
  {
  }

  /**
   * A clock that went back before the recorded second makes the wrapped
   * difference huge, so the request is let through (unless it went back by
   * almost 2^64 seconds).
   */
  lemma ClockBackAdmitted(table: map<string, u64>, key: string, now: u64)
    requires key in table && now < table[key] <= now + U64_LIMIT - COOLDOWN_SECS
    ensures Gate(table, key, now).0
  {
  }
}
