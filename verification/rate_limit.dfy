/** A best-effort fixed-window rate limiter over an in-memory map of buckets,
    one bucket per key, and the client-address extraction used to build keys. */
module RateLimit {
  import opened Wrappers
  import Text

  datatype Entry = Entry(windowStartMs: int, count: int)

  type Buckets = map<string, Entry>

  datatype RateLimitResult = RateLimitResult(allowed: bool, remaining: int, resetInMs: int)

  /** One call's verdict together with the bucket map it leaves behind. */
  datatype Step = Step(result: RateLimitResult, buckets: Buckets)

  /** `rateLimitFixedWindow({ key, limit, windowMs, now })` on the buckets. */
  function RateLimitFixedWindow(buckets: Buckets, key: string, limit: int, windowMs: int, now: int): (s: Step)
    // Unknown key or expired window: a new window opens at `now`.
    ensures key !in buckets || now - buckets[key].windowStartMs >= windowMs ==>
              s == Step(RateLimitResult(true, limit - 1, windowMs), buckets[key := Entry(now, 1)])
    // Window still open and full: refused, nothing stored changes.
    ensures key in buckets && now - buckets[key].windowStartMs < windowMs && buckets[key].count >= limit ==>
              s.buckets == buckets && !s.result.allowed && s.result.remaining == 0
              && s.result.resetInMs == windowMs - (now - buckets[key].windowStartMs)
    // Window open with room: allowed and counted.
    ensures key in buckets && now - buckets[key].windowStartMs < windowMs && buckets[key].count < limit ==>
              && s.result.allowed
              && s.buckets == buckets[key := Entry(buckets[key].windowStartMs, buckets[key].count + 1)]
              && s.result.remaining == (if limit - s.buckets[key].count < 0 then 0 else limit - s.buckets[key].count)
              && s.result.resetInMs == windowMs - (now - buckets[key].windowStartMs)
    // Only the bucket of `key` is ever touched.
    ensures key in s.buckets
    ensures forall k :: k != key ==> (k in s.buckets <==> k in buckets)
    ensures forall k :: k != key && k in buckets ==> s.buckets[k] == buckets[k]
  {
    if key !in buckets || now - buckets[key].windowStartMs >= windowMs then
      Step(RateLimitResult(true, limit - 1, windowMs), buckets[key := Entry(now, 1)])
    else
      var existing := buckets[key];
      var elapsed := now - existing.windowStartMs;
      if existing.count >= limit then
        Step(RateLimitResult(false, 0, windowMs - elapsed), buckets)
      else
        var updated := Entry(existing.windowStartMs, existing.count + 1);
        var remaining := limit - updated.count;
        Step(RateLimitResult(true, if remaining < 0 then 0 else remaining, windowMs - elapsed),
             buckets[key := updated])
  }

  /** With a positive limit, the stored count never exceeds the limit. */
  lemma CountStaysWithinLimit(buckets: Buckets, key: string, limit: int, windowMs: int, now: int)
    requires limit >= 1
    requires key in buckets ==> buckets[key].count <= limit
    ensures RateLimitFixedWindow(buckets, key, limit, windowMs, now).buckets[key].count <= limit
  {
  }

  /** The verdicts of calls for one key at the given instants, in order:
      how many were allowed, and the buckets left at the end. */
  datatype Run = Run(allowed: nat, buckets: Buckets)

  function RunCalls(buckets: Buckets, key: string, limit: int, windowMs: int, times: seq<int>): (r: Run)
    ensures r.allowed <= |times|
    decreases |times|
  {
    if |times| == 0 then Run(0, buckets)
    else
      var s := RateLimitFixedWindow(buckets, key, limit, windowMs, times[0]);
      var rest := RunCalls(s.buckets, key, limit, windowMs, times[1..]);
      Run(rest.allowed + (if s.result.allowed then 1 else 0), rest.buckets)
  }

  function Min(a: int, b: int): int {
    if a < b then a else b
  }

  /** Calls that all fall inside one open window are allowed until the
      bucket is full and refused afterwards. */
  lemma {:induction false} RunInOpenWindow(buckets: Buckets, key: string, limit: int, windowMs: int,
                                           times: seq<int>)
    requires key in buckets && 0 <= buckets[key].count <= limit
    requires forall i :: 0 <= i < |times| ==> times[i] - buckets[key].windowStartMs < windowMs
    ensures var r := RunCalls(buckets, key, limit, windowMs, times);
            && r.allowed == Min(|times|, limit - buckets[key].count)
            && key in r.buckets
            && r.buckets[key] == Entry(buckets[key].windowStartMs, buckets[key].count + r.allowed)
    decreases |times|
  {
    if |times| > 0 {
      var s := RateLimitFixedWindow(buckets, key, limit, windowMs, times[0]);
      assert s.buckets[key].windowStartMs == buckets[key].windowStartMs;
      RunInOpenWindow(s.buckets, key, limit, windowMs, times[1..]);
    }
  }

  /** A fresh key called n times within `windowMs` of its first call gets
      exactly min(n, limit) calls through: never more than `limit`. */
  lemma FreshKeyWindow(buckets: Buckets, key: string, limit: int, windowMs: int, times: seq<int>)
    requires key !in buckets && limit >= 1 && windowMs > 0 && |times| > 0
    requires forall i :: 0 <= i < |times| ==> times[i] - times[0] < windowMs
    ensures RunCalls(buckets, key, limit, windowMs, times).allowed == Min(|times|, limit)
  {
    var s := RateLimitFixedWindow(buckets, key, limit, windowMs, times[0]);
    assert s.buckets[key] == Entry(times[0], 1);
    RunInOpenWindow(s.buckets, key, limit, windowMs, times[1..]);
  }

  /** `getClientIpFromRequest`: the first `x-forwarded-for` entry, else
      `x-real-ip`, else "unknown". */
  function GetClientIp(forwardedFor: Option<string>, realIp: Option<string>): (ip: string)
    ensures ip != ""
    ensures forwardedFor.Some? && forwardedFor.value != "" ==>
              ip == (var first := Text.Trim(Text.Before(forwardedFor.value, ','));
                     if first != "" then first else "unknown")
    ensures !(forwardedFor.Some? && forwardedFor.value != "") && realIp.Some? && realIp.value != "" ==>
              ip == realIp.value
    ensures !(forwardedFor.Some? && forwardedFor.value != "") && !(realIp.Some? && realIp.value != "") ==>
              ip == "unknown"
    ensures forwardedFor.Some? && forwardedFor.value != "" ==> ',' !in ip
  {
    if forwardedFor.Some? && forwardedFor.value != "" then
      var first := Text.Trim(Text.Split(forwardedFor.value, ',')[0]);
      TrimKeepsOut(Text.Split(forwardedFor.value, ',')[0], ',');
      if first != "" then first else "unknown"
    else if realIp.Some? && realIp.value != "" then realIp.value
    else "unknown"
  }

  /** Trimming cannot introduce a character. */
  lemma TrimKeepsOut(s: string, c: char)
    requires c !in s
    ensures c !in Text.Trim(s)
  {
    var r := Text.Trim(s);
    var i :| Text.TrimmedAt(s, r, i);
    assert Text.SliceAt(s, r, i);
    forall k | 0 <= k < |r| ensures r[k] != c {
      assert r[k] == s[i + k];
    }
  }
}
