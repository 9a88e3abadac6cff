/** The sliding-window rate limiter with its bounded table. Times are nanoseconds. */
module RateLimit {
  import opened Lifetime

  const MAX_RATE_ENTRIES: nat := 10000

  type Hits = map<string, seq<int>>

  datatype Settings = Settings(enabled: bool, queries: int, window: int)
  {
    predicate Applies(ip: string) {
      enabled && queries > 0 && window > 0 && ip != ""
    }

    /** -time.Duration(window) * time.Second, in int64 arithmetic */
    function Offset(): int {
      Wrap64(-Wrap64(window * SECOND))
    }

    function Cutoff(now: int): int {
      now + Offset()
    }
  }

  /** The cutoff is the start of the configured window exactly up to 9223372036 seconds. */
  lemma CutoffIsWindowStart(s: Settings, now: int)
    requires s.window > 0
    ensures s.Cutoff(now) == now - s.window * SECOND <==> s.window <= 9223372036
  {
    var w := s.window * SECOND;
    WrapFits(w);
    WrapFits(-Wrap64(w));
    hide Wrap64;
    if s.window > 9223372036 {
      assert w >= 9223372037 * SECOND;
    }
  }

  lemma WrapFits(n: int)
    ensures 0 - INT64_LIMIT <= Wrap64(n) < INT64_LIMIT
    ensures 0 - INT64_LIMIT <= n < INT64_LIMIT ==> Wrap64(n) == n
  {
  }

  // ---- one client's hits ----

  function Pruned(hits: seq<int>, cutoff: int): seq<int> {
    if hits == [] then []
    else
      var init, last := hits[..|hits| - 1], hits[|hits| - 1];
      Pruned(init, cutoff) + if last > cutoff then [last] else []
  }

  function HitsOf(m: Hits, ip: string): seq<int> {
    if ip in m then m[ip] else []
  }

  predicate Stale(hits: seq<int>, cutoff: int) {
    hits == [] || hits[|hits| - 1] < cutoff
  }

  /** What capTimeHitMap may leave: a full table loses stale entries only, or all of them and one more,
      the entry given up by force. */
  ghost predicate Capped(m: Hits, m': Hits, cutoff: int, max: nat, forced: set<string>) {
    && (forall k :: k in m' ==> k in m && m'[k] == m[k])
    && (forall k :: k in m && k !in m' && k !in forced ==> Stale(m[k], cutoff))
    && (forall k :: k in forced ==> k in m && k !in m' && !Stale(m[k], cutoff))
    && (|m| < max ==> m' == m)
    && (|m| <= max ==> |m'| < max)
    && (forced != {} ==> |forced| == 1 && |m'| + 1 >= max && forall k :: k in m' ==> !Stale(m[k], cutoff))
  }

  /** An entry given up has no call, or its last one lies before the cutoff, but for one given up by force; and
      that happens only where every other entry has a later call, and no more go than needed. */
  lemma StaleEntriesGoFirst(m: Hits, m': Hits, cutoff: int, max: nat, forced: set<string>, k: string)
    requires Capped(m, m', cutoff, max, forced)
    ensures k in m && k !in m' && k !in forced ==> m[k] == [] || m[k][|m[k]| - 1] < cutoff
    ensures k in m' && forced != {} ==> m'[k] != [] && m'[k][|m'[k]| - 1] >= cutoff && |m'| + 1 >= max
  {
  }

  /** Only a client not in the table needs room. */
  ghost predicate MakesRoom(m: Hits, room: Hits, ip: string, cutoff: int, forced: set<string>) {
    if ip in m then room == m && forced == {} else Capped(m, room, cutoff, MAX_RATE_ENTRIES, forced)
  }

  /** One call that the settings apply to, with the table that room was made in. */
  ghost predicate LimitsVia(s: Settings, m: Hits, m': Hits, ip: string, now: int, room: Hits, forced: set<string>,
                            answer: bool)
  {
    && MakesRoom(m, room, ip, s.Cutoff(now), forced)
    && m' == room[ip := Pruned(HitsOf(room, ip), s.Cutoff(now)) + [now]]
    && answer == (|m'[ip]| > s.queries)
  }

  class RateLimiter {
    const settings: Settings
    var rateHits: Hits

    constructor (settings: Settings)
      ensures this.settings == settings && rateHits == map[]
    {
      this.settings, rateHits := settings, map[];
    }

    /** capTimeHitMap: stale entries first, in any order, then any entry at all */
    method CapTimeHitMap(cutoff: int, max: nat) returns (ghost forced: set<string>)
      requires max > 0
      modifies this
      ensures Capped(old(rateHits), rateHits, cutoff, max, forced)
    {
      hide Stale;
      forced := {};
      if |rateHits| < max {
        return;
      }
      ghost var before := rateHits;
      var rest := rateHits.Keys;
      while rest != {}
        invariant rest <= rateHits.Keys
        invariant max <= |rateHits| <= |before|
        invariant forall k :: k in rateHits ==> k in before && rateHits[k] == before[k]
        invariant forall k :: k in before && k !in rateHits ==> Stale(before[k], cutoff)
        invariant forall k :: k in rateHits && k !in rest ==> !Stale(before[k], cutoff)
      {
        var key :| key in rest;
        rest := rest - {key};
        if Stale(rateHits[key], cutoff) {
          Drop(key);
          if |rateHits| < max {
            return;
          }
        }
      }
      assert |rateHits.Keys| > 0;
      var key :| key in rateHits;
      Drop(key);
      forced := {key};
    }

    method Drop(key: string)
      requires key in rateHits
      modifies this
      ensures rateHits == old(rateHits) - {key} && |rateHits| == |old(rateHits)| - 1
    {
      rateHits := rateHits - {key};
      assert rateHits.Keys == old(rateHits).Keys - {key};
    }

    /** rateLimited */
    method RateLimited(ip: string, now: int) returns (limited: bool, ghost room: Hits, ghost forced: set<string>)
      modifies this
      ensures settings.Applies(ip) <==> settings.enabled && settings.queries > 0 && settings.window > 0 && ip != ""
      ensures ip in old(rateHits) || |old(rateHits)| < 10000 ==> room == old(rateHits) && forced == {}
      ensures !settings.Applies(ip) ==> !limited && rateHits == old(rateHits)
      ensures settings.Applies(ip) ==>
        LimitsVia(settings, old(rateHits), rateHits, ip, now, room, forced, limited)
    {
      room, forced := rateHits, {};
      if !settings.enabled || settings.queries <= 0 || settings.window <= 0 || ip == "" {
        return false, room, {};
      }
      var cutoff := settings.Cutoff(now);
      if ip !in rateHits {
        forced := CapTimeHitMap(cutoff, MAX_RATE_ENTRIES);
      }
      room := rateHits;
      var slice := HitsOf(rateHits, ip);
      var kept := new int[|slice|](k requires 0 <= k < |slice| => slice[k]);
      assert kept[..] == slice;
      var n := PruneInPlace(kept, cutoff);
      var hits := kept[..n] + [now];
      rateHits := rateHits[ip := hits];
      limited := |hits| > settings.queries;
      assert rateHits == room[ip := Pruned(HitsOf(room, ip), cutoff) + [now]];
    }
  }

  /** The pruning loop: survivors move to the front of the slice they came from. */
  method PruneInPlace(hits: array<int>, cutoff: int) returns (n: nat)
    modifies hits
    ensures n <= hits.Length && hits[..n] == Pruned(old(hits[..]), cutoff)
  {
    n := 0;
    ghost var slice := hits[..];
    for i := 0 to hits.Length
      invariant n <= i
      invariant hits[..n] == Pruned(slice[..i], cutoff)
      invariant forall k :: i <= k < hits.Length ==> hits[k] == slice[k]
    {
      var hit := hits[i];
      assert slice[..i + 1][..i] == slice[..i];
      if hit > cutoff {
        hits[n] := hit;
        n := n + 1;
      }
    }
    assert slice[..hits.Length] == slice;
  }

  // ---- runs ----

  datatype Call = Call(ip: string, time: int)

  /** calls is the whole history; of a client's calls those before position lost[ip] were given up. */
  datatype State = State(hits: Hits, calls: seq<Call>, lost: map<string, nat>, clock: int)

  function LostAt(s: State, ip: string): nat {
    if ip in s.lost then s.lost[ip] else 0
  }

  /** Times of the calls of ip from position from on. */
  function TimesOf(calls: seq<Call>, ip: string, from: nat): seq<int> {
    if |calls| <= from then []
    else
      var init, last := calls[..|calls| - 1], calls[|calls| - 1];
      TimesOf(init, ip, from) + if last.ip == ip then [last.time] else []
  }

  ghost predicate StepVia(cfg: Settings, s: State, t: State, ip: string, answer: bool, room: Hits,
                          forced: set<string>)
  {
    && s.clock <= t.clock && cfg.Applies(ip)
    && t.calls == s.calls + [Call(ip, t.clock)]
    && LimitsVia(cfg, s.hits, t.hits, ip, t.clock, room, forced, answer)
    && t.lost == s.lost + map key | key in forced :: |s.calls|
  }

  ghost predicate Step(cfg: Settings, s: State, t: State, ip: string, answer: bool) {
    exists room, forced :: StepVia(cfg, s, t, ip, answer, room, forced)
  }

  ghost predicate Ascending(times: seq<int>, clock: int) {
    && (forall i, j :: 0 <= i < j < |times| ==> times[i] <= times[j])
    && (forall i :: 0 <= i < |times| ==> times[i] <= clock)
  }

  /** For every cutoff still to come, the table holds the in-window calls not given up. */
  ghost predicate Faithful(cfg: Settings, s: State, ip: string) {
    && Ascending(HitsOf(s.hits, ip), s.clock)
    && LostAt(s, ip) <= |s.calls|
    && forall c :: c >= cfg.Cutoff(s.clock) ==>
         Pruned(HitsOf(s.hits, ip), c) == Pruned(TimesOf(s.calls, ip, LostAt(s, ip)), c)
  }

  ghost predicate Inv(cfg: Settings, s: State) {
    |s.hits| <= MAX_RATE_ENTRIES && forall ip :: Faithful(cfg, s, ip)
  }

  lemma {:induction false} PrunedTwice(hits: seq<int>, c: int, d: int)
    requires c <= d
    ensures Pruned(Pruned(hits, c), d) == Pruned(hits, d)
  {
    if hits != [] {
      var init, last := hits[..|hits| - 1], hits[|hits| - 1];
      PrunedTwice(init, c, d);
      PrunedAppend(init, last, c);
      PrunedAppend(init, last, d);
      assert hits == init + [last];
      if last > c {
        PrunedAppend(Pruned(init, c), last, d);
      } else {
        assert Pruned(hits, c) == Pruned(init, c);
      }
    }
  }

  lemma PrunedAppend(hits: seq<int>, t: int, c: int)
    ensures Pruned(hits + [t], c) == Pruned(hits, c) + if t > c then [t] else []
  {
    assert (hits + [t])[..|hits|] == hits;
  }

  lemma AscendingAppend(hits: seq<int>, t: int, clock: int)
    requires Ascending(hits, t) && t <= clock
    ensures Ascending(hits + [t], clock)
  {
  }

  lemma {:induction false} PrunedKeepsOrder(hits: seq<int>, c: int, clock: int)
    requires Ascending(hits, clock)
    ensures Ascending(Pruned(hits, c), clock)
  {
    if hits != [] {
      var init, last := hits[..|hits| - 1], hits[|hits| - 1];
      assert Ascending(init, last);
      PrunedKeepsOrder(init, c, last);
      AscendingAppend(Pruned(init, c), last, clock);
    }
  }

  lemma {:induction false} AllOldArePruned(hits: seq<int>, c: int)
    requires forall i :: 0 <= i < |hits| ==> hits[i] <= c
    ensures Pruned(hits, c) == []
  {
    if hits != [] {
      AllOldArePruned(hits[..|hits| - 1], c);
    }
  }

  /** Giving up a stale entry loses no call that can still count. */
  lemma StaleLosesNothing(hits: seq<int>, cutoff: int, clock: int, c: int)
    requires Ascending(hits, clock) && Stale(hits, cutoff) && c >= cutoff
    ensures Pruned(hits, c) == []
  {
    AllOldArePruned(hits, c);
  }

  lemma {:induction false} TimesFromEnd(calls: seq<Call>, ip: string)
    ensures TimesOf(calls, ip, |calls|) == []
  {
  }

  /** What is left of the table for a client, by what happened to it. */
  lemma RoomMeans(cfg: Settings, s: State, room: Hits, now: int, ip: string, other: string, forced: set<string>)
    requires Faithful(cfg, s, other) && s.clock <= now
    requires MakesRoom(s.hits, room, ip, cfg.Cutoff(now), forced)
    ensures other in forced ==> HitsOf(room, other) == []
    ensures other !in forced ==> forall c :: c >= cfg.Cutoff(now) ==>
      Pruned(HitsOf(room, other), c) == Pruned(HitsOf(s.hits, other), c)
    ensures Ascending(HitsOf(room, other), s.clock)
    ensures ip !in forced
  {
    hide Stale, Pruned;
    var cutoff := cfg.Cutoff(now);
    if other !in forced && other in s.hits && other !in room {
      forall c | c >= cutoff ensures Pruned(s.hits[other], c) == Pruned([], c) {
        StaleLosesNothing(s.hits[other], cutoff, s.clock, c);
        AllOldArePruned([], c);
      }
    }
  }

  lemma TimesAfter(calls: seq<Call>, call: Call, ip: string, from: nat)
    requires from <= |calls|
    ensures TimesOf(calls + [call], ip, from) == TimesOf(calls, ip, from) + if call.ip == ip then [call.time] else []
  {
    assert (calls + [call])[..|calls|] == calls;
  }

  lemma OthersStayFaithful(cfg: Settings, s: State, t: State, ip: string, other: string, answer: bool, room: Hits,
                           forced: set<string>)
    requires Faithful(cfg, s, other) && StepVia(cfg, s, t, ip, answer, room, forced) && other != ip
    ensures Faithful(cfg, t, other)
  {
    hide Pruned, TimesOf, MakesRoom, Ascending;
    RoomMeans(cfg, s, room, t.clock, ip, other, forced);
    assert HitsOf(t.hits, other) == HitsOf(room, other);
    TimesAfter(s.calls, Call(ip, t.clock), other, LostAt(t, other));
    var times := TimesOf(s.calls, other, LostAt(t, other));
    assert times + [] == times;
    assert TimesOf(t.calls, other, LostAt(t, other)) == times;
    AscendingLater(HitsOf(room, other), s.clock, t.clock);
    TimesFromEnd(s.calls, other);
  }

  lemma AscendingLater(hits: seq<int>, c: int, d: int)
    requires Ascending(hits, c) && c <= d
    ensures Ascending(hits, d)
  {
  }

  lemma CallerStaysFaithful(cfg: Settings, s: State, t: State, ip: string, answer: bool, room: Hits,
                            forced: set<string>)
    requires Faithful(cfg, s, ip) && StepVia(cfg, s, t, ip, answer, room, forced)
    ensures Faithful(cfg, t, ip)
  {
    hide Pruned, TimesOf, MakesRoom, Ascending;
    var cutoff := cfg.Cutoff(t.clock);
    RoomMeans(cfg, s, room, t.clock, ip, ip, forced);
    var left := Pruned(HitsOf(room, ip), cutoff);
    var times := TimesOf(s.calls, ip, LostAt(s, ip));
    TimesAfter(s.calls, Call(ip, t.clock), ip, LostAt(s, ip));
    forall c | c >= cutoff ensures Pruned(left + [t.clock], c) == Pruned(times + [t.clock], c) {
      PrunedTwice(HitsOf(room, ip), cutoff, c);
      PrunedAppend(left, t.clock, c);
      PrunedAppend(times, t.clock, c);
    }
    PrunedKeepsOrder(HitsOf(room, ip), cutoff, s.clock);
    AscendingLater(left, s.clock, t.clock);
    AscendingAppend(left, t.clock, t.clock);
  }

  lemma StepKeepsInv(cfg: Settings, s: State, t: State, ip: string, answer: bool)
    requires Inv(cfg, s) && Step(cfg, s, t, ip, answer)
    ensures Inv(cfg, t)
  {
    hide StepVia, Faithful;
    var room, forced :| StepVia(cfg, s, t, ip, answer, room, forced);
    forall other ensures Faithful(cfg, t, other) {
      if other == ip {
        CallerStaysFaithful(cfg, s, t, ip, answer, room, forced);
      } else {
        OthersStayFaithful(cfg, s, t, ip, other, answer, room, forced);
      }
    }
    RoomIsThere(cfg, s, t, ip, answer, room, forced);
  }

  lemma RoomIsThere(cfg: Settings, s: State, t: State, ip: string, answer: bool, room: Hits, forced: set<string>)
    requires |s.hits| <= MAX_RATE_ENTRIES && StepVia(cfg, s, t, ip, answer, room, forced)
    ensures |t.hits| <= MAX_RATE_ENTRIES
  {
    hide Stale, Pruned;
    assert t.hits.Keys == room.Keys + {ip};
    assert |t.hits.Keys| == |t.hits| && |room.Keys| == |room|;
    if ip in s.hits {
      assert t.hits.Keys == s.hits.Keys;
    }
  }

  /** The answer counts the caller's in-window calls that were not given up, and this one. */
  lemma AnswerCounts(cfg: Settings, s: State, t: State, ip: string, answer: bool)
    requires Inv(cfg, s) && Step(cfg, s, t, ip, answer)
    ensures answer <==> |Pruned(TimesOf(s.calls, ip, LostAt(s, ip)), cfg.Cutoff(t.clock))| + 1 > cfg.queries
    ensures cfg.Applies(ip)
    ensures t.calls == s.calls + [Call(ip, t.clock)] && LostAt(s, ip) <= |s.calls|
  {
    hide Pruned, TimesOf, MakesRoom;
    var room, forced :| StepVia(cfg, s, t, ip, answer, room, forced);
    assert Faithful(cfg, s, ip);
    RoomMeans(cfg, s, room, t.clock, ip, ip, forced);
  }

  // ---- the promise ----

  /** Calls of ip later than lo. */
  function CallsAfter(calls: seq<Call>, ip: string, lo: int): nat {
    if calls == [] then 0
    else
      var last := calls[|calls| - 1];
      CallsAfter(calls[..|calls| - 1], ip, lo) + if last.ip == ip && last.time > lo then 1 else 0
  }

  lemma {:induction false} CountedInParts(calls: seq<Call>, ip: string, from: nat, lo: int)
    requires from <= |calls|
    ensures CallsAfter(calls, ip, lo) == CallsAfter(calls[..from], ip, lo) + |Pruned(TimesOf(calls, ip, from), lo)|
  {
    if from == |calls| {
      assert calls[..from] == calls;
      TimesFromEnd(calls, ip);
    } else {
      var init, last := calls[..|calls| - 1], calls[|calls| - 1];
      CountedInParts(init, ip, from, lo);
      assert init[..from] == calls[..from];
      if last.ip == ip {
        PrunedAppend(TimesOf(init, ip, from), last.time, lo);
      } else {
        assert TimesOf(calls, ip, from) == TimesOf(init, ip, from);
      }
    }
  }

  ghost predicate IsRun(cfg: Settings, run: seq<State>, ips: seq<string>, answers: seq<bool>) {
    && |run| == |ips| + 1 == |answers| + 1
    && run[0].hits == map[] && run[0].calls == [] && run[0].lost == map[]
    && forall i :: 0 <= i < |ips| ==> Step(cfg, run[i], run[i + 1], ips[i], answers[i])
  }

  lemma {:induction false} RunsKeepInv(cfg: Settings, run: seq<State>, ips: seq<string>, answers: seq<bool>, n: nat)
    requires IsRun(cfg, run, ips, answers) && n < |run|
    ensures Inv(cfg, run[n])
  {
    hide Step;
    if n == 0 {
      assert forall ip, c :: Pruned(TimesOf([], ip, 0), c) == [];
    } else {
      hide Faithful;
      RunsKeepInv(cfg, run, ips, answers, n - 1);
      StepKeepsInv(cfg, run[n - 1], run[n], ips[n - 1], answers[n - 1]);
    }
  }

  /** The part of the history whose calls the table no longer holds for a client. */
  function GivenUp(s: State, ip: string): seq<Call> {
    if LostAt(s, ip) <= |s.calls| then s.calls[..LostAt(s, ip)] else s.calls
  }

  /** Over every run with fixed settings and a clock that never goes back: the table stays bounded, and
      a call is limited exactly when the client's calls after the cutoff, this one counted and those given up
      by force left out, exceed the allowance. Up to 9223372036 seconds these are the calls of the window
      (now - W, now]. */
  lemma RateLimitIsWindowCount(cfg: Settings, run: seq<State>, ips: seq<string>, answers: seq<bool>, n: nat)
    requires IsRun(cfg, run, ips, answers) && n < |ips|
    ensures |run[n].hits| <= 10000
    ensures var ip, from := ips[n], cfg.Cutoff(run[n + 1].clock);
      answers[n] <==> CallsAfter(run[n].calls, ip, from) - CallsAfter(GivenUp(run[n], ip), ip, from) + 1 > cfg.queries
    ensures cfg.window <= 9223372036 ==>
      var ip, from := ips[n], run[n + 1].clock - cfg.window * SECOND;
      answers[n] <==>
        CallsAfter(run[n + 1].calls, ip, from) - CallsAfter(GivenUp(run[n], ip), ip, from) > cfg.queries
  {
    hide Pruned, TimesOf, CallsAfter, Step, Faithful;
    var s, t, ip := run[n], run[n + 1], ips[n];
    RunsKeepInv(cfg, run, ips, answers, n);
    assert Step(cfg, s, t, ip, answers[n]);
    AnswerCounts(cfg, s, t, ip, answers[n]);
    CountedInParts(s.calls, ip, LostAt(s, ip), cfg.Cutoff(t.clock));
    if cfg.window <= 9223372036 {
      CutoffIsWindowStart(cfg, t.clock);
      CountOneMore(s.calls, Call(ip, t.clock), cfg.Cutoff(t.clock));
    }
  }

  /** With a cutoff that does not lie in the past no call of any run is limited. */
  lemma FutureCutoffNeverLimits(cfg: Settings, run: seq<State>, ips: seq<string>, answers: seq<bool>, n: nat)
    requires IsRun(cfg, run, ips, answers) && n < |ips| && cfg.Offset() >= 0
    ensures !answers[n]
  {
    hide Pruned, TimesOf, Step, Faithful;
    var s, t, ip := run[n], run[n + 1], ips[n];
    RunsKeepInv(cfg, run, ips, answers, n);
    assert Step(cfg, s, t, ip, answers[n]);
    NothingAfter(cfg, s, t, ip, answers[n]);
  }

  /** A window of 10^10 seconds, say, wraps to one in the future. */
  lemma HugeOffset(cfg: Settings)
    requires cfg.window == 10_000_000_000
    ensures cfg.Offset() >= 0
  {
  }

  lemma NothingAfter(cfg: Settings, s: State, t: State, ip: string, answer: bool)
    requires Inv(cfg, s) && Step(cfg, s, t, ip, answer) && cfg.Offset() >= 0
    ensures !answer
  {
    hide Settings.Offset, Pruned, TimesOf, MakesRoom;
    var room, forced :| StepVia(cfg, s, t, ip, answer, room, forced);
    assert Faithful(cfg, s, ip);
    RoomMeans(cfg, s, room, t.clock, ip, ip, forced);
    AllOldArePruned(HitsOf(room, ip), cfg.Cutoff(t.clock));
  }

  lemma CountOneMore(calls: seq<Call>, call: Call, lo: int)
    requires call.time > lo
    ensures CallsAfter(calls + [call], call.ip, lo) == CallsAfter(calls, call.ip, lo) + 1
  {
    assert (calls + [call])[..|calls|] == calls;
  }

  // ---- for which windows the count is right ----

  /** Settings under which a client with an address is limited at all. */
  predicate Effective(cfg: Settings) {
    cfg.enabled && cfg.queries > 0 && cfg.window > 0
  }

  function Zeros(k: nat): seq<Call> {
    if k == 0 then [] else Zeros(k - 1) + [Call("a", 0)]
  }

  lemma {:induction false} CountZeros(k: nat, lo: int)
    ensures CallsAfter(Zeros(k), "a", lo) == if lo < 0 then k else 0
  {
    if k > 0 {
      CountZeros(k - 1, lo);
      assert Zeros(k)[..|Zeros(k)| - 1] == Zeros(k - 1);
    }
  }

  /** The run goes on with a call of client a, alone in the table. */
  lemma CallOfA(cfg: Settings, run: seq<State>, ips: seq<string>, answers: seq<bool>, time: int)
    returns (run': seq<State>, answer: bool)
    requires IsRun(cfg, run, ips, answers) && Effective(cfg)
    requires var s := run[|ips|]; s.clock <= time && s.hits.Keys <= {"a"} && s.lost == map[]
    ensures IsRun(cfg, run', ips + ["a"], answers + [answer]) && |run'| == |run| + 1 && run'[..|run|] == run
    ensures var s, t := run[|ips|], run'[|ips| + 1];
      t.clock == time && t.calls == s.calls + [Call("a", time)] && t.hits.Keys <= {"a"} && t.lost == map[]
  {
    var s := run[|ips|];
    hide IsRun, Pruned, Settings.Cutoff;
    var hits := s.hits["a" := Pruned(HitsOf(s.hits, "a"), cfg.Cutoff(time)) + [time]];
    answer := |hits["a"]| > cfg.queries;
    var t := State(hits, s.calls + [Call("a", time)], map[], time);
    var none: set<string> := {};
    assert s.lost + (map key | key in none :: |s.calls|) == s.lost;
    assert StepVia(cfg, s, t, "a", answer, s.hits, none);
    assert Step(cfg, s, t, "a", answer);
    run' := run + [t];
    StepJoins(cfg, run, ips, answers, t, "a", answer);
  }

  lemma StepJoins(cfg: Settings, run: seq<State>, ips: seq<string>, answers: seq<bool>, t: State, ip: string,
                  answer: bool)
    requires IsRun(cfg, run, ips, answers) && Step(cfg, run[|ips|], t, ip, answer)
    ensures IsRun(cfg, run + [t], ips + [ip], answers + [answer])
  {
    hide Step;
    var run', ips', answers' := run + [t], ips + [ip], answers + [answer];
    forall i | 0 <= i < |ips'| ensures Step(cfg, run'[i], run'[i + 1], ips'[i], answers'[i]) {
      if i < |ips| {
        assert Step(cfg, run[i], run[i + 1], ips[i], answers[i]);
      }
    }
  }

  lemma {:induction false} CallsAtZero(cfg: Settings, k: nat)
    returns (run: seq<State>, ips: seq<string>, answers: seq<bool>)
    requires Effective(cfg)
    ensures IsRun(cfg, run, ips, answers) && |ips| == k
    ensures var s := run[k]; s.calls == Zeros(k) && s.clock == 0 && s.hits.Keys <= {"a"} && s.lost == map[]
  {
    if k == 0 {
      run, ips, answers := [State(map[], [], map[], 0)], [], [];
    } else {
      run, ips, answers := CallsAtZero(cfg, k - 1);
      hide IsRun;
      var longer, answer := CallOfA(cfg, run, ips, answers, 0);
      run, ips, answers := longer, ips + ["a"], answers + [answer];
    }
  }

  /** As many calls at time 0 as are allowed, and one more. */
  lemma OneTooMany(cfg: Settings, time: int) returns (run: seq<State>, ips: seq<string>, answers: seq<bool>)
    requires Effective(cfg) && time >= 0
    ensures IsRun(cfg, run, ips, answers) && |ips| == cfg.queries + 1 && ips[cfg.queries] == "a"
    ensures var s, t := run[cfg.queries], run[cfg.queries + 1];
      s.calls == Zeros(cfg.queries) && s.lost == map[] && t.clock == time
      && t.calls == s.calls + [Call("a", time)]
    ensures answers[cfg.queries] <==> cfg.Cutoff(time) < 0
  {
    run, ips, answers := CallsAtZero(cfg, cfg.queries);
    assert |run| == cfg.queries + 1;
    var longer, answer := CallOfA(cfg, run, ips, answers, time);
    assert longer[..|run|][cfg.queries] == run[cfg.queries];
    run, ips, answers := longer, ips + ["a"], answers + [answer];
    hide IsRun, CallsAfter, Settings.Cutoff;
    RateLimitIsWindowCount(cfg, run, ips, answers, cfg.queries);
    CountZeros(cfg.queries, cfg.Cutoff(time));
    assert GivenUp(run[cfg.queries], "a") == Zeros(0);
    CountZeros(0, cfg.Cutoff(time));
  }

  /** In every run each call is limited exactly when the client's calls in the window (now - W, now], this one
      counted and those given up by force left out, exceed the allowance. */
  ghost predicate CountsTheWindow(cfg: Settings) {
    forall run, ips, answers, n: nat :: IsRun(cfg, run, ips, answers) && n < |ips| ==>
      (answers[n] <==> InWindow(cfg, run, ips, n) > cfg.queries)
  }

  function InWindow(cfg: Settings, run: seq<State>, ips: seq<string>, n: nat): int
    requires n < |ips| && n + 1 < |run|
  {
    var ip, from := ips[n], run[n + 1].clock - cfg.window * SECOND;
    CallsAfter(run[n + 1].calls, ip, from) - CallsAfter(GivenUp(run[n], ip), ip, from)
  }

  lemma SmallWindowsCount(cfg: Settings)
    requires cfg.window <= 9223372036
    ensures CountsTheWindow(cfg)
  {
    hide CallsAfter, Settings.Cutoff, Step;
    forall run, ips, answers, n: nat | IsRun(cfg, run, ips, answers) && n < |ips|
      ensures answers[n] <==> InWindow(cfg, run, ips, n) > cfg.queries
    {
      RateLimitIsWindowCount(cfg, run, ips, answers, n);
    }
  }

  lemma OffsetIsSmall(cfg: Settings)
    ensures 0 - INT64_LIMIT <= cfg.Offset() < INT64_LIMIT
  {
    WrapFits(-Wrap64(cfg.window * SECOND));
  }

  /** A time whose cutoff is not before 0, and whose window for larger settings reaches back beyond 0. */
  function LateEnough(cfg: Settings): (time: int)
    ensures time >= 0
  {
    if cfg.Offset() >= 0 then 0 else 0 - cfg.Offset()
  }

  lemma LateEnoughIs(cfg: Settings)
    ensures cfg.Cutoff(LateEnough(cfg)) >= 0
    ensures cfg.window > 9223372036 ==> LateEnough(cfg) - cfg.window * SECOND < 0
  {
    OffsetIsSmall(cfg);
    hide Settings.Offset;
    if cfg.window > 9223372036 {
      assert cfg.window * SECOND >= 9223372037 * SECOND;
    }
  }

  lemma AllInWindow(cfg: Settings, run: seq<State>, ips: seq<string>, k: nat, time: int)
    requires k < |ips| && k + 1 < |run| && ips[k] == "a" && time - cfg.window * SECOND < 0 <= time
    requires run[k].lost == map[] && run[k].calls == Zeros(k)
    requires run[k + 1].clock == time && run[k + 1].calls == Zeros(k) + [Call("a", time)]
    ensures InWindow(cfg, run, ips, k) == k + 1
  {
    var from := time - cfg.window * SECOND;
    hide CallsAfter;
    CountZeros(k, from);
    CountOneMore(Zeros(k), Call("a", time), from);
    assert GivenUp(run[k], "a") == Zeros(0);
    CountZeros(0, from);
  }

  /** For a larger window the calls at time 0 fall before a later cutoff, and yet into the window. */
  lemma LargeWindowsMiscount(cfg: Settings)
    requires Effective(cfg) && cfg.window > 9223372036
    ensures !CountsTheWindow(cfg)
  {
    LateEnoughIs(cfg);
    hide LateEnough, Settings.Cutoff, IsRun, InWindow, CallsAfter;
    var run, ips, answers := OneTooMany(cfg, LateEnough(cfg));
    AnswersForAll(cfg, run, ips, answers);
    AllInWindow(cfg, run, ips, cfg.queries, LateEnough(cfg));
    assert !(answers[cfg.queries] <==> InWindow(cfg, run, ips, cfg.queries) > cfg.queries);
  }

  /** Where the limiter applies it counts the configured window exactly up to 9223372036 seconds; */
  lemma CountsTheWindowIff(cfg: Settings)
    requires Effective(cfg)
    ensures CountsTheWindow(cfg) <==> cfg.window <= 9223372036
  {
    hide CountsTheWindow;
    if cfg.window <= 9223372036 {
      SmallWindowsCount(cfg);
    } else {
      LargeWindowsMiscount(cfg);
    }
  }

  ghost predicate NeverLimits(cfg: Settings) {
    forall run, ips, answers, n: nat :: IsRun(cfg, run, ips, answers) && n < |ips| ==> !answers[n]
  }

  /** and it limits no call of any run exactly when the cutoff does not lie in the past. */
  lemma NeverLimitsIff(cfg: Settings)
    requires Effective(cfg)
    ensures NeverLimits(cfg) <==> cfg.Offset() >= 0
  {
    hide Settings.Offset, IsRun;
    if cfg.Offset() >= 0 {
      forall run, ips, answers, n: nat | IsRun(cfg, run, ips, answers) && n < |ips|
        ensures n < |answers| && !answers[n]
      {
        AnswersForAll(cfg, run, ips, answers);
        FutureCutoffNeverLimits(cfg, run, ips, answers, n);
      }
    } else {
      var run, ips, answers := OneTooMany(cfg, 0);
      AnswersForAll(cfg, run, ips, answers);
      assert answers[cfg.queries];
    }
  }

  lemma AnswersForAll(cfg: Settings, run: seq<State>, ips: seq<string>, answers: seq<bool>)
    requires IsRun(cfg, run, ips, answers)
    ensures |answers| == |ips| && |run| == |ips| + 1
  {
  }

  // ---- the same limiter with clock readings in any order ----

  /** One call under the lock. The clock was read before the lock was taken, so readings need not ascend;
      nor need the settings stay. from: the client's calls before it were given up with its entry. */
  datatype Visit = Visit(ip: string, readAt: int, cutoff: int, queries: int, from: nat)

  datatype Log = Log(hits: Hits, visits: seq<Visit>, lost: map<string, nat>)

  function GivenUpTo(lost: map<string, nat>, ip: string): nat {
    if ip in lost then lost[ip] else 0
  }

  ghost predicate LogStepVia(cfg: Settings, s: Log, t: Log, ip: string, readAt: int, answer: bool, room: Hits,
                             forced: set<string>)
  {
    && cfg.Applies(ip)
    && LimitsVia(cfg, s.hits, t.hits, ip, readAt, room, forced, answer)
    && t.lost == s.lost + (map key | key in s.hits && key !in room :: |s.visits|)
    && t.visits == s.visits + [Visit(ip, readAt, cfg.Cutoff(readAt), cfg.queries, GivenUpTo(s.lost, ip))]
  }

  ghost predicate LogStep(cfg: Settings, s: Log, t: Log, ip: string, readAt: int, answer: bool) {
    exists room, forced :: LogStepVia(cfg, s, t, ip, readAt, answer, room, forced)
  }

  /** What the client's entry holds after these visits. */
  function Survivors(visits: seq<Visit>, ip: string, from: nat): seq<int> {
    if |visits| <= from then []
    else
      var before, last := Survivors(visits[..|visits| - 1], ip, from), visits[|visits| - 1];
      if last.ip == ip then Pruned(before, last.cutoff) + [last.readAt] else before
  }

  ghost predicate LogInv(s: Log) {
    && |s.hits| <= MAX_RATE_ENTRIES
    && forall ip :: GivenUpTo(s.lost, ip) <= |s.visits| &&
         HitsOf(s.hits, ip) == Survivors(s.visits, ip, GivenUpTo(s.lost, ip))
  }

  /** The client's calls that count for a call with this cutoff: later than it, and than the cutoff of every
      call of the client in between. */
  ghost function Standing(visits: seq<Visit>, ip: string, from: nat, cutoff: int): set<nat> {
    set j: nat | from <= j < |visits| && visits[j].ip == ip && visits[j].readAt > cutoff && Stands(visits, j)
  }

  predicate Stands(visits: seq<Visit>, j: nat)
    requires j < |visits|
  {
    forall i :: j < i < |visits| && visits[i].ip == visits[j].ip ==> visits[j].readAt > visits[i].cutoff
  }

  /** Whether call n was one too many. */
  ghost predicate Exceeds(visits: seq<Visit>, n: nat)
    requires n < |visits|
  {
    var v := visits[n];
    |Standing(visits[..n], v.ip, v.from, v.cutoff)| + 1 > v.queries
  }

  function Later(a: int, b: int): int {
    if a < b then b else a
  }

  lemma StandingStep(init: seq<Visit>, last: Visit, ip: string, from: nat, cutoff: int)
    requires from <= |init|
    ensures Standing(init + [last], ip, from, cutoff) ==
      if last.ip != ip then Standing(init, ip, from, cutoff)
      else Standing(init, ip, from, Later(cutoff, last.cutoff)) + if last.readAt > cutoff then {|init|} else {}
  {
    var visits := init + [last];
    forall j: nat | j < |init| && init[j].ip == ip
      ensures Stands(visits, j) <==> Stands(init, j) && (last.ip == ip ==> init[j].readAt > last.cutoff)
    {
      assert forall i :: 0 <= i < |init| ==> visits[i] == init[i];
      assert visits[|init|] == last;
    }
  }

  lemma {:induction false} SurvivorsStand(visits: seq<Visit>, ip: string, from: nat, cutoff: int)
    requires from <= |visits|
    ensures |Pruned(Survivors(visits, ip, from), cutoff)| == |Standing(visits, ip, from, cutoff)|
  {
    if |visits| == from {
      assert Standing(visits, ip, from, cutoff) == {};
    } else {
      var init, last := visits[..|visits| - 1], visits[|visits| - 1];
      assert visits == init + [last];
      StandingStep(init, last, ip, from, cutoff);
      SurvivorsStand(init, ip, from, cutoff);
      var before := Survivors(init, ip, from);
      if last.ip == ip {
        SurvivorsStand(init, ip, from, Later(cutoff, last.cutoff));
        PrunedAppend(Pruned(before, last.cutoff), last.readAt, cutoff);
        PrunedByBoth(before, last.cutoff, cutoff);
        assert |init| !in Standing(init, ip, from, Later(cutoff, last.cutoff));
      }
    }
  }

  lemma {:induction false} PrunedByBoth(hits: seq<int>, c: int, d: int)
    ensures Pruned(Pruned(hits, c), d) == Pruned(hits, Later(d, c))
  {
    if hits != [] {
      var init, last := hits[..|hits| - 1], hits[|hits| - 1];
      PrunedByBoth(init, c, d);
      PrunedAppend(Pruned(init, c), last, d);
      if last <= c {
        assert Pruned(hits, c) == Pruned(init, c);
      }
    }
  }

  lemma SurvivorsStep(visits: seq<Visit>, v: Visit, ip: string, from: nat)
    requires from <= |visits|
    ensures Survivors(visits + [v], ip, from) ==
      if v.ip == ip then Pruned(Survivors(visits, ip, from), v.cutoff) + [v.readAt] else Survivors(visits, ip, from)
  {
    assert (visits + [v])[..|visits|] == visits;
  }

  lemma RoomKeepsCaller(cfg: Settings, s: Log, t: Log, ip: string, readAt: int, answer: bool, room: Hits,
                        forced: set<string>)
    requires LogStepVia(cfg, s, t, ip, readAt, answer, room, forced)
    ensures HitsOf(room, ip) == HitsOf(s.hits, ip) && GivenUpTo(t.lost, ip) == GivenUpTo(s.lost, ip)
    ensures forall key :: key in room ==> key in s.hits && room[key] == s.hits[key]
    ensures |s.hits| <= MAX_RATE_ENTRIES ==> |t.hits| <= MAX_RATE_ENTRIES
  {
    hide Stale, Pruned;
    assert t.hits.Keys == room.Keys + {ip};
    assert |t.hits.Keys| == |t.hits| && |room.Keys| == |room|;
    if ip in s.hits {
      assert t.hits.Keys == s.hits.Keys;
    }
  }

  lemma LogStepKeepsEntry(cfg: Settings, s: Log, t: Log, ip: string, readAt: int, answer: bool, room: Hits,
                          forced: set<string>, other: string)
    requires LogInv(s) && LogStepVia(cfg, s, t, ip, readAt, answer, room, forced)
    ensures GivenUpTo(t.lost, other) <= |t.visits|
    ensures HitsOf(t.hits, other) == Survivors(t.visits, other, GivenUpTo(t.lost, other))
  {
    hide LogStepVia, Pruned, Survivors;
    RoomKeepsCaller(cfg, s, t, ip, readAt, answer, room, forced);
    LogStepMeans(cfg, s, t, ip, readAt, answer, room, forced);
    var v := Visit(ip, readAt, cfg.Cutoff(readAt), cfg.queries, GivenUpTo(s.lost, ip));
    hide Settings.Cutoff;
    EntryAfter(s, t, v, room, other);
  }

  lemma EntryAfter(s: Log, t: Log, v: Visit, room: Hits, other: string)
    requires GivenUpTo(s.lost, other) <= |s.visits|
    requires HitsOf(s.hits, other) == Survivors(s.visits, other, GivenUpTo(s.lost, other))
    requires other in room ==> other in s.hits && room[other] == s.hits[other]
    requires v.ip == other ==> HitsOf(room, other) == HitsOf(s.hits, other)
    requires t.hits == room[v.ip := Pruned(HitsOf(s.hits, v.ip), v.cutoff) + [v.readAt]]
    requires t.lost == s.lost + (map key | key in s.hits && key !in room :: |s.visits|)
    requires t.visits == s.visits + [v] && GivenUpTo(t.lost, v.ip) == GivenUpTo(s.lost, v.ip)
    ensures GivenUpTo(t.lost, other) <= |t.visits|
    ensures HitsOf(t.hits, other) == Survivors(t.visits, other, GivenUpTo(t.lost, other))
  {
    hide Pruned, Survivors;
    SurvivorsStep(s.visits, v, other, GivenUpTo(t.lost, other));
    if other == v.ip {
    } else if other in s.hits && other !in room {
      NoneAfterEnd(s.visits, other);
    } else {
      assert GivenUpTo(t.lost, other) == GivenUpTo(s.lost, other);
    }
  }

  lemma NoneAfterEnd(visits: seq<Visit>, ip: string)
    ensures Survivors(visits, ip, |visits|) == []
  {
  }

  /** Every call, whatever its clock reading and settings: it is limited exactly when the client's calls that
      still stand, with this one, exceed the allowance; so a late reader counts, of the calls in its window,
      those that no call since has found outside its own. */
  lemma LogStepCounts(cfg: Settings, s: Log, t: Log, ip: string, readAt: int, answer: bool)
    requires LogInv(s) && LogStep(cfg, s, t, ip, readAt, answer)
    ensures LogInv(t)
    ensures |t.visits| == |s.visits| + 1 && s.visits == t.visits[..|s.visits|]
    ensures var v := t.visits[|s.visits|];
      v.ip == ip && v.readAt == readAt && v.cutoff == cfg.Cutoff(readAt) && v.queries == cfg.queries
    ensures answer <==> Exceeds(t.visits, |s.visits|)
  {
    hide LogStepVia;
    var room, forced :| LogStepVia(cfg, s, t, ip, readAt, answer, room, forced);
    forall other
      ensures GivenUpTo(t.lost, other) <= |t.visits|
      ensures HitsOf(t.hits, other) == Survivors(t.visits, other, GivenUpTo(t.lost, other))
    {
      LogStepKeepsEntry(cfg, s, t, ip, readAt, answer, room, forced, other);
    }
    RoomKeepsCaller(cfg, s, t, ip, readAt, answer, room, forced);
    LogStepMeans(cfg, s, t, ip, readAt, answer, room, forced);
    SurvivorsStand(s.visits, ip, GivenUpTo(s.lost, ip), cfg.Cutoff(readAt));
  }

  lemma LogStepMeans(cfg: Settings, s: Log, t: Log, ip: string, readAt: int, answer: bool, room: Hits,
                     forced: set<string>)
    requires LogStepVia(cfg, s, t, ip, readAt, answer, room, forced)
    ensures t.visits == s.visits + [Visit(ip, readAt, cfg.Cutoff(readAt), cfg.queries, GivenUpTo(s.lost, ip))]
    ensures answer <==> |Pruned(HitsOf(s.hits, ip), cfg.Cutoff(readAt))| + 1 > cfg.queries
    ensures t.hits == room[ip := Pruned(HitsOf(s.hits, ip), cfg.Cutoff(readAt)) + [readAt]]
    ensures t.lost == s.lost + (map key | key in s.hits && key !in room :: |s.visits|)
  {
    hide Pruned, MakesRoom;
    RoomKeepsCaller(cfg, s, t, ip, readAt, answer, room, forced);
  }

  /** One call of a run: the settings in force, the client, its clock reading and the answer it got. */
  datatype LogCall = LogCall(cfg: Settings, ip: string, readAt: int, answer: bool)

  ghost predicate IsLogRun(run: seq<Log>, calls: seq<LogCall>) {
    && |run| == |calls| + 1 && run[0] == Log(map[], [], map[])
    && forall i :: 0 <= i < |calls| ==>
         LogStep(calls[i].cfg, run[i], run[i + 1], calls[i].ip, calls[i].readAt, calls[i].answer)
  }

  /** Over every run, whatever the order of the clock readings and the changes of settings. */
  lemma {:induction false} AnswersCountStandingCalls(run: seq<Log>, calls: seq<LogCall>, n: nat)
    requires IsLogRun(run, calls) && n < |run|
    ensures LogInv(run[n]) && |run[n].visits| == n
    ensures n > 0 ==> (calls[n - 1].answer <==> Exceeds(run[n].visits, n - 1))
  {
    hide LogStep, LogInv, Exceeds;
    if n > 0 {
      AnswersCountStandingCalls(run, calls, n - 1);
      var call := calls[n - 1];
      assert LogStep(call.cfg, run[n - 1], run[n - 1 + 1], call.ip, call.readAt, call.answer);
      LogStepCounts(call.cfg, run[n - 1], run[n], call.ip, call.readAt, call.answer);
    } else {
      EmptyLog();
    }
  }

  lemma EmptyLog()
    ensures LogInv(Log(map[], [], map[]))
  {
  }
}
