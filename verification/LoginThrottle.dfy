/** Login throttling: a 15-minute window of failures and a one-minute block. Times are nanoseconds. */
module LoginThrottle {
  import opened Text

  const LOGIN_BLOCK: int := 60 * 1_000_000_000
  const LOGIN_WINDOW: int := 15 * LOGIN_BLOCK
  const LOGIN_MAX_FAILURES: nat := 8
  const MAX_LOGIN_ENTRIES: nat := 10000

  datatype Attempt = Attempt(failures: nat, firstFailed: int, blockedTill: Option<int>)

  type Table = map<string, Attempt>

  function Entry(t: Table, client: string): Option<Attempt> {
    if client in t then Some(t[client]) else None
  }

  predicate Expired(a: Attempt, now: int) {
    now - a.firstFailed >= LOGIN_WINDOW
  }

  /** The answer of loginAllowed. */
  predicate Admits(e: Option<Attempt>, now: int) {
    e.None? || Expired(e.value, now) || e.value.blockedTill.None? || now >= e.value.blockedTill.value
  }

  /** The entry loginAllowed leaves. */
  function Checked(e: Option<Attempt>, now: int): Option<Attempt> {
    if e.Some? && Expired(e.value, now) then None else e
  }

  /** The entry noteLoginFailure leaves. */
  function Noted(e: Option<Attempt>, now: int): Attempt {
    var a := if e.None? || Expired(e.value, now) then Attempt(0, now, None) else e.value;
    var failures := a.failures + 1;
    Attempt(failures, a.firstFailed, if failures >= LOGIN_MAX_FAILURES then Some(now + LOGIN_BLOCK) else a.blockedTill)
  }

  /** Making room touches no entry but to remove it, and removes no more than needed: expired ones, and one by
      force only where no expired one is left. */
  ghost predicate RoomMade(t: Table, t': Table, now: int, forced: set<string>) {
    && (forall k :: k in t' ==> k in t && t'[k] == t[k])
    && (forall k :: k in t && k !in t' && k !in forced ==> Expired(t[k], now))
    && (forall k :: k in forced ==> k in t && k !in t' && !Expired(t[k], now))
    && (forced != {} ==> |forced| == 1 && forall k :: k in t' ==> !Expired(t[k], now))
    && (|t| <= MAX_LOGIN_ENTRIES ==> |t'| < MAX_LOGIN_ENTRIES)
    && |t'| + 1 >= MAX_LOGIN_ENTRIES
  }

  class Throttle {
    var loginAttempts: Table

    constructor ()
      ensures loginAttempts == map[]
    {
      loginAttempts := map[];
    }

    method LoginAllowed(client: string, now: int) returns (allowed: bool)
      modifies this
      ensures allowed == Admits(old(Entry(loginAttempts, client)), now)
      ensures Entry(loginAttempts, client) == Checked(old(Entry(loginAttempts, client)), now)
      ensures forall k :: k != client ==> Entry(loginAttempts, k) == old(Entry(loginAttempts, k))
    {
      if client in loginAttempts && now - loginAttempts[client].firstFailed >= LOGIN_WINDOW {
        loginAttempts := loginAttempts - {client};
        return true;
      }
      if client in loginAttempts && loginAttempts[client].blockedTill.Some?
         && now < loginAttempts[client].blockedTill.value {
        return false;
      }
      allowed := true;
    }

    method Drop(key: string)
      requires key in loginAttempts
      modifies this
      ensures loginAttempts == old(loginAttempts) - {key} && |loginAttempts| == |old(loginAttempts)| - 1
    {
      loginAttempts := loginAttempts - {key};
      assert loginAttempts.Keys == old(loginAttempts).Keys - {key};
    }

    /** The eviction of noteLoginFailure: expired entries in any order, then any entry. */
    method MakeRoom(now: int) returns (ghost forced: set<string>)
      requires |loginAttempts| >= MAX_LOGIN_ENTRIES
      modifies this
      ensures RoomMade(old(loginAttempts), loginAttempts, now, forced)
    {
      hide Expired;
      ghost var before := loginAttempts;
      var rest := loginAttempts.Keys;
      forced := {};
      while rest != {}
        invariant rest <= loginAttempts.Keys
        invariant MAX_LOGIN_ENTRIES <= |loginAttempts| <= |before|
        invariant forall k :: k in loginAttempts ==> k in before && loginAttempts[k] == before[k]
        invariant forall k :: k in before && k !in loginAttempts ==> Expired(before[k], now)
        invariant forall k :: k in loginAttempts && k !in rest ==> !Expired(before[k], now)
      {
        var key :| key in rest;
        rest := rest - {key};
        if Expired(loginAttempts[key], now) {
          Drop(key);
          if |loginAttempts| < MAX_LOGIN_ENTRIES {
            return;
          }
        }
      }
      assert |loginAttempts.Keys| > 0;
      var key :| key in loginAttempts;
      Drop(key);
      forced := {key};
    }

    method NoteLoginFailure(client: string, now: int) returns (ghost forced: set<string>)
      modifies this
      ensures Entry(loginAttempts, client) == Some(Noted(old(Entry(loginAttempts, client)), now))
      ensures forall k :: k != client && k !in forced && Entry(loginAttempts, k) != old(Entry(loginAttempts, k)) ==>
        k !in loginAttempts && Expired(old(loginAttempts)[k], now)
      ensures forced != {} ==>
        && |forced| == 1 && client !in old(loginAttempts) && |old(loginAttempts)| >= 10000
        && forall k :: k in loginAttempts && k != client ==>
             k in old(loginAttempts) && !Expired(old(loginAttempts)[k], now)
      ensures client in old(loginAttempts) || |old(loginAttempts)| < 10000 ==>
        forall k :: k != client ==> Entry(loginAttempts, k) == old(Entry(loginAttempts, k))
      ensures |old(loginAttempts)| <= 10000 ==> |loginAttempts| <= 10000
      ensures |old(loginAttempts)| >= 10000 ==> |loginAttempts| >= 10000
      ensures client !in forced
    {
      hide Noted, Expired;
      forced := {};
      if client !in loginAttempts && |loginAttempts| >= MAX_LOGIN_ENTRIES {
        forced := MakeRoom(now);
      }
      ghost var room := loginAttempts;
      loginAttempts := loginAttempts[client := Noted(Entry(loginAttempts, client), now)];
      assert loginAttempts.Keys == room.Keys + {client};
      assert client in room ==> loginAttempts.Keys == room.Keys;
      assert |loginAttempts.Keys| == |loginAttempts| && |room.Keys| == |room|;
    }

    method ClearLoginFailures(client: string)
      modifies this
      ensures Entry(loginAttempts, client) == None
      ensures forall k :: k != client ==> Entry(loginAttempts, k) == old(Entry(loginAttempts, k))
    {
      loginAttempts := loginAttempts - {client};
    }
  }

  // ---- one client, any number of attempts at once ----

  /** An attempt admitted at a time and not yet judged. seen: how many failures of the present entry had been
      counted then; 0 once another entry has begun. */
  datatype Flying = Flying(at: int, seen: nat)

  /** times: the clock readings of the failures the entry counts, in the order counted. */
  datatype State = State(entry: Option<Attempt>, times: seq<int>, flying: seq<Flying>, clock: int)

  /** Check: an attempt arrives, and is refused or admitted. Judge: attempt i of those in flight turns out right
      or wrong. Evicted: another client's failure removed this client's expired entry. The clock is read before
      the lock is taken: at readAt, then at. */
  datatype Event =
    | Check(readAt: int, at: int)
    | Judge(i: nat, readAt: int, at: int, right: bool)
    | Evicted(readAt: int, at: int)

  function Forgotten(flying: seq<Flying>): (r: seq<Flying>)
    ensures |r| == |flying| && forall i :: 0 <= i < |r| ==> r[i] == Flying(flying[i].at, 0)
  {
    seq(|flying|, i requires 0 <= i < |flying| => Flying(flying[i].at, 0))
  }

  function WithoutAt(flying: seq<Flying>, i: nat): seq<Flying>
    requires i < |flying|
  {
    flying[..i] + flying[i + 1..]
  }

  function Restarted(flying: seq<Flying>, at: int): State {
    State(None, [], Forgotten(flying), at)
  }

  function AfterCheck(s: State, readAt: int, at: int): State {
    var left := if Checked(s.entry, readAt).None? then Restarted(s.flying, at) else s.(clock := at);
    if Admits(s.entry, readAt) then left.(flying := left.flying + [Flying(at, |left.times|)]) else left
  }

  function AfterJudge(s: State, i: nat, readAt: int, at: int, right: bool): State
    requires i < |s.flying|
  {
    var rest := WithoutAt(s.flying, i);
    if right then Restarted(rest, at)
    else if s.entry.None? || Expired(s.entry.value, readAt) then
      State(Some(Noted(s.entry, readAt)), [readAt], Forgotten(rest), at)
    else State(Some(Noted(s.entry, readAt)), s.times + [readAt], rest, at)
  }

  /** An attempt is judged by a clock read after it was admitted. */
  ghost predicate Step(s: State, t: State, e: Event) {
    && s.clock <= e.at && e.readAt <= e.at
    && match e
       case Check(readAt, at) => t == AfterCheck(s, readAt, at)
       case Judge(i, readAt, at, right) =>
         i < |s.flying| && s.flying[i].at <= readAt && t == AfterJudge(s, i, readAt, at, right)
       case Evicted(readAt, at) => s.entry.Some? && Expired(s.entry.value, readAt) && t == Restarted(s.flying, at)
  }

  ghost predicate IsRun(run: seq<State>, events: seq<Event>) {
    && |run| == |events| + 1 && run[0].entry == None && run[0].times == [] && run[0].flying == []
    && forall i :: 0 <= i < |events| ==> Step(run[i], run[i + 1], events[i])
  }

  /** At no point of the run are more than c attempts in flight. */
  ghost predicate InFlight(run: seq<State>, c: nat) {
    forall i :: 0 <= i < |run| ==> |run[i].flying| <= c
  }

  /** No failure is judged by a reading that precedes one already counted. */
  ghost predicate InOrder(run: seq<State>, events: seq<Event>) {
    forall i :: 0 <= i < |events| && i < |run| && events[i].Judge? ==> NotLate(run[i], events[i].readAt)
  }

  predicate NotLate(s: State, readAt: int) {
    forall k :: 0 <= k < |s.times| ==> s.times[k] <= readAt
  }

  /** How many in flight were checked before failure j was counted. */
  function Before(flying: seq<Flying>, j: nat): nat {
    if flying == [] then 0 else Before(flying[..|flying| - 1], j) + if flying[|flying| - 1].seen <= j then 1 else 0
  }

  ghost predicate EntryInv(s: State) {
    && (s.entry.None? <==> s.times == [])
    && (forall i, j :: 0 <= i < j < |s.times| ==> s.times[i] <= s.times[j])
    && (forall i :: 0 <= i < |s.times| ==> s.times[i] <= s.clock && s.times[i] < s.times[0] + LOGIN_WINDOW)
    && (s.entry.Some? ==> s.entry.value == Attempt(|s.times|, s.times[0],
         if |s.times| >= LOGIN_MAX_FAILURES then Some(s.times[|s.times| - 1] + LOGIN_BLOCK) else None))
  }

  /** An attempt checked after a blocking failure was checked after the block; one alone has seen all. */
  ghost predicate FlyingInv(s: State, c: nat) {
    forall i :: 0 <= i < |s.flying| ==>
      && s.flying[i].at <= s.clock && s.flying[i].seen <= |s.times|
      && (forall j :: 0 <= j < s.flying[i].seen ==> s.times[j] <= s.flying[i].at)
      && (forall j :: LOGIN_MAX_FAILURES - 1 <= j < s.flying[i].seen ==> s.times[j] + LOGIN_BLOCK <= s.flying[i].at)
      && (c <= 1 ==> s.flying[i].seen == |s.times|)
  }

  /** Failures within the minute after failure j, and attempts that may still add to them, were all in flight
      when it was counted. */
  ghost predicate MinuteInv(s: State, c: nat, j: nat)
    requires j < |s.times|
  {
    && Before(s.flying, j) < c
    && forall k :: j < k < |s.times| && s.times[k] < s.times[j] + LOGIN_BLOCK ==> k - j + Before(s.flying, j) < c
  }

  ghost predicate Inv(s: State, c: nat) {
    && EntryInv(s) && FlyingInv(s, c)
    && forall j :: LOGIN_MAX_FAILURES - 1 <= j < |s.times| ==> MinuteInv(s, c, j)
  }

  lemma BeforeAppend(flying: seq<Flying>, a: Flying, j: nat)
    ensures Before(flying + [a], j) == Before(flying, j) + if a.seen <= j then 1 else 0
  {
    assert (flying + [a])[..|flying|] == flying;
  }

  lemma {:induction false} BeforeJoin(a: seq<Flying>, b: seq<Flying>, j: nat)
    ensures Before(a + b, j) == Before(a, j) + Before(b, j)
  {
    if b == [] {
      assert a + b == a;
    } else {
      var init, last := b[..|b| - 1], b[|b| - 1];
      BeforeJoin(a, init, j);
      assert a + b == (a + init) + [last] && b == init + [last];
      BeforeAppend(a + init, last, j);
      BeforeAppend(init, last, j);
    }
  }

  lemma {:induction false} BeforeAtMost(flying: seq<Flying>, j: nat)
    ensures Before(flying, j) <= |flying|
  {
    if flying != [] {
      BeforeAtMost(flying[..|flying| - 1], j);
    }
  }

  lemma BeforeWithout(flying: seq<Flying>, i: nat, j: nat)
    requires i < |flying|
    ensures Before(WithoutAt(flying, i), j) == Before(flying, j) - if flying[i].seen <= j then 1 else 0
  {
    BeforeJoin(flying[..i], flying[i + 1..], j);
    BeforeJoin(flying[..i], [flying[i]] + flying[i + 1..], j);
    BeforeJoin([flying[i]], flying[i + 1..], j);
    BeforeAppend([], flying[i], j);
    assert [] + [flying[i]] == [flying[i]];
    assert flying == flying[..i] + ([flying[i]] + flying[i + 1..]);
  }

  lemma CheckKeepsInv(s: State, readAt: int, at: int, c: nat)
    requires Inv(s, c) && s.clock <= at && readAt <= at && |AfterCheck(s, readAt, at).flying| <= c
    ensures Inv(AfterCheck(s, readAt, at), c)
  {
    hide Before;
    if Checked(s.entry, readAt).Some? {
      var t := AfterCheck(s, readAt, at);
      forall j | LOGIN_MAX_FAILURES - 1 <= j < |t.times| ensures MinuteInv(t, c, j) {
        assert MinuteInv(s, c, j);
        BeforeAppend(s.flying, Flying(at, |s.times|), j);
      }
    }
  }

  /** One attempt alone is never late. */
  lemma AloneIsNotLate(s: State, c: nat, i: nat, readAt: int)
    requires Inv(s, c) && c <= 1 && i < |s.flying| && s.flying[i].at <= readAt
    ensures NotLate(s, readAt)
  {
    hide MinuteInv;
  }

  lemma WrongKeepsMinute(s: State, i: nat, readAt: int, at: int, c: nat, j: nat)
    requires Inv(s, c) && s.clock <= at && i < |s.flying| <= c
    requires s.flying[i].at <= readAt <= at && NotLate(s, readAt)
    requires s.entry.Some? && !Expired(s.entry.value, readAt) && LOGIN_MAX_FAILURES - 1 <= j <= |s.times|
    ensures MinuteInv(AfterJudge(s, i, readAt, at, false), c, j)
  {
    hide Before;
    var rest, f := WithoutAt(s.flying, i), |s.times|;
    BeforeAtMost(rest, j);
    if j < f {
      assert MinuteInv(s, c, j);
      BeforeWithout(s.flying, i, j);
      assert s.times[f - 1] <= readAt;
    }
  }

  lemma JudgeKeepsInv(s: State, i: nat, readAt: int, at: int, right: bool, c: nat)
    requires Inv(s, c) && s.clock <= at && i < |s.flying| <= c
    requires s.flying[i].at <= readAt <= at && NotLate(s, readAt)
    ensures Inv(AfterJudge(s, i, readAt, at, right), c)
  {
    hide Before, MinuteInv;
    if !right && s.entry.Some? && !Expired(s.entry.value, readAt) {
      var t := AfterJudge(s, i, readAt, at, right);
      forall j | LOGIN_MAX_FAILURES - 1 <= j < |t.times| ensures MinuteInv(t, c, j) {
        WrongKeepsMinute(s, i, readAt, at, c, j);
      }
    }
  }

  lemma {:induction false} RunsKeepInv(run: seq<State>, events: seq<Event>, c: nat, n: nat)
    requires IsRun(run, events) && InFlight(run, c) && n < |run|
    requires c <= 1 || InOrder(run, events)
    ensures Inv(run[n], c)
  {
    if n > 0 {
      hide Inv, AfterCheck, AfterJudge;
      RunsKeepInv(run, events, c, n - 1);
      var s, e := run[n - 1], events[n - 1];
      assert Step(s, run[n], e);
      StepKeepsInv(s, run[n], e, c);
    }
  }

  lemma StepKeepsInv(s: State, t: State, e: Event, c: nat)
    requires Inv(s, c) && Step(s, t, e) && |s.flying| <= c && |t.flying| <= c
    requires c > 1 && e.Judge? ==> NotLate(s, e.readAt)
    ensures Inv(t, c)
  {
    hide Inv;
    match e
    case Check(readAt, at) => CheckKeepsInv(s, readAt, at, c);
    case Judge(i, readAt, at, right) =>
      if c <= 1 {
        AloneIsNotLate(s, c, i, readAt);
      }
      JudgeKeepsInv(s, i, readAt, at, right, c);
    case Evicted(readAt, at) => RestartKeepsInv(s, at, c);
  }

  lemma RestartKeepsInv(s: State, at: int, c: nat)
    requires Inv(s, c) && s.clock <= at
    ensures Inv(Restarted(s.flying, at), c)
  {
    hide MinuteInv;
  }

  lemma MinuteApart(s: State, c: nat, j: nat)
    requires Inv(s, c) && LOGIN_MAX_FAILURES - 1 <= j && j + c < |s.times|
    ensures s.times[j + c] >= s.times[j] + LOGIN_BLOCK
  {
    assert MinuteInv(s, c, j);
  }

  /** From the eighth failure on, each is at least a minute after the one c places before it. */
  lemma {:induction false} FailuresAreSpaced(s: State, c: nat, i: nat)
    requires Inv(s, c) && LOGIN_MAX_FAILURES - 1 + i * c < |s.times|
    ensures s.times[LOGIN_MAX_FAILURES - 1 + i * c] >= s.times[0] + i * LOGIN_BLOCK
  {
    hide Inv;
    if i == 0 {
      EighthIsNotEarlier(s, c);
    } else {
      assert i * c == (i - 1) * c + c;
      var j := LOGIN_MAX_FAILURES - 1 + (i - 1) * c;
      FailuresAreSpaced(s, c, i - 1);
      MinuteApart(s, c, j);
    }
  }

  lemma EighthIsNotEarlier(s: State, c: nat)
    requires Inv(s, c) && LOGIN_MAX_FAILURES - 1 < |s.times|
    ensures s.times[0] <= s.times[LOGIN_MAX_FAILURES - 1]
  {
    hide FlyingInv, MinuteInv;
  }

  /** With at most c attempts in flight, at most 7 + 15c failures are counted in a window, if for more than one
      the readings of judgements are in the order of the locks (for one they always are); and a client is
      refused only after 8 of them, and never later than a minute after the last. */
  lemma FailuresAreBounded(run: seq<State>, events: seq<Event>, c: nat, n: nat, now: int)
    requires IsRun(run, events) && InFlight(run, c) && n < |run|
    requires c <= 1 || InOrder(run, events)
    ensures run[n].entry.Some? ==> run[n].entry.value.failures <= 7 + 15 * c
    ensures !Admits(run[n].entry, now) ==>
      && run[n].entry.value.failures == |run[n].times| >= LOGIN_MAX_FAILURES
      && now < run[n].times[|run[n].times| - 1] + LOGIN_BLOCK
  {
    RunsKeepInv(run, events, c, n);
    hide MinuteInv, FlyingInv;
    if |run[n].times| > LOGIN_MAX_FAILURES - 1 + 15 * c {
      FailuresAreSpaced(run[n], c, 15);
    }
  }

  /** One attempt after the other: at most 22, as first failure + (failures - 8) minutes <= last failure. */
  lemma AtMost22Failures(run: seq<State>, events: seq<Event>, n: nat)
    requires IsRun(run, events) && InFlight(run, 1) && n < |run|
    ensures run[n].entry.Some? ==>
      && run[n].entry.value.failures == |run[n].times| <= 22 && |run[n].times| > 0
      && run[n].entry.value.firstFailed == run[n].times[0]
      && (|run[n].times| >= LOGIN_MAX_FAILURES ==>
          run[n].times[0] + (|run[n].times| - LOGIN_MAX_FAILURES) * LOGIN_BLOCK <= run[n].times[|run[n].times| - 1])
  {
    RunsKeepInv(run, events, 1, n);
    FailuresAreBounded(run, events, 1, n, run[n].clock);
    hide MinuteInv, FlyingInv;
    if |run[n].times| >= LOGIN_MAX_FAILURES {
      FailuresAreSpaced(run[n], 1, |run[n].times| - LOGIN_MAX_FAILURES);
    }
  }

  // ---- the bound is reached, for every number in flight ----

  /** A run with at most c in flight whose judgements are in order. */
  ghost predicate Orderly(run: seq<State>, events: seq<Event>, c: nat) {
    run != [] && IsRun(run, events) && InFlight(run, c) && InOrder(run, events)
  }

  lemma RunGoesOn(run: seq<State>, events: seq<Event>, e: Event, t: State, c: nat)
    returns (run': seq<State>, events': seq<Event>)
    requires Orderly(run, events, c) && Step(run[|run| - 1], t, e) && |t.flying| <= c
    ensures run' != [] && IsRun(run', events') && InFlight(run', c) && run'[|run'| - 1] == t
    ensures (e.Judge? ==> NotLate(run[|run| - 1], e.readAt)) ==> InOrder(run', events')
  {
    hide Step;
    run', events' := run + [t], events + [e];
    forall i | 0 <= i < |events'| ensures Step(run'[i], run'[i + 1], events'[i]) {
      if i < |events| {
        assert Step(run[i], run[i + 1], events[i]);
      }
    }
  }

  /** No attempt in flight, f failures counted since time 0, the latest at last. */
  ghost predicate Quiet(s: State, f: nat, last: int) {
    && s.flying == [] && s.clock == last && 0 <= last < LOGIN_WINDOW && |s.times| == f && NotLate(s, last)
    && s.entry == if f == 0 then None
       else Some(Attempt(f, 0, if f >= LOGIN_MAX_FAILURES then Some(last + LOGIN_BLOCK) else None))
  }

  /** An entry that still lasts at this time; only a first attempt has none. */
  predicate Lasts(s: State, k: nat, at: int) {
    if s.entry.None? then at == 0 && k == 1 && s.times == [] else !Expired(s.entry.value, at)
  }

  /** k attempts are checked at one time. */
  lemma {:induction false} ChecksFly(run: seq<State>, events: seq<Event>, c: nat, k: nat, at: int)
    returns (run': seq<State>, events': seq<Event>)
    requires Orderly(run, events, c) && k <= c
    requires var s := run[|run| - 1]; s.clock <= at && s.flying == [] && Admits(s.entry, at) && Lasts(s, k, at)
    ensures Orderly(run', events', c)
    ensures var s, t := run[|run| - 1], run'[|run'| - 1];
      && t.entry == s.entry && t.times == s.times && |t.flying| == k && t.clock == (if k == 0 then s.clock else at)
      && forall i :: 0 <= i < k ==> t.flying[i].at <= at
  {
    assert run != [];
    hide IsRun, InFlight, InOrder, Step;
    if k == 0 {
      run', events' := run, events;
    } else {
      if run[|run| - 1].entry.None? {
        run', events' := run, events;
      } else {
        run', events' := ChecksFly(run, events, c, k - 1, at);
      }
      var s := run'[|run'| - 1];
      run', events' := RunGoesOn(run', events', Check(at, at), AfterCheck(s, at, at), c);
    }
  }

  /** All attempts in flight turn out wrong at one time. */
  lemma {:induction false} AllAreWrong(run: seq<State>, events: seq<Event>, c: nat, f: nat, at: int)
    returns (run': seq<State>, events': seq<Event>)
    requires Orderly(run, events, c) && 0 <= at < LOGIN_WINDOW
    requires var s := run[|run| - 1];
      && s.flying != [] && s.clock <= at && |s.times| == f && NotLate(s, at)
      && forall i :: 0 <= i < |s.flying| ==> s.flying[i].at <= at
    requires var e := run[|run| - 1].entry;
      if f == 0 then e == None && at == 0
      else e.Some? && e.value.failures == f && e.value.firstFailed == 0 &&
           (e.value.blockedTill.Some? ==> f >= LOGIN_MAX_FAILURES)
    ensures Orderly(run', events', c)
    ensures Quiet(run'[|run'| - 1], f + |run[|run| - 1].flying|, at)
    decreases |run[|run| - 1].flying|
  {
    assert run != [];
    assert |run[|run| - 1].flying| <= c;
    hide IsRun, InFlight, InOrder, Step;
    var s := run[|run| - 1];
    var t := AfterJudge(s, 0, at, at, false);
    run', events' := RunGoesOn(run, events, Judge(0, at, at, false), t, c);
    if |s.flying| > 1 {
      run', events' := AllAreWrong(run', events', c, f + 1, at);
    }
  }

  /** k attempts checked together and found wrong together. */
  lemma Wave(run: seq<State>, events: seq<Event>, c: nat, k: nat, f: nat, last: int, at: int)
    returns (run': seq<State>, events': seq<Event>)
    requires Orderly(run, events, c) && 0 < k <= c && Quiet(run[|run| - 1], f, last)
    requires last <= at < LOGIN_WINDOW && (f == 0 ==> at == 0 && k == 1)
    requires f >= LOGIN_MAX_FAILURES ==> last + LOGIN_BLOCK <= at
    ensures Orderly(run', events', c) && Quiet(run'[|run'| - 1], f + k, at)
  {
    assert run != [];
    hide IsRun, InFlight, InOrder;
    run', events' := ChecksFly(run, events, c, k, at);
    run', events' := AllAreWrong(run', events', c, f, at);
  }

  lemma {:induction false} SevenAtOnce(c: nat, k: nat) returns (run: seq<State>, events: seq<Event>)
    requires c >= 1 && k <= 7
    ensures Orderly(run, events, c) && Quiet(run[|run| - 1], k, 0)
  {
    hide IsRun, InFlight, InOrder;
    if k == 0 {
      run, events := [State(None, [], [], 0)], [];
      StartIsOrderly(c);
    } else {
      run, events := SevenAtOnce(c, k - 1);
      run, events := Wave(run, events, c, 1, k - 1, 0, 0);
    }
  }

  lemma StartIsOrderly(c: nat)
    ensures Orderly([State(None, [], [], 0)], [], c)
  {
  }

  /** Seven one after the other, then c together, and c more each minute. */
  lemma {:induction false} Waves(c: nat, m: nat) returns (run: seq<State>, events: seq<Event>)
    requires c >= 1 && m < 15
    ensures Orderly(run, events, c) && Quiet(run[|run| - 1], 7 + (m + 1) * c, m * LOGIN_BLOCK)
  {
    hide IsRun, InFlight, InOrder;
    if m == 0 {
      run, events := SevenAtOnce(c, 7);
      run, events := Wave(run, events, c, c, 7, 0, 0);
    } else {
      run, events := Waves(c, m - 1);
      assert 7 + m * c + c == 7 + (m + 1) * c;
      run, events := Wave(run, events, c, c, 7 + m * c, (m - 1) * LOGIN_BLOCK, m * LOGIN_BLOCK);
    }
  }

  /** A client with c attempts in flight can get all 7 + 15c: 22 one after the other, 37 with two at once. */
  lemma BoundIsReached(c: nat) returns (run: seq<State>, events: seq<Event>)
    requires c >= 1
    ensures Orderly(run, events, c)
    ensures var e := run[|run| - 1].entry; e.Some? && e.value.failures == 7 + 15 * c
  {
    hide IsRun, InFlight, InOrder;
    run, events := Waves(c, 14);
  }

  // ---- judgements that are late ----

  /** A run with at most c in flight, judged in any order. */
  ghost predicate Plain(run: seq<State>, events: seq<Event>, c: nat) {
    run != [] && IsRun(run, events) && InFlight(run, c)
  }

  lemma PlainGoesOn(run: seq<State>, events: seq<Event>, e: Event, t: State, c: nat)
    returns (run': seq<State>, events': seq<Event>)
    requires Plain(run, events, c) && Step(run[|run| - 1], t, e) && |t.flying| <= c
    ensures Plain(run', events', c) && run'[|run'| - 1] == t
  {
    hide Step;
    run', events' := run + [t], events + [e];
    forall i | 0 <= i < |events'| ensures Step(run'[i], run'[i + 1], events'[i]) {
      if i < |events| {
        assert Step(run[i], run[i + 1], events[i]);
      }
    }
  }

  /** At least eight failures have been counted since time 0; the client is blocked until then. */
  predicate BlockedUntil(s: State, f: nat, till: int) {
    f >= LOGIN_MAX_FAILURES && s.entry == Some(Attempt(f, 0, Some(till)))
  }

  lemma OneIsWrong(run: seq<State>, events: seq<Event>, c: nat, i: nat, readAt: int, at: int, f: nat, till: int)
    returns (run': seq<State>, events': seq<Event>)
    requires Plain(run, events, c)
    requires var s := run[|run| - 1];
      && s.clock <= at && i < |s.flying| <= c && s.flying[i].at <= readAt <= at < LOGIN_WINDOW
      && BlockedUntil(s, f, till)
    ensures Plain(run', events', c)
    ensures var s, t := run[|run| - 1], run'[|run'| - 1];
      t.clock == at && t.flying == WithoutAt(s.flying, i) && BlockedUntil(t, f + 1, readAt + LOGIN_BLOCK)
  {
    assert run != [];
    hide IsRun, InFlight, Step;
    var s := run[|run| - 1];
    run', events' := PlainGoesOn(run, events, Judge(i, readAt, at, false), AfterJudge(s, i, readAt, at, false), c);
  }

  /** The flying ones of s, and k more checked at this time. */
  predicate Joined(s: State, t: State, k: nat, at: int) {
    && |t.flying| == |s.flying| + k && s.flying <= t.flying
    && forall i :: |s.flying| <= i < |t.flying| ==> t.flying[i].at == at
  }

  lemma {:induction false} MoreAreChecked(run: seq<State>, events: seq<Event>, c: nat, k: nat, at: int, f: nat,
                                          till: int)
    returns (run': seq<State>, events': seq<Event>)
    requires Plain(run, events, c)
    requires var s := run[|run| - 1];
      s.clock <= at < LOGIN_WINDOW && |s.flying| + k <= c && BlockedUntil(s, f, till) && till <= at
    ensures Plain(run', events', c)
    ensures var s, t := run[|run| - 1], run'[|run'| - 1];
      s.clock <= t.clock <= at && Joined(s, t, k, at) && BlockedUntil(t, f, till)
  {
    assert run != [];
    hide IsRun, InFlight, Step;
    if k == 0 {
      run', events' := run, events;
    } else {
      run', events' := MoreAreChecked(run, events, c, k - 1, at, f, till);
      var s := run'[|run'| - 1];
      run', events' := PlainGoesOn(run', events', Check(at, at), AfterCheck(s, at, at), c);
    }
  }

  lemma {:induction false} LastAreWrong(run: seq<State>, events: seq<Event>, c: nat, k: nat, at: int, f: nat, till: int)
    returns (run': seq<State>, events': seq<Event>)
    requires Plain(run, events, c) && k > 0
    requires var s := run[|run| - 1];
      && s.clock <= at < LOGIN_WINDOW && k <= |s.flying| <= c && BlockedUntil(s, f, till)
      && forall i :: |s.flying| - k <= i < |s.flying| ==> s.flying[i].at <= at
    ensures Plain(run', events', c)
    ensures var s, t := run[|run| - 1], run'[|run'| - 1];
      t.clock == at && t.flying == s.flying[..|s.flying| - k] && BlockedUntil(t, f + k, at + LOGIN_BLOCK)
    decreases k
  {
    assert run != [];
    hide IsRun, InFlight, Step;
    var s := run[|run| - 1];
    var n := |s.flying| - 1;
    run', events' := OneIsWrong(run, events, c, n, at, at, f, till);
    assert WithoutAt(s.flying, n) == s.flying[..n];
    if k > 1 {
      run', events' := LastAreWrong(run', events', c, k - 1, at, f + 1, at + LOGIN_BLOCK);
      assert s.flying[..n][..n - (k - 1)] == s.flying[..|s.flying| - k];
    }
  }

  lemma TwelveMinutes(c: nat) returns (run: seq<State>, events: seq<Event>)
    requires c >= 1
    ensures Plain(run, events, c)
    ensures var s := run[|run| - 1];
      s.flying == [] && s.clock == 12 * LOGIN_BLOCK && BlockedUntil(s, 7 + 13 * c, 13 * LOGIN_BLOCK)
  {
    hide IsRun, InFlight, InOrder;
    run, events := Waves(c, 12);
  }

  /** With two or more in flight the bound fails in some order. At minute 13 all but one of c attempts are judged;
      the last reads the clock then and locks a minute later, after c - 1 others were checked and judged. It ends
      their block, and c more are counted: 7 + 16c - 1 in all. */
  lemma LateJudgementExceeds(c: nat) returns (run: seq<State>, events: seq<Event>)
    requires c >= 2
    ensures Plain(run, events, c)
    ensures var e := run[|run| - 1].entry; e.Some? && e.value.failures == 7 + 16 * c - 1 > 7 + 15 * c
  {
    hide Plain;
    var f, m := 7 + 13 * c, LOGIN_BLOCK;
    run, events := TwelveMinutes(c);
    run, events := MoreAreChecked(run, events, c, c, 13 * m, f, 13 * m);
    run, events := LastAreWrong(run, events, c, c - 1, 13 * m, f, 13 * m);
    run, events := MoreAreChecked(run, events, c, c - 1, 14 * m, f + (c - 1), 14 * m);
    run, events := LastAreWrong(run, events, c, c - 1, 14 * m, f + (c - 1), 14 * m);
    run, events := OneIsWrong(run, events, c, 0, 13 * m, 14 * m, f + 2 * (c - 1), 15 * m);
    run, events := MoreAreChecked(run, events, c, c, 14 * m, f + 2 * (c - 1) + 1, 14 * m);
    run, events := LastAreWrong(run, events, c, c, 14 * m, f + 2 * (c - 1) + 1, 14 * m);
  }

  /** At most this many failures in any window of any run with at most c in flight, judged in any order. */
  ghost predicate Bounds(c: nat, most: nat) {
    forall run: seq<State>, events: seq<Event>, n: nat ::
      IsRun(run, events) && InFlight(run, c) && n < |run| && run[n].entry.Some? ==> run[n].entry.value.failures <= most
  }

  lemma BoundsOne(c: nat)
    requires c <= 1
    ensures Bounds(c, 7 + 15 * c)
  {
    hide IsRun, InFlight, InOrder;
    forall run: seq<State>, events: seq<Event>, n: nat
      | IsRun(run, events) && InFlight(run, c) && n < |run| && run[n].entry.Some?
      ensures run[n].entry.value.failures <= 7 + 15 * c
    {
      FailuresAreBounded(run, events, c, n, 0);
    }
  }

  lemma Exceeded(run: seq<State>, events: seq<Event>, c: nat, most: nat)
    requires Plain(run, events, c)
    requires var e := run[|run| - 1].entry; e.Some? && e.value.failures > most
    ensures !Bounds(c, most)
  {
    hide IsRun, InFlight;
  }

  /** In any order of judgements 7 + 15c is a bound exactly for one attempt at a time. */
  lemma BoundInAnyOrderIff(c: nat)
    ensures Bounds(c, 7 + 15 * c) <==> c <= 1
  {
    hide Plain, Bounds;
    if c <= 1 {
      BoundsOne(c);
    } else {
      var run, events := LateJudgementExceeds(c);
      Exceeded(run, events, c, 7 + 15 * c);
    }
  }

  /** And so is 22: more are counted with two in flight even in order. */
  lemma TwentyTwoIsBoundIff(c: nat)
    ensures Bounds(c, 22) <==> c <= 1
  {
    hide IsRun, InFlight, InOrder;
    if c <= 1 {
      BoundsOne(c);
    } else {
      var run, events := BoundIsReached(c);
      Exceeded(run, events, c, 22);
    }
  }
}
