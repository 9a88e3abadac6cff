/** What every run of the resolver gives: why each answer was given, what a cache hit hands out, and how late a
    clock reading may be. */
module Answers {
  import opened Addresses
  import opened Text
  import opened Lifetime
  import opened ResponseCache
  import opened CacheKey
  import opened Resolver
  import RateLimit

  // ---- every run ----

  /** Over every run of interleaved queries and configuration changes: the table stays within the size
      configured, every entry is an accepted reply to the question of its key, within its lifetime's
      bounds and free of blocked addresses, and every answer given is one the limiter and the policy allow. */
  lemma {:induction false} RunsKeepInv(env: Env, run: seq<State>)
    requires IsRun(env, run)
    ensures Inv(env, run[|run| - 1])
  {
    hide Inv, Step;
    if |run| > 1 {
      var init := run[..|run| - 1];
      RunsKeepInv(env, init);
      assert Step(env, run[|run| - 2], run[|run| - 2 + 1]);
      StepKeepsInv(env, run[|run| - 2], run[|run| - 1]);
    } else {
      StartIsGood(env, run[0]);
    }
  }

  /** A reply given answers the question asked: same id, and one question that is the same up to case. */
  lemma RepliesAnswer(env: Env, run: seq<State>, i: nat)
    requires IsRun(env, run) && i < |run[|run| - 1].given| && run[|run| - 1].given[i].reply.Some?
    ensures var g := run[|run| - 1].given[i];
      var q, m := g.p.r.query, g.reply.value;
      && m.id == q.id && |m.question| == 1 && Lower(m.question[0].name) == Lower(q.name)
      && m.question[0].qtype == q.qtype && m.question[0].qclass == q.qclass
  {
    hide Step, GoodEntry, GoodFlight, RateLimit.LogInv, Decided, AnswerBlocked, ClientAllowed, PassedLimiter;
    RunsKeepInv(env, run);
    var s := run[|run| - 1];
    assert GoodAnswer(env, s.rate.visits, s.given[i]);
  }

  /** Whoever finds an entry under the key of a query finds an answer to that very question. */
  lemma EntryAnswersQuery(env: Env, run: seq<State>, q: Query)
    requires IsRun(env, run)
    ensures var s := run[|run| - 1];
      CacheKeyForMessage(q).Some? && CacheKeyForMessage(q).value in s.table ==>
        var m := s.table[CacheKeyForMessage(q).value].msg;
        && |m.question| == 1 && Lower(m.question[0].name) == Lower(q.name)
        && m.question[0].qtype == q.qtype && m.question[0].qclass == q.qclass
  {
    hide Inv, Step, CacheKeyForMessage;
    RunsKeepInv(env, run);
    if CacheKeyForMessage(q).Some? && CacheKeyForMessage(q).value in run[|run| - 1].table {
      EntryAnswers(env, run[|run| - 1], q);
    }
  }

  // ---- the tests of addresses and replies, on their own ----

  /** A client is let in exactly if it is on the whitelist, or the whitelist is not all that counts and the client
      is in the LAN where only the LAN is let in. */
  lemma ClientAllowedIff(env: Env, w: World, ip: string)
    ensures ClientAllowed(env, w, ip) <==>
      || (exists item :: item in w.whitelist && ItemHolds(env.parser, ip, item))
      || (!w.whitelistOnly && (w.lanOnly ==> IsLan(env.parser, ip)))
  {
    hide ItemHolds, IsLan;
    if k :| 0 <= k < |w.whitelist| && ItemHolds(env.parser, ip, w.whitelist[k]) {
      assert w.whitelist[k] in w.whitelist;
    }
  }

  /** The address of an A or AAAA record that BlockedIPs holds, as this very text or as an address or network. */
  ghost predicate HoldsBlocked(env: Env, blockedIPs: seq<string>, r: Record, ip: string, item: string) {
    && (r.kind == A(ip) || r.kind == AAAA(ip)) && ip != ""
    && item in blockedIPs && (item == ip || ItemHolds(env.parser, ip, item))
  }

  /** Only the answer section counts. */
  lemma AnswerBlockedIff(env: Env, blockedIPs: seq<string>, m: Msg)
    ensures AnswerBlocked(env, blockedIPs, m) <==>
      exists r, ip, item :: r in m.answer && HoldsBlocked(env, blockedIPs, r, ip, item)
  {
    hide ItemHolds;
    if AnswerBlocked(env, blockedIPs, m) {
      var k :| 0 <= k < |m.answer| && AddressBlocked(env, blockedIPs, AddressOf(m.answer[k]));
      var ip := AddressOf(m.answer[k]);
      var j :| 0 <= j < |blockedIPs| && (ip == blockedIPs[j] || ItemHolds(env.parser, ip, blockedIPs[j]));
      assert m.answer[k] in m.answer && HoldsBlocked(env, blockedIPs, m.answer[k], ip, blockedIPs[j]);
    }
    if r, ip, item :| r in m.answer && HoldsBlocked(env, blockedIPs, r, ip, item) {
      var k :| 0 <= k < |m.answer| && m.answer[k] == r;
      assert AddressOf(m.answer[k]) == ip && AddressBlocked(env, blockedIPs, ip);
    }
  }

  /** The first acceptable reply is passed on; */
  lemma {:induction false} ForwardIsFirst(q: Query, replies: seq<Option<Msg>>, n: nat)
    requires n < |replies| && replies[n].Some? && ValidUpstreamResponse(q, replies[n].value)
    requires !AcceptableBefore(q, replies, n)
    ensures Forward(q, replies) == replies[n].value
  {
    hide ValidUpstreamResponse;
    if n > 0 {
      assert !(replies[0].Some? && ValidUpstreamResponse(q, replies[0].value));
      assert forall i :: 0 <= i < |replies| - 1 ==> replies[1..][i] == replies[i + 1];
      ForwardIsFirst(q, replies[1..], n - 1);
    }
  }

  /** only when there is none it is a server failure. */
  lemma {:induction false} ForwardFailsOnlyAlone(q: Query, replies: seq<Option<Msg>>)
    requires !AcceptableBefore(q, replies, |replies|)
    ensures Forward(q, replies) == ServerFailure(q)
  {
    hide ValidUpstreamResponse;
    if replies != [] {
      assert !(replies[0].Some? && ValidUpstreamResponse(q, replies[0].value));
      assert forall i :: 0 <= i < |replies| - 1 ==> replies[1..][i] == replies[i + 1];
      ForwardFailsOnlyAlone(q, replies[1..]);
    }
  }

  // ---- what a hit gives ----

  /** A query that asks the cache finds its entry exactly while the lifetime has not passed at the reading; an entry
      whose lifetime has passed goes, and no other. */
  lemma FoundWhileLive(env: Env, run: seq<State>, id: nat)
    requires IsRun(env, run) && MayAskCache(run[|run| - 1], id)
    ensures var s := run[|run| - 1];
      var key, readAt := CacheKeyForMessage(s.flights[id].p.r.query).value, s.flights[id].readAt;
      var live := key in s.table
        && readAt < s.table[key].storedAt + LifetimeOf(s.table[key].msg, s.world.settings.ttl * SECOND);
      && (Found(s, id).1.Some? <==> s.world.settings.enabled && live)
      && Found(s, id).0 == if s.world.settings.enabled && !live then s.table - {key} else s.table
  {
    hide Step, GoodFlight, GoodAnswer, RateLimit.LogInv, CacheKeyForMessage, LifetimeOf, AnswersKey, AnswerBlocked,
         Aged, Elapsed;
    RunsKeepInv(env, run);
    var s := run[|run| - 1];
    var key := CacheKeyForMessage(s.flights[id].p.r.query).value;
    if key in s.table {
      assert GoodEntry(env, s.world, s.clock, key, s.table[key]);
    } else {
      assert s.table - {key} == s.table;
    }
  }

  /** On every hit of every run the query is answered from the cache, so the re-check does not fire: one answer is
      given, with the id and the question of the query, and with all that was stored but the TTLs. */
  lemma HitsAreGiven(env: Env, run: seq<State>, t: State, id: nat, e: Stored) returns (m: Msg)
    requires IsRun(env, run) && IsHit(run[|run| - 1], id, e) && AsksCache(env, run[|run| - 1], t, id)
    ensures var s, p := run[|run| - 1], run[|run| - 1].flights[id].p;
      && t == State(s.world, s.table, t.clock, s.rate, s.flights - {id}, s.given + [Given(p, s.world, Cached, Some(m))])
      && m.id == p.r.query.id && m.question == [Question(p.r.query.name, p.r.query.qtype, p.r.query.qclass)]
      && m.rcode == e.msg.rcode && m.truncated == e.msg.truncated
      && |m.answer| == |e.msg.answer| && |m.ns| == |e.msg.ns| && |m.extra| == |e.msg.extra|
      && forall i :: 0 <= i < |m.Records()| && i < |e.msg.Records()| ==>
           m.Records()[i].name == e.msg.Records()[i].name && m.Records()[i].kind == e.msg.Records()[i].kind
  {
    hide Inv, Step, Aged, Elapsed, LifetimeOf, CacheKeyForMessage, Readdressed, AsksCache, Found;
    RunsKeepInv(env, run);
    var s := run[|run| - 1];
    m := HitIsHanded(env, s, t, id, e);
    FoundIsStored(s, id);
    EntryAnswersQuery(env, run, s.flights[id].p.r.query);
    HandedRecords(e, Elapsed(e.storedAt, s.flights[id].readAt), s.flights[id].p.r.query);
  }

  /** In it each non-OPT record is aged by exactly the whole seconds since it was stored, which leaves at least one,
      exactly when the clock was not read a whole second (modulo 2^32) before the storing; what it gets otherwise;
      and the entry is always younger than the configured cap. */
  lemma HitsAge(env: Env, run: seq<State>, t: State, id: nat, e: Stored, i: nat) returns (m: Msg)
    requires IsRun(env, run) && IsHit(run[|run| - 1], id, e) && AsksCache(env, run[|run| - 1], t, id)
    requires i < |e.msg.Records()| && !e.msg.Records()[i].kind.Opt?
    ensures IsCachedAnswer(t, m)
    ensures var s := run[|run| - 1];
      var readAt, ttl, given := s.flights[id].readAt, e.msg.Records()[i].ttl, m.Records();
      var early := Early(e.storedAt, readAt) % UINT32_SIZE;
      && |given| == |e.msg.Records()| && readAt - e.storedAt < s.world.settings.ttl * SECOND
      && (given[i].ttl == ttl - Age(e.storedAt, readAt) <==> early == 0)
      && (given[i].ttl >= 1 <==> early == 0 || ttl + early > UINT32_SIZE)
      && (early != 0 ==> given[i].ttl == if ttl + early > UINT32_SIZE then ttl + early - UINT32_SIZE else 0)
  {
    hide Inv, Step, IsHit, Found, LifetimeOf, Aged, Elapsed, Early, Age, Readdressed, AsksCache;
    RunsKeepInv(env, run);
    var s := run[|run| - 1];
    HitIsLive(env, s, id, e);
    m := HitIsHanded(env, s, t, id, e);
    HandedRecords(e, Elapsed(e.storedAt, s.flights[id].readAt), s.flights[id].p.r.query);
    LiveRecordsAge(e.msg, s.world.settings.ttl * SECOND, e.storedAt, s.flights[id].readAt, i);
  }

  /** So, for TTLs as RFC 2181 bounds them and readings less than 2^31 seconds early, a record keeps a second
      exactly when the reading came less than a second before the storing. */
  lemma HitsKeepASecondIff(env: Env, run: seq<State>, t: State, id: nat, e: Stored, i: nat) returns (m: Msg)
    requires IsRun(env, run) && IsHit(run[|run| - 1], id, e) && AsksCache(env, run[|run| - 1], t, id)
    requires i < |e.msg.Records()| && !e.msg.Records()[i].kind.Opt? && e.msg.Records()[i].ttl < 0x8000_0000
    requires e.storedAt - run[|run| - 1].flights[id].readAt < 0x8000_0000 * SECOND
    ensures IsCachedAnswer(t, m) && |m.Records()| == |e.msg.Records()|
    ensures m.Records()[i].ttl >= 1 <==> e.storedAt - run[|run| - 1].flights[id].readAt < SECOND
  {
    hide Inv, Step, IsHit, Found, LifetimeOf, Aged, Elapsed, Early, Age, Readdressed, AsksCache;
    RunsKeepInv(env, run);
    var s := run[|run| - 1];
    HitIsLive(env, s, id, e);
    m := HitIsHanded(env, s, t, id, e);
    HandedRecords(e, Elapsed(e.storedAt, s.flights[id].readAt), s.flights[id].p.r.query);
    LiveRecordsKeepASecondIff(e.msg, s.world.settings.ttl * SECOND, e.storedAt, s.flights[id].readAt, i);
  }

  /** The flags of an OPT record come back unchanged exactly when they are zero or no whole second lies between
      reading and storing. */
  lemma HitsKeepOptFlagsIff(env: Env, run: seq<State>, t: State, id: nat, e: Stored, i: nat) returns (m: Msg)
    requires IsRun(env, run) && IsHit(run[|run| - 1], id, e) && AsksCache(env, run[|run| - 1], t, id)
    requires i < |e.msg.Records()| && e.msg.Records()[i].kind.Opt?
    ensures IsCachedAnswer(t, m) && |m.Records()| == |e.msg.Records()|
    ensures var readAt, flags := run[|run| - 1].flights[id].readAt, e.msg.Records()[i].ttl;
      m.Records()[i].ttl == flags <==>
        flags == 0 || (Age(e.storedAt, readAt) == 0 && Early(e.storedAt, readAt) % UINT32_SIZE == 0)
  {
    hide Inv, Step, IsHit, Found, LifetimeOf, Aged, Elapsed, Early, Age, Readdressed, AsksCache;
    RunsKeepInv(env, run);
    var s := run[|run| - 1];
    HitIsLive(env, s, id, e);
    m := HitIsHanded(env, s, t, id, e);
    HandedRecords(e, Elapsed(e.storedAt, s.flights[id].readAt), s.flights[id].p.r.query);
    OptFlagsSurviveIff(e.msg, s.world.settings.ttl * SECOND, e.storedAt, s.flights[id].readAt, i);
  }

  /** The re-check on a cache hit never fires: a query that asks the cache is answered from it or goes on. */
  lemma RecheckNeverFires(env: Env, run: seq<State>, t: State, id: nat)
    requires IsRun(env, run) && AsksCache(env, run[|run| - 1], t, id)
    ensures var s := run[|run| - 1];
      if Found(s, id).1.None? then t.given == s.given && t.flights == s.flights[id := AtUpstream(s.flights[id].p)]
      else exists m :: IsCachedAnswer(t, m) && t.given[..|t.given| - 1] == s.given
  {
    hide Inv, Step, Looked, Aged, Elapsed, CacheKeyForMessage, AnswerBlocked, Readdressed;
    var s := run[|run| - 1];
    if Found(s, id).1.Some? {
      FoundIsStored(s, id);
      var e := s.table[CacheKeyForMessage(s.flights[id].p.r.query).value];
      RunsKeepInv(env, run);
      var m := HitIsHanded(env, s, t, id, e);
      assert IsCachedAnswer(t, m);
    }
  }

  /** Why a change clears the cache: were blockedIPs extended without clearing, the re-check would have to fire on
      every hit whose answer holds the address; as it is, the query is answered. */
  lemma UnclearedEntryIsCaught(env: Env, run: seq<State>, id: nat, e: Stored, i: nat, now: int)
    requires IsRun(env, run) && IsHit(run[|run| - 1], id, e)
    requires i < |e.msg.answer| && AddressOf(e.msg.answer[i]) != ""
    ensures var s := run[|run| - 1];
      var uncleared := s.(world := s.world.(blockedIPs := s.world.blockedIPs + [AddressOf(e.msg.answer[i])]));
      var t, t' := AskCache(env, s, id, now), AskCache(env, uncleared, id, now);
      && |t.given| == |t'.given| == |s.given| + 1
      && t.given[|s.given|].outcome == Cached && t'.given[|s.given|].outcome == Blocked
      && t'.given[|s.given|].reply == None
  {
    hide Inv, Step, LifetimeOf, Aged, Elapsed, CacheKeyForMessage, AnswerBlocked, Readdressed, Looked;
    RunsKeepInv(env, run);
    var s, ip := run[|run| - 1], AddressOf(e.msg.answer[i]);
    HitIsLive(env, s, id, e);
    HitIsUnblocked(env, s, CacheKeyForMessage(s.flights[id].p.r.query).value, s.flights[id].readAt);
    AddressMakesBlocked(env, s.world.blockedIPs, ip, e.msg, i);
    AgeingKeepsAddresses(env, s.world.blockedIPs + [ip], e.msg, Elapsed(e.storedAt, s.flights[id].readAt));
  }

  // ---- what the upstream servers give ----

  /** A query answered from upstream gets the first acceptable reply, or a server failure where there is none;
      nothing, where that holds a blocked address; and exactly a reply that is given and is no server failure goes on
      to be stored, where the query has a key and the cache is on. */
  lemma UpstreamAnswers(env: Env, s: State, id: nat, now: int, replies: seq<Option<Msg>>, n: nat)
    requires id in s.flights && s.flights[id].AtUpstream?
    requires n <= |replies| && !AcceptableBefore(s.flights[id].p.r.query, replies, n)
    requires n < |replies| ==>
      replies[n].Some? && ValidUpstreamResponse(s.flights[id].p.r.query, replies[n].value)
    ensures var p, t := s.flights[id].p, AskUpstream(env, s, id, now, replies);
      var reply := if n < |replies| then replies[n].value else ServerFailure(p.r.query);
      var blocked := exists r, ip, item :: r in reply.answer && HoldsBlocked(env, s.world.blockedIPs, r, ip, item);
      && t.table == s.table && t.world == s.world && t.rate == s.rate
      && t.given == s.given + [if blocked then Given(p, s.world, Blocked, None)
                               else if reply.rcode == 2 then Given(p, s.world, Failed, Some(reply))
                               else Given(p, s.world, Forwarded, Some(reply))]
      && t.flights == if !blocked && reply.rcode != 2 && s.world.settings.enabled && CacheKeyForMessage(p.r.query).Some?
                      then s.flights[id := ToStore(p, reply)] else s.flights - {id}
  {
    hide ValidUpstreamResponse, AnswerBlocked, HoldsBlocked, CacheKeyForMessage, Forward;
    var q := s.flights[id].p.r.query;
    if n < |replies| {
      ForwardIsFirst(q, replies, n);
    } else {
      ForwardFailsOnlyAlone(q, replies);
    }
    AnswerBlockedIff(env, s.world.blockedIPs, Forward(q, replies));
  }

  // ---- a reading that comes a second early ----

  /** One query reads the clock at 0; another stores its reply a second later; the first then finds it, and is
      given a TTL of 0 instead of 60. */
  lemma EarlyReadingGetsZero(env: Env) returns (run: seq<State>, e: Stored, t: State, m: Msg)
    ensures IsRun(env, run) && IsHit(run[|run| - 1], 0, e) && AsksCache(env, run[|run| - 1], t, 0)
    ensures e.msg == REPLY && e.storedAt - run[|run| - 1].flights[0].readAt == SECOND
    ensures IsCachedAnswer(t, m) && m.answer == [REPLY.answer[0].(ttl := 0)]
  {
    hide CacheKeyForMessage, LifetimeOf, QueryStep, IsRun, Found, IsHit, AsksCache, IsCachedAnswer;
    OpenGate(env);
    e := Stored(REPLY, SECOND, SECOND + LifetimeOf(REPLY, 60 * SECOND));
    SceneStarts(env);
    run := SceneUpToClock(env, [Scene(map[])], map[], 0);
    var first: map<nat, Flight> := map[0 := AtCache(ON_WAY, 0)];
    run := SceneUpToClock(env, run, first, 1);
    var second: map<nat, Flight> := first[1 := AtCache(ON_WAY, 0)];
    var asked: map<nat, Flight> := second[1 := AtUpstream(ON_WAY)];
    var replied: map<nat, Flight> := asked[1 := ToStore(ON_WAY, REPLY)];
    SceneMisses(env, second, 1);
    run := RunGoesOn(env, run, Scene(asked), 1);
    SceneIsReplied(env, asked, 1);
    run := RunGoesOn(env, run, Replied(replied), 1);
    RepliedIsKept(env, replied, 1, e);
    run := RunGoesOn(env, run, Kept(e, replied - {1}), 1);
    KeptIsHit(e, replied - {1});
    t, m := KeptIsGiven(env, run, e);
  }

  /** The last step of it. */
  lemma KeptIsGiven(env: Env, run: seq<State>, e: Stored) returns (t: State, m: Msg)
    requires IsRun(env, run) && IsHit(run[|run| - 1], 0, e) && run[|run| - 1].flights[0] == AtCache(ON_WAY, 0)
    requires e.msg == REPLY && e.storedAt == SECOND
    ensures AsksCache(env, run[|run| - 1], t, 0) && IsCachedAnswer(t, m)
    ensures m.answer == [REPLY.answer[0].(ttl := 0)]
  {
    hide CacheKeyForMessage, LifetimeOf, Step, Found, AskCache, Inv, Readdressed, Aged, Elapsed;
    var s := run[|run| - 1];
    RunsKeepInv(env, run);
    t := AskCache(env, s, 0, s.clock);
    AskCacheTells(env, s, 0, s.clock);
    m := HitIsHanded(env, s, t, 0, e);
    HandedRecords(e, Elapsed(e.storedAt, 0), ASKED);
    OneSecondEarly();
  }
}
