/** resolveDNS as steps of concurrent queries over one configuration and one response cache. A query
    holds the configuration's read lock from its first step to its last; a guarded change holds the
    write lock. */
module Resolver {
  import opened Addresses
  import opened Text
  import opened Lifetime
  import opened ResponseCache
  import opened CacheKey
  import Rules
  import Blocking
  import Decision
  import RateLimit

  // ---- configuration and the tests made on it ----

  datatype World = World(settings: Settings, blockedIPs: seq<string>, whitelist: seq<string>, whitelistOnly: bool,
                         lanOnly: bool, resolverDisabled: bool, tables: Blocking.Tables, index: Decision.Index,
                         policy: Decision.Policy, limit: RateLimit.Settings)

  /** The regex engine and the address parser of the standard library. */
  datatype Env = Env(engine: Rules.Engine, parser: Parser)

  predicate IpInList(env: Env, ip: string, list: seq<string>) {
    exists k :: 0 <= k < |list| && ItemHolds(env.parser, ip, list[k])
  }

  predicate ClientAllowed(env: Env, w: World, ip: string) {
    if w.whitelistOnly then IpInList(env, ip, w.whitelist)
    else !(w.lanOnly && !IsLan(env.parser, ip) && !IpInList(env, ip, w.whitelist))
  }

  function AddressOf(r: Record): string {
    match r.kind
    case A(ip) => ip
    case AAAA(ip) => ip
    case _ => ""
  }

  predicate AddressBlocked(env: Env, blockedIPs: seq<string>, ip: string) {
    ip != "" && exists k :: 0 <= k < |blockedIPs| && (ip == blockedIPs[k] || ItemHolds(env.parser, ip, blockedIPs[k]))
  }

  /** answerBlocked */
  predicate AnswerBlocked(env: Env, blockedIPs: seq<string>, m: Msg) {
    exists k :: 0 <= k < |m.answer| && AddressBlocked(env, blockedIPs, AddressOf(m.answer[k]))
  }

  method IsAnswerBlocked(env: Env, blockedIPs: seq<string>, m: Msg) returns (blocked: bool)
    ensures blocked == AnswerBlocked(env, blockedIPs, m)
  {
    if |blockedIPs| == 0 {
      return false;
    }
    for i := 0 to |m.answer|
      invariant forall k :: 0 <= k < i ==> !AddressBlocked(env, blockedIPs, AddressOf(m.answer[k]))
    {
      var ip := AddressOf(m.answer[i]);
      if ip != "" {
        for j := 0 to |blockedIPs|
          invariant forall k :: 0 <= k < j ==> ip != blockedIPs[k] && !ItemHolds(env.parser, ip, blockedIPs[k])
        {
          if ip == blockedIPs[j] || ItemHolds(env.parser, ip, blockedIPs[j]) {
            assert AddressBlocked(env, blockedIPs, AddressOf(m.answer[i]));
            return true;
          }
        }
      }
    }
    blocked := false;
  }

  /** validUpstreamResponse */
  predicate ValidUpstreamResponse(q: Query, m: Msg) {
    && m.id == q.id && q.questions == 1 && |m.question| == 1
    && Lower(m.question[0].name) == Lower(q.name)
    && m.question[0].qtype == q.qtype && m.question[0].qclass == q.qclass
  }

  function ServerFailure(q: Query): Msg {
    Msg(q.id, RCODE_SERVER_FAILURE, false, [Question(q.name, q.qtype, q.qclass)], [], [], [])
  }

  /** forward: the first acceptable reply in the order the targets were tried, else a server failure */
  function Forward(q: Query, replies: seq<Option<Msg>>): Msg {
    if replies == [] then ServerFailure(q)
    else if replies[0].Some? && ValidUpstreamResponse(q, replies[0].value) then replies[0].value
    else Forward(q, replies[1..])
  }

  /** Some reply before position n is acceptable. */
  predicate AcceptableBefore(q: Query, replies: seq<Option<Msg>>, n: nat) {
    exists i :: 0 <= i < n && i < |replies| && replies[i].Some? && ValidUpstreamResponse(q, replies[i].value)
  }

  lemma {:induction false} ForwardIsValid(q: Query, replies: seq<Option<Msg>>)
    requires q.questions == 1
    ensures ValidUpstreamResponse(q, Forward(q, replies))
    ensures Some(Forward(q, replies)) in replies || Forward(q, replies) == ServerFailure(q)
  {
    if replies != [] {
      ForwardIsValid(q, replies[1..]);
    }
  }

  // ---- one query ----

  datatype Outcome = FormatError | Local | Denied | Trolled | Blocked | Cached | Forwarded | Failed

  /** A query and what the tests outside this model answer for it. */
  datatype Request = Request(query: Query, ip: string, portal: bool, trolled: bool, safe: bool, local: bool)

  /** visit: the query's call of the limiter, where the limiter applies; chosen: the profile it was decided by. */
  datatype Passage = Passage(r: Request, visit: Option<nat>, chosen: Option<Decision.Chosen>)

  datatype Gate = Stop(outcome: Outcome) | PassThrough | Proceed

  /** The part of resolveDNS between the limiter and the cache. */
  function GateOf(env: Env, w: World, r: Request, chosen: Decision.Chosen): Gate {
    if !ClientAllowed(env, w, r.ip) then Stop(if r.trolled then Trolled else Denied)
    else if w.resolverDisabled then PassThrough
    else if r.safe then Stop(Local)
    else if Decision.Decide(env.engine, w.tables, w.index, w.policy, chosen, r.query.name).blocked then Stop(Blocked)
    else if r.local then Stop(Local)
    else Proceed
  }

  /** Between two steps. AtLimiter and AtCache: the clock has been read, the lock not yet taken. */
  datatype Flight =
    | AtLimiter(r: Request, readAt: int)
    | Admitted(r: Request, visit: Option<nat>)
    | AtClock(p: Passage)
    | AtCache(p: Passage, readAt: int)
    | AtUpstream(p: Passage)
    | ToStore(p: Passage, reply: Msg)

  /** An answer, with the configuration it was given under. */
  datatype Given = Given(p: Passage, world: World, outcome: Outcome, reply: Option<Msg>)

  datatype State = State(world: World, table: Table, clock: int, rate: RateLimit.Log, flights: map<nat, Flight>,
                         given: seq<Given>)

  function Answered(s: State, id: nat, now: int, table: Table, p: Passage, outcome: Outcome, reply: Option<Msg>): State
  {
    State(s.world, table, now, s.rate, s.flights - {id}, s.given + [Given(p, s.world, outcome, reply)])
  }

  function OnItsWay(s: State, id: nat, now: int, table: Table, f: Flight): State {
    State(s.world, table, now, s.rate, s.flights[id := f], s.given)
  }

  /** Up to the lock of the limiter. */
  function Arrive(s: State, id: nat, r: Request, now: int): State {
    if r.query.questions != 1 then Answered(s, id, now, s.table, Passage(r, None, None), FormatError, None)
    else if r.portal then Answered(s, id, now, s.table, Passage(r, None, None), Local, None)
    else OnItsWay(s, id, now, s.table, if s.world.limit.Applies(r.ip) then AtLimiter(r, now) else Admitted(r, None))
  }

  /** The limiter, under its lock. */
  ghost predicate Limit(s: State, t: State, id: nat, now: int) {
    && id in s.flights && s.flights[id].AtLimiter?
    && var AtLimiter(r, readAt) := s.flights[id];
    && exists limited: bool, rate ::
      && RateLimit.LogStep(s.world.limit, s.rate, rate, r.ip, readAt, limited)
      && t == Judged(s.(rate := rate), id, now, r, |s.rate.visits|, limited)
  }

  function Judged(s: State, id: nat, now: int, r: Request, visit: nat, limited: bool): State {
    if limited then Answered(s, id, now, s.table, Passage(r, Some(visit), None), Denied, None)
    else OnItsWay(s, id, now, s.table, Admitted(r, Some(visit)))
  }

  /** From the limiter to the cache, with a profile the client's address may get. */
  function PassGate(env: Env, s: State, id: nat, now: int, chosen: Decision.Chosen, replies: seq<Option<Msg>>): State
    requires id in s.flights && s.flights[id].Admitted?
  {
    var Admitted(r, visit) := s.flights[id];
    var p := Passage(r, visit, Some(chosen));
    match GateOf(env, s.world, r, chosen)
    case Stop(outcome) => Answered(s, id, now, s.table, p, outcome, None)
    case PassThrough => Answered(s, id, now, s.table, p, Forwarded, Some(Forward(r.query, replies)))
    case Proceed =>
      OnItsWay(s, id, now, s.table, if CacheKeyForMessage(r.query).Some? then AtClock(p) else AtUpstream(p))
  }

  /** getCached reads the clock; other queries may go on before it locks the table. */
  function ReadClock(s: State, id: nat, now: int): State
    requires id in s.flights && s.flights[id].AtClock?
  {
    OnItsWay(s, id, now, s.table, AtCache(s.flights[id].p, now))
  }

  /** The cached message as the client gets it. */
  function Readdressed(m: Msg, q: Query): Msg {
    m.(id := q.id, question := if m.question == [] then [] else m.question[0 := Question(q.name, q.qtype, q.qclass)])
  }

  predicate MayAskCache(s: State, id: nat) {
    id in s.flights && s.flights[id].AtCache? && CacheKeyForMessage(s.flights[id].p.r.query).Some?
  }

  /** What a query at the cache finds there. */
  function Found(s: State, id: nat): (Table, Option<Msg>)
    requires MayAskCache(s, id)
  {
    Looked(s.table, s.world.settings, CacheKeyForMessage(s.flights[id].p.r.query).value, s.flights[id].readAt)
  }

  function AskCache(env: Env, s: State, id: nat, now: int): State
    requires MayAskCache(s, id)
  {
    var p := s.flights[id].p;
    var (table, hit) := Found(s, id);
    match hit
    case None => OnItsWay(s, id, now, table, AtUpstream(p))
    case Some(m) =>
      if AnswerBlocked(env, s.world.blockedIPs, m) then Answered(s, id, now, table, p, Blocked, None)
      else Answered(s, id, now, table, p, Cached, Some(Readdressed(m, p.r.query)))
  }

  function AskUpstream(env: Env, s: State, id: nat, now: int, replies: seq<Option<Msg>>): State
    requires id in s.flights && s.flights[id].AtUpstream?
  {
    var p := s.flights[id].p;
    var reply := Forward(p.r.query, replies);
    if AnswerBlocked(env, s.world.blockedIPs, reply) then Answered(s, id, now, s.table, p, Blocked, None)
    else
      var failed := reply.rcode == RCODE_SERVER_FAILURE;
      var after := Answered(s, id, now, s.table, p, if failed then Failed else Forwarded, Some(reply));
      if CacheKeyForMessage(p.r.query).Some? && s.world.settings.enabled && !failed
      then after.(flights := s.flights[id := ToStore(p, reply)])
      else after
  }

  /** setCache, which reads the clock under the lock. */
  ghost predicate Store(s: State, t: State, id: nat, now: int) {
    && id in s.flights && s.flights[id].ToStore?
    && var ToStore(p, reply) := s.flights[id];
    && CacheKeyForMessage(p.r.query).Some?
    && MayStore(s.table, t.table, s.world.settings, CacheKeyForMessage(p.r.query).value, reply, now)
    && t == State(s.world, t.table, now, s.rate, s.flights - {id}, s.given)
  }

  /** A guarded request that answered 2xx, validated and saved: the cache is cleared. */
  ghost predicate GuardedChange(s: State, t: State) {
    && s.flights == map[]
    && t == State(t.world, map[], t.clock, s.rate, map[], s.given) && s.clock <= t.clock
  }

  /** Changes that leave the cache alone: a guarded request whose handler edits and then fails (the ones
      that exist touch names and whitelists only), or a blocklist refresh. */
  ghost predicate OtherChange(s: State, t: State) {
    && s.flights == map[]
    && t == State(t.world, s.table, t.clock, s.rate, map[], s.given) && s.clock <= t.clock
    && t.world.settings == s.world.settings && t.world.blockedIPs == s.world.blockedIPs
  }

  ghost predicate Arrives(s: State, t: State, id: nat) {
    id !in s.flights && exists r :: t == Arrive(s, id, r, t.clock)
  }

  ghost predicate Passes(env: Env, s: State, t: State, id: nat) {
    && id in s.flights && s.flights[id].Admitted?
    && exists chosen, replies ::
      && Decision.MayChoose(s.world.policy, env.parser, s.flights[id].r.ip, chosen)
      && t == PassGate(env, s, id, t.clock, chosen, replies)
  }

  ghost predicate ReadsClock(s: State, t: State, id: nat) {
    id in s.flights && s.flights[id].AtClock? && t == ReadClock(s, id, t.clock)
  }

  ghost predicate AsksCache(env: Env, s: State, t: State, id: nat) {
    MayAskCache(s, id) && t == AskCache(env, s, id, t.clock)
  }

  ghost predicate AsksUpstream(env: Env, s: State, t: State, id: nat) {
    id in s.flights && s.flights[id].AtUpstream? && exists replies :: t == AskUpstream(env, s, id, t.clock, replies)
  }

  ghost predicate QueryStep(env: Env, s: State, t: State, id: nat) {
    && s.clock <= t.clock
    && (Arrives(s, t, id) || Limit(s, t, id, t.clock) || Passes(env, s, t, id) || ReadsClock(s, t, id) ||
        AsksCache(env, s, t, id) || AsksUpstream(env, s, t, id) || Store(s, t, id, t.clock))
  }

  ghost predicate Step(env: Env, s: State, t: State) {
    (exists id :: QueryStep(env, s, t, id)) || GuardedChange(s, t) || OtherChange(s, t)
  }

  const EMPTY_LOG := RateLimit.Log(map[], [], map[])

  ghost predicate IsRun(env: Env, run: seq<State>) {
    && run != []
    && run[0].table == map[] && run[0].rate == EMPTY_LOG && run[0].flights == map[] && run[0].given == []
    && forall i :: 0 <= i < |run| - 1 ==> Step(env, run[i], run[i + 1])
  }

  // ---- what holds throughout ----

  /** The message answers the question its key was rendered from. */
  ghost predicate AnswersKey(key: string, m: Msg) {
    exists q: Query :: CacheKeyForMessage(q) == Some(key) && ValidUpstreamResponse(q, m)
  }

  ghost predicate GoodEntry(env: Env, w: World, clock: int, key: string, e: Stored) {
    && AnswersKey(key, e.msg)
    && e.msg.rcode != RCODE_SERVER_FAILURE
    && !AnswerBlocked(env, w.blockedIPs, e.msg)
    && e.storedAt <= clock
    && e.expiresAt == e.storedAt + LifetimeOf(e.msg, w.settings.ttl * SECOND)
    && LifetimeOf(e.msg, w.settings.ttl * SECOND) > 0
  }

  /** Call n of the limiter was this client's, under these settings, and one too many or not. */
  ghost predicate IsCall(visits: seq<RateLimit.Visit>, n: nat, limit: RateLimit.Settings, ip: string, over: bool) {
    && n < |visits| && visits[n].ip == ip && visits[n].queries == limit.queries
    && visits[n].cutoff == limit.Cutoff(visits[n].readAt)
    && RateLimit.Exceeds(visits, n) == over
  }

  ghost predicate PassedLimiter(visits: seq<RateLimit.Visit>, w: World, r: Request, visit: Option<nat>) {
    w.limit.Applies(r.ip) ==> visit.Some? && IsCall(visits, visit.value, w.limit, r.ip, false)
  }

  ghost predicate StoppedByLimiter(visits: seq<RateLimit.Visit>, w: World, r: Request, visit: Option<nat>) {
    w.limit.Applies(r.ip) && visit.Some? && IsCall(visits, visit.value, w.limit, r.ip, true)
  }

  /** The profile is one the policy gives the client, and under it the name is blocked, or not. */
  ghost predicate Decided(env: Env, w: World, p: Passage, blocked: bool) {
    && p.chosen.Some? && Decision.MayChoose(w.policy, env.parser, p.r.ip, p.chosen.value)
    && Decision.Decide(env.engine, w.tables, w.index, w.policy, p.chosen.value, p.r.query.name).blocked == blocked
  }

  /** The query has one question, is not for the portal, and got past the limiter. */
  ghost predicate IsLet(visits: seq<RateLimit.Visit>, w: World, r: Request, visit: Option<nat>) {
    r.query.questions == 1 && !r.portal && PassedLimiter(visits, w, r, visit)
  }

  ghost predicate GoodPassage(env: Env, w: World, visits: seq<RateLimit.Visit>, p: Passage) {
    && IsLet(visits, w, p.r, p.visit) && ClientAllowed(env, w, p.r.ip) && !w.resolverDisabled
    && !p.r.safe && Decided(env, w, p, false) && !p.r.local
  }

  ghost predicate GoodFlight(env: Env, w: World, visits: seq<RateLimit.Visit>, clock: int, f: Flight) {
    match f
    case AtLimiter(r, readAt) => r.query.questions == 1 && !r.portal && w.limit.Applies(r.ip) && readAt <= clock
    case Admitted(r, visit) => IsLet(visits, w, r, visit)
    case AtClock(p) => GoodPassage(env, w, visits, p) && CacheKeyForMessage(p.r.query).Some?
    case AtCache(p, readAt) => GoodPassage(env, w, visits, p) && CacheKeyForMessage(p.r.query).Some? && readAt <= clock
    case AtUpstream(p) => GoodPassage(env, w, visits, p)
    case ToStore(p, reply) =>
      && GoodPassage(env, w, visits, p) && CacheKeyForMessage(p.r.query).Some?
      && ValidUpstreamResponse(p.r.query, reply) && reply.rcode != RCODE_SERVER_FAILURE
      && !AnswerBlocked(env, w.blockedIPs, reply)
  }

  /** The reply answers the question asked; a server failure says so; and where the resolver is enabled it holds no
      blocked address. */
  ghost predicate GoodReply(env: Env, w: World, q: Query, outcome: Outcome, reply: Msg) {
    && ValidUpstreamResponse(q, reply)
    && (!w.resolverDisabled ==>
        && !AnswerBlocked(env, w.blockedIPs, reply)
        && (outcome == Failed <==> reply.rcode == RCODE_SERVER_FAILURE))
  }

  /** Why a query was answered as it was. */
  ghost predicate GoodAnswer(env: Env, visits: seq<RateLimit.Visit>, g: Given) {
    var p, w, r := g.p, g.world, g.p.r;
    && (g.reply.Some? <==> g.outcome in {Cached, Forwarded, Failed})
    && match g.outcome
       case FormatError => r.query.questions != 1
       case Denied =>
         && r.query.questions == 1 && !r.portal
         && (StoppedByLimiter(visits, w, r, p.visit) ||
             (IsLet(visits, w, r, p.visit) && !ClientAllowed(env, w, r.ip) && !r.trolled))
       case Trolled => IsLet(visits, w, r, p.visit) && !ClientAllowed(env, w, r.ip) && r.trolled
       case Local =>
         && r.query.questions == 1
         && (r.portal ||
             (IsLet(visits, w, r, p.visit) && ClientAllowed(env, w, r.ip) && !w.resolverDisabled &&
              (r.safe || (Decided(env, w, p, false) && r.local))))
       case Blocked =>
         && IsLet(visits, w, r, p.visit) && ClientAllowed(env, w, r.ip) && !w.resolverDisabled && !r.safe
         && (Decided(env, w, p, true) || (Decided(env, w, p, false) && !r.local && |w.blockedIPs| > 0))
       case _ =>
         && IsLet(visits, w, r, p.visit) && ClientAllowed(env, w, r.ip)
         && GoodReply(env, w, r.query, g.outcome, g.reply.value)
         && (w.resolverDisabled ==> g.outcome == Forwarded)
         && (!w.resolverDisabled ==> !r.safe && Decided(env, w, p, false) && !r.local)
  }

  ghost predicate Inv(env: Env, s: State) {
    && |s.table| <= Bound(s.world.settings)
    && RateLimit.LogInv(s.rate)
    && (forall key :: key in s.table ==> GoodEntry(env, s.world, s.clock, key, s.table[key]))
    && (forall id :: id in s.flights ==> GoodFlight(env, s.world, s.rate.visits, s.clock, s.flights[id]))
    && (forall i :: 0 <= i < |s.given| ==> GoodAnswer(env, s.rate.visits, s.given[i]))
  }

  lemma AgeingKeepsAddresses(env: Env, blockedIPs: seq<string>, m: Msg, e: Uint32)
    ensures AnswerBlocked(env, blockedIPs, Aged(m, e)) == AnswerBlocked(env, blockedIPs, m)
  {
    hide AddressBlocked;
    assert forall k :: 0 <= k < |m.answer| ==> AddressOf(Aged(m, e).answer[k]) == AddressOf(m.answer[k]);
  }

  lemma HitIsUnblocked(env: Env, s: State, key: string, readAt: int)
    requires Inv(env, s) && Looked(s.table, s.world.settings, key, readAt).1.Some?
    ensures !AnswerBlocked(env, s.world.blockedIPs, Looked(s.table, s.world.settings, key, readAt).1.value)
  {
    hide Aged, Elapsed, AnswerBlocked, RateLimit.LogInv, GoodFlight, GoodAnswer, LifetimeOf, AnswersKey;
    var e := s.table[key];
    assert GoodEntry(env, s.world, s.clock, key, e);
    AgeingKeepsAddresses(env, s.world.blockedIPs, e.msg, Elapsed(e.storedAt, readAt));
  }

  lemma SameKeySameQuestion(p: Query, q: Query)
    requires CacheKeyForMessage(p).Some? && CacheKeyForMessage(p) == CacheKeyForMessage(q)
    ensures p.questions == 1 && Lower(p.name) == Lower(q.name) && p.qtype == q.qtype && p.qclass == q.qclass
  {
    hide Render, Fields;
    KeyIsIdentity(p, q);
  }

  lemma EntryAnswers(env: Env, s: State, q: Query)
    requires Inv(env, s) && CacheKeyForMessage(q).Some? && CacheKeyForMessage(q).value in s.table
    ensures var m := s.table[CacheKeyForMessage(q).value].msg;
      && |m.question| == 1 && Lower(m.question[0].name) == Lower(q.name)
      && m.question[0].qtype == q.qtype && m.question[0].qclass == q.qclass
  {
    hide AnswerBlocked, LifetimeOf, CacheKeyForMessage, RateLimit.LogInv, GoodFlight, GoodAnswer;
    var key := CacheKeyForMessage(q).value;
    assert GoodEntry(env, s.world, s.clock, key, s.table[key]);
    var p: Query :| CacheKeyForMessage(p) == Some(key) && ValidUpstreamResponse(p, s.table[key].msg);
    SameKeySameQuestion(p, q);
  }

  // ---- every step keeps it ----

  lemma EntriesAge(env: Env, w: World, c: int, d: int, key: string, e: Stored)
    requires GoodEntry(env, w, c, key, e) && c <= d
    ensures GoodEntry(env, w, d, key, e)
  {
    hide AnswersKey, AnswerBlocked, LifetimeOf;
  }

  lemma FlightsAge(env: Env, w: World, visits: seq<RateLimit.Visit>, c: int, d: int, f: Flight)
    requires GoodFlight(env, w, visits, c, f) && c <= d
    ensures GoodFlight(env, w, visits, d, f)
  {
    hide GoodPassage, PassedLimiter, AnswerBlocked, CacheKeyForMessage, ValidUpstreamResponse;
  }

  lemma OnlyGivenGrows(env: Env, visits: seq<RateLimit.Visit>, given: seq<Given>, g: Given)
    requires forall i :: 0 <= i < |given| ==> GoodAnswer(env, visits, given[i])
    requires GoodAnswer(env, visits, g)
    ensures forall i :: 0 <= i < |given + [g]| ==> GoodAnswer(env, visits, (given + [g])[i])
  {
    hide GoodAnswer;
  }

  predicate OnlyDrops(t: Table, kept: Table) {
    kept == t || exists k :: k in t && kept == t - {k}
  }

  /** Time passing and the table losing an entry keep the invariant; */
  lemma DroppingKeepsInv(env: Env, s: State, now: int, table: Table)
    requires Inv(env, s) && s.clock <= now && OnlyDrops(s.table, table)
    ensures Inv(env, s.(clock := now, table := table))
  {
    hide GoodEntry, GoodFlight, GoodAnswer, RateLimit.LogInv;
    TableShrinks(s.table, table);
    forall key | key in table ensures GoodEntry(env, s.world, now, key, table[key]) {
      EntriesAge(env, s.world, s.clock, now, key, s.table[key]);
    }
    forall id | id in s.flights ensures GoodFlight(env, s.world, s.rate.visits, now, s.flights[id]) {
      FlightsAge(env, s.world, s.rate.visits, s.clock, now, s.flights[id]);
    }
  }

  /** so do answering */
  lemma AnsweredKeepsInv(env: Env, s: State, id: nat, now: int, table: Table, p: Passage, outcome: Outcome,
                         reply: Option<Msg>)
    requires Inv(env, s) && s.clock <= now && OnlyDrops(s.table, table)
    requires GoodAnswer(env, s.rate.visits, Given(p, s.world, outcome, reply))
    ensures Inv(env, Answered(s, id, now, table, p, outcome, reply))
  {
    DroppingKeepsInv(env, s, now, table);
    hide GoodEntry, GoodFlight, GoodAnswer, RateLimit.LogInv;
    OnlyGivenGrows(env, s.rate.visits, s.given, Given(p, s.world, outcome, reply));
  }

  /** and moving on. */
  lemma OnItsWayKeepsInv(env: Env, s: State, id: nat, now: int, table: Table, f: Flight)
    requires Inv(env, s) && s.clock <= now && OnlyDrops(s.table, table)
    requires GoodFlight(env, s.world, s.rate.visits, now, f)
    ensures Inv(env, OnItsWay(s, id, now, table, f))
  {
    DroppingKeepsInv(env, s, now, table);
    hide GoodEntry, GoodFlight, GoodAnswer, RateLimit.LogInv;
  }

  lemma TableShrinks(t: Table, kept: Table)
    requires OnlyDrops(t, kept)
    ensures |kept| <= |t| && forall key :: key in kept ==> key in t && kept[key] == t[key]
  {
    if kept != t {
      var k :| k in t && kept == t - {k};
      assert kept.Keys == t.Keys - {k};
    }
  }

  lemma ArriveKeepsInv(env: Env, s: State, id: nat, r: Request, now: int)
    requires Inv(env, s) && s.clock <= now
    ensures Inv(env, Arrive(s, id, r, now))
  {
    hide Inv, RateLimit.Settings.Applies, Decided, ClientAllowed, IsCall;
    var p := Passage(r, None, None);
    if r.query.questions != 1 {
      AnsweredKeepsInv(env, s, id, now, s.table, p, FormatError, None);
    } else if r.portal {
      AnsweredKeepsInv(env, s, id, now, s.table, p, Local, None);
    } else {
      OnItsWayKeepsInv(env, s, id, now, s.table,
                       if s.world.limit.Applies(r.ip) then AtLimiter(r, now) else Admitted(r, None));
    }
  }

  lemma CallStays(visits: seq<RateLimit.Visit>, v: RateLimit.Visit, n: nat, limit: RateLimit.Settings, ip: string,
                  over: bool)
    requires n < |visits|
    ensures IsCall(visits + [v], n, limit, ip, over) == IsCall(visits, n, limit, ip, over)
  {
    hide RateLimit.Settings.Cutoff, RateLimit.Standing;
    assert (visits + [v])[..n] == visits[..n];
  }

  lemma LimiterStays(visits: seq<RateLimit.Visit>, v: RateLimit.Visit, w: World, r: Request, visit: Option<nat>)
    ensures PassedLimiter(visits, w, r, visit) ==> PassedLimiter(visits + [v], w, r, visit)
    ensures StoppedByLimiter(visits, w, r, visit) ==> StoppedByLimiter(visits + [v], w, r, visit)
  {
    hide RateLimit.Settings.Applies, RateLimit.Settings.Cutoff, RateLimit.Exceeds;
    if visit.Some? && visit.value < |visits| {
      CallStays(visits, v, visit.value, w.limit, r.ip, false);
      CallStays(visits, v, visit.value, w.limit, r.ip, true);
    }
  }

  lemma AnswersStay(env: Env, visits: seq<RateLimit.Visit>, v: RateLimit.Visit, g: Given)
    requires GoodAnswer(env, visits, g)
    ensures GoodAnswer(env, visits + [v], g)
  {
    hide PassedLimiter, StoppedByLimiter, Decided, ClientAllowed, GoodReply;
    LimiterStays(visits, v, g.world, g.p.r, g.p.visit);
  }

  lemma FlightsStay(env: Env, w: World, visits: seq<RateLimit.Visit>, v: RateLimit.Visit, clock: int, f: Flight)
    requires GoodFlight(env, w, visits, clock, f)
    ensures GoodFlight(env, w, visits + [v], clock, f)
  {
    hide PassedLimiter, StoppedByLimiter, Decided, AnswerBlocked, ClientAllowed, ValidUpstreamResponse,
         RateLimit.Settings.Applies, CacheKeyForMessage;
    var visit := if f.AtLimiter? then None else if f.Admitted? then f.visit else f.p.visit;
    LimiterStays(visits, v, w, if f.AtLimiter? || f.Admitted? then f.r else f.p.r, visit);
  }

  lemma RateKeepsInv(env: Env, s: State, rate: RateLimit.Log, ip: string, readAt: int, limited: bool)
    requires Inv(env, s) && RateLimit.LogStep(s.world.limit, s.rate, rate, ip, readAt, limited)
    ensures Inv(env, s.(rate := rate))
    ensures IsCall(rate.visits, |s.rate.visits|, s.world.limit, ip, limited)
  {
    hide RateLimit.LogStep, RateLimit.LogInv, RateLimit.Exceeds, RateLimit.Settings.Cutoff, GoodEntry, GoodFlight,
         GoodAnswer;
    RateLimit.LogStepCounts(s.world.limit, s.rate, rate, ip, readAt, limited);
    var v := rate.visits[|s.rate.visits|];
    assert rate.visits == s.rate.visits + [v];
    forall i | 0 <= i < |s.given| ensures GoodAnswer(env, rate.visits, s.given[i]) {
      AnswersStay(env, s.rate.visits, v, s.given[i]);
    }
    forall id | id in s.flights ensures GoodFlight(env, s.world, rate.visits, s.clock, s.flights[id]) {
      FlightsStay(env, s.world, s.rate.visits, v, s.clock, s.flights[id]);
    }
  }

  lemma LimitKeepsInv(env: Env, s: State, t: State, id: nat)
    requires Inv(env, s) && s.clock <= t.clock && Limit(s, t, id, t.clock)
    ensures Inv(env, t)
  {
    hide Inv, IsCall, RateLimit.LogStep, RateLimit.Settings.Applies, Decided, ClientAllowed, GoodReply;
    var AtLimiter(r, readAt) := s.flights[id];
    var limited: bool, rate :| RateLimit.LogStep(s.world.limit, s.rate, rate, r.ip, readAt, limited)
      && t == Judged(s.(rate := rate), id, t.clock, r, |s.rate.visits|, limited);
    RateKeepsInv(env, s, rate, r.ip, readAt, limited);
    FlightOf(env, s, id);
    var after, p := s.(rate := rate), Passage(r, Some(|s.rate.visits|), None);
    if limited {
      AnsweredKeepsInv(env, after, id, t.clock, s.table, p, Denied, None);
    } else {
      OnItsWayKeepsInv(env, after, id, t.clock, s.table, Admitted(r, Some(|s.rate.visits|)));
    }
  }

  lemma FlightOf(env: Env, s: State, id: nat)
    requires Inv(env, s) && id in s.flights
    ensures GoodFlight(env, s.world, s.rate.visits, s.clock, s.flights[id])
  {
    hide GoodEntry, GoodFlight, GoodAnswer, RateLimit.LogInv;
  }

  lemma PassGateKeepsInv(env: Env, s: State, id: nat, now: int, chosen: Decision.Chosen, replies: seq<Option<Msg>>)
    requires Inv(env, s) && s.clock <= now
    requires id in s.flights && s.flights[id].Admitted?
    requires Decision.MayChoose(s.world.policy, env.parser, s.flights[id].r.ip, chosen)
    ensures Inv(env, PassGate(env, s, id, now, chosen, replies))
  {
    hide Inv, AnswerBlocked, Decision.Decide, Decision.MayChoose, CacheKeyForMessage, ClientAllowed, PassedLimiter,
         StoppedByLimiter, ValidUpstreamResponse, Answered, OnItsWay;
    FlightOf(env, s, id);
    var Admitted(r, visit) := s.flights[id];
    var p := Passage(r, visit, Some(chosen));
    match GateOf(env, s.world, r, chosen)
    case Stop(outcome) =>
      AnsweredKeepsInv(env, s, id, now, s.table, p, outcome, None);
    case PassThrough =>
      ForwardIsValid(r.query, replies);
      AnsweredKeepsInv(env, s, id, now, s.table, p, Forwarded, Some(Forward(r.query, replies)));
    case Proceed =>
      OnItsWayKeepsInv(env, s, id, now, s.table,
                       if CacheKeyForMessage(r.query).Some? then AtClock(p) else AtUpstream(p));
  }

  lemma ReadClockKeepsInv(env: Env, s: State, id: nat, now: int)
    requires Inv(env, s) && s.clock <= now && id in s.flights && s.flights[id].AtClock?
    ensures Inv(env, ReadClock(s, id, now))
  {
    hide Inv, GoodPassage, CacheKeyForMessage;
    FlightOf(env, s, id);
    OnItsWayKeepsInv(env, s, id, now, s.table, AtCache(s.flights[id].p, now));
  }

  lemma PassageIsGood(env: Env, w: World, visits: seq<RateLimit.Visit>, p: Passage, outcome: Outcome, reply: Msg)
    requires GoodPassage(env, w, visits, p) && outcome in {Cached, Forwarded, Failed}
    requires ValidUpstreamResponse(p.r.query, reply) && !AnswerBlocked(env, w.blockedIPs, reply)
    requires outcome == Failed <==> reply.rcode == RCODE_SERVER_FAILURE
    ensures GoodAnswer(env, visits, Given(p, w, outcome, Some(reply)))
  {
    hide AnswerBlocked, Decided, ValidUpstreamResponse, ClientAllowed, PassedLimiter;
  }

  lemma BlockedIsGood(env: Env, w: World, visits: seq<RateLimit.Visit>, p: Passage, reply: Msg)
    requires GoodPassage(env, w, visits, p) && AnswerBlocked(env, w.blockedIPs, reply)
    ensures GoodAnswer(env, visits, Given(p, w, Blocked, None))
  {
    hide Decided, ValidUpstreamResponse, ClientAllowed, PassedLimiter;
  }

  lemma ReaddressedKeepsAddresses(env: Env, blockedIPs: seq<string>, m: Msg, q: Query)
    ensures AnswerBlocked(env, blockedIPs, Readdressed(m, q)) == AnswerBlocked(env, blockedIPs, m)
  {
    hide AddressBlocked;
  }

  lemma LookingOnlyDrops(t: Table, s: Settings, key: string, readAt: int)
    ensures OnlyDrops(t, Looked(t, s, key, readAt).0)
  {
    hide Aged, Elapsed;
  }

  lemma HitKeepsQuestion(env: Env, s: State, q: Query, readAt: int)
    requires Inv(env, s) && CacheKeyForMessage(q).Some?
    requires Looked(s.table, s.world.settings, CacheKeyForMessage(q).value, readAt).1.Some?
    ensures var m := Looked(s.table, s.world.settings, CacheKeyForMessage(q).value, readAt).1.value;
      ValidUpstreamResponse(q, Readdressed(m, q))
  {
    hide Inv, AgedRecords, Elapsed;
    EntryAnswers(env, s, q);
  }

  lemma HitIsNoFailure(env: Env, s: State, key: string, q: Query, readAt: int)
    requires Inv(env, s) && Looked(s.table, s.world.settings, key, readAt).1.Some?
    ensures Readdressed(Looked(s.table, s.world.settings, key, readAt).1.value, q).rcode != RCODE_SERVER_FAILURE
  {
    hide AgedRecords, Elapsed, GoodFlight, GoodAnswer, RateLimit.LogInv, AnswersKey, AnswerBlocked, LifetimeOf;
    assert GoodEntry(env, s.world, s.clock, key, s.table[key]);
  }

  lemma AskCacheKeepsInv(env: Env, s: State, id: nat, now: int)
    requires Inv(env, s) && s.clock <= now && MayAskCache(s, id)
    ensures Inv(env, AskCache(env, s, id, now))
  {
    hide Inv, AnswerBlocked, GoodPassage, CacheKeyForMessage, Looked, ValidUpstreamResponse, Readdressed, GoodAnswer,
         Answered, OnItsWay, OnlyDrops;
    var AtCache(p, readAt) := s.flights[id];
    FlightOf(env, s, id);
    var key := CacheKeyForMessage(p.r.query).value;
    var (table, hit) := Looked(s.table, s.world.settings, key, readAt);
    LookingOnlyDrops(s.table, s.world.settings, key, readAt);
    match hit
    case None =>
      OnItsWayKeepsInv(env, s, id, now, table, AtUpstream(p));
    case Some(m) =>
      if AnswerBlocked(env, s.world.blockedIPs, m) {
        BlockedIsGood(env, s.world, s.rate.visits, p, m);
        AnsweredKeepsInv(env, s, id, now, table, p, Blocked, None);
      } else {
        HitKeepsQuestion(env, s, p.r.query, readAt);
        HitIsNoFailure(env, s, key, p.r.query, readAt);
        ReaddressedKeepsAddresses(env, s.world.blockedIPs, m, p.r.query);
        PassageIsGood(env, s.world, s.rate.visits, p, Cached, Readdressed(m, p.r.query));
        AnsweredKeepsInv(env, s, id, now, table, p, Cached, Some(Readdressed(m, p.r.query)));
      }
  }

  lemma OneQuestion(env: Env, w: World, visits: seq<RateLimit.Visit>, p: Passage)
    requires GoodPassage(env, w, visits, p)
    ensures p.r.query.questions == 1
  {
    hide Decided, ClientAllowed, PassedLimiter;
  }

  lemma AskUpstreamKeepsInv(env: Env, s: State, id: nat, now: int, replies: seq<Option<Msg>>)
    requires Inv(env, s) && s.clock <= now
    requires id in s.flights && s.flights[id].AtUpstream?
    ensures Inv(env, AskUpstream(env, s, id, now, replies))
  {
    hide Inv, AnswerBlocked, GoodPassage, CacheKeyForMessage, ValidUpstreamResponse, GoodAnswer, Forward;
    var p := s.flights[id].p;
    FlightOf(env, s, id);
    OneQuestion(env, s.world, s.rate.visits, p);
    var reply := Forward(p.r.query, replies);
    ForwardIsValid(p.r.query, replies);
    if AnswerBlocked(env, s.world.blockedIPs, reply) {
      BlockedIsGood(env, s.world, s.rate.visits, p, reply);
      AnsweredKeepsInv(env, s, id, now, s.table, p, Blocked, None);
    } else {
      var failed := reply.rcode == RCODE_SERVER_FAILURE;
      var outcome := if failed then Failed else Forwarded;
      PassageIsGood(env, s.world, s.rate.visits, p, outcome, reply);
      AnsweredKeepsInv(env, s, id, now, s.table, p, outcome, Some(reply));
      if CacheKeyForMessage(p.r.query).Some? && s.world.settings.enabled && !failed {
        FlightJoins(env, Answered(s, id, now, s.table, p, outcome, Some(reply)), id, ToStore(p, reply));
        assert s.flights[id := ToStore(p, reply)] == (s.flights - {id})[id := ToStore(p, reply)];
      }
    }
  }

  lemma FlightJoins(env: Env, s: State, id: nat, f: Flight)
    requires Inv(env, s) && GoodFlight(env, s.world, s.rate.visits, s.clock, f)
    ensures Inv(env, s.(flights := s.flights[id := f]))
  {
    hide GoodEntry, GoodFlight, GoodAnswer, RateLimit.LogInv;
  }

  lemma StoreKeepsInv(env: Env, s: State, t: State, id: nat)
    requires Inv(env, s) && s.clock <= t.clock && Store(s, t, id, t.clock)
    ensures Inv(env, t)
  {
    hide AnswerBlocked, CacheKeyForMessage, ValidUpstreamResponse, LifetimeOf, GoodAnswer, GoodPassage, GoodFlight,
         RateLimit.LogInv, MayStore, GoodEntry;
    var ToStore(p, reply) := s.flights[id];
    var key := CacheKeyForMessage(p.r.query).value;
    var settings := s.world.settings;
    StoreKeepsSize(s.table, t.table, settings, key, reply, t.clock);
    forall k | k in t.table ensures GoodEntry(env, s.world, t.clock, k, t.table[k]) {
      StoredOrKept(s.table, t.table, settings, key, reply, t.clock, k);
      if k in s.table && t.table[k] == s.table[k] {
        EntriesAge(env, s.world, s.clock, t.clock, k, s.table[k]);
      } else {
        ReplyIsGoodEntry(env, s, id, t.clock);
      }
    }
    forall k | k in t.flights ensures GoodFlight(env, s.world, s.rate.visits, t.clock, t.flights[k]) {
      FlightsAge(env, s.world, s.rate.visits, s.clock, t.clock, s.flights[k]);
    }
  }

  lemma ReplyIsGoodEntry(env: Env, s: State, id: nat, now: int)
    requires Inv(env, s) && id in s.flights && s.flights[id].ToStore?
    requires CacheKeyForMessage(s.flights[id].p.r.query).Some?
    requires LifetimeOf(s.flights[id].reply, s.world.settings.ttl * SECOND) > 0
    ensures var ToStore(p, reply) := s.flights[id];
      var lifetime := LifetimeOf(reply, s.world.settings.ttl * SECOND);
      GoodEntry(env, s.world, now, CacheKeyForMessage(p.r.query).value, Stored(reply, now, now + lifetime))
  {
    hide Inv, AnswerBlocked, CacheKeyForMessage, ValidUpstreamResponse, LifetimeOf, GoodPassage;
    FlightOf(env, s, id);
    assert AnswersKey(CacheKeyForMessage(s.flights[id].p.r.query).value, s.flights[id].reply);
  }

  lemma StoredOrKept(t: Table, t': Table, s: Settings, key: string, m: Msg, now: int, k: string)
    requires MayStore(t, t', s, key, m, now) && k in t'
    ensures (k in t && t'[k] == t[k])
      || (k == key && t'[k] == Stored(m, now, now + LifetimeOf(m, s.ttl * SECOND)) && LifetimeOf(m, s.ttl * SECOND) > 0)
  {
    hide LifetimeOf;
  }

  lemma StepKeepsInv(env: Env, s: State, t: State)
    requires Inv(env, s) && Step(env, s, t)
    ensures Inv(env, t)
  {
    hide QueryStep, GoodEntry, GoodFlight, GoodAnswer, RateLimit.LogInv;
    if id :| QueryStep(env, s, t, id) {
      QueryStepKeepsInv(env, s, t, id);
    } else if GuardedChange(s, t) {
    } else {
      OtherChangeKeepsInv(env, s, t);
    }
  }

  lemma OtherChangeKeepsInv(env: Env, s: State, t: State)
    requires Inv(env, s) && OtherChange(s, t)
    ensures Inv(env, t)
  {
    hide AnswersKey, AnswerBlocked, LifetimeOf, GoodAnswer, RateLimit.LogInv;
    forall key | key in t.table ensures GoodEntry(env, t.world, t.clock, key, t.table[key]) {
      EntriesAge(env, s.world, s.clock, t.clock, key, s.table[key]);
    }
  }

  lemma QueryStepKeepsInv(env: Env, s: State, t: State, id: nat)
    requires Inv(env, s) && QueryStep(env, s, t, id)
    ensures Inv(env, t)
  {
    hide Inv, Arrive, Limit, PassGate, ReadClock, AskCache, AskUpstream, Store, MayAskCache, Decision.MayChoose;
    if Arrives(s, t, id) {
      var r :| t == Arrive(s, id, r, t.clock);
      ArriveKeepsInv(env, s, id, r, t.clock);
    } else if Limit(s, t, id, t.clock) {
      LimitKeepsInv(env, s, t, id);
    } else if Passes(env, s, t, id) {
      var chosen, replies :| Decision.MayChoose(s.world.policy, env.parser, s.flights[id].r.ip, chosen)
        && t == PassGate(env, s, id, t.clock, chosen, replies);
      PassGateKeepsInv(env, s, id, t.clock, chosen, replies);
    } else if ReadsClock(s, t, id) {
      ReadClockKeepsInv(env, s, id, t.clock);
    } else if AsksCache(env, s, t, id) {
      AskCacheKeepsInv(env, s, id, t.clock);
    } else if AsksUpstream(env, s, t, id) {
      var replies :| t == AskUpstream(env, s, id, t.clock, replies);
      AskUpstreamKeepsInv(env, s, id, t.clock, replies);
    } else {
      StoreKeepsInv(env, s, t, id);
    }
  }

  lemma StartIsGood(env: Env, s: State)
    requires s.table == map[] && s.rate == EMPTY_LOG && s.flights == map[] && s.given == []
    ensures Inv(env, s)
  {
    hide GoodEntry, GoodFlight, GoodAnswer;
    RateLimit.EmptyLog();
  }

  // ---- what a hit gives ----

  /** The entry a query at the cache is about to be given. */
  ghost predicate IsHit(s: State, id: nat, e: Stored) {
    && MayAskCache(s, id) && Found(s, id).1.Some?
    && e == s.table[CacheKeyForMessage(s.flights[id].p.r.query).value]
  }

  lemma HitIsLive(env: Env, s: State, id: nat, e: Stored)
    requires Inv(env, s) && IsHit(s, id, e)
    ensures MayAskCache(s, id)
    ensures var configured, readAt := s.world.settings.ttl * SECOND, s.flights[id].readAt;
      && LifetimeOf(e.msg, configured) > 0 && readAt < e.storedAt + LifetimeOf(e.msg, configured)
      && Found(s, id) == (s.table, Some(Aged(e.msg, Elapsed(e.storedAt, readAt))))
      && readAt - e.storedAt < configured
  {
    hide Aged, Elapsed, LifetimeOf, AnswersKey, AnswerBlocked, CacheKeyForMessage, GoodFlight, GoodAnswer,
         RateLimit.LogInv;
    LifetimeIsGreatest(e.msg, s.world.settings.ttl * SECOND);
  }

  /** m is the last answer given, and it came from the cache. */
  ghost predicate IsCachedAnswer(t: State, m: Msg) {
    t.given != [] && t.given[|t.given| - 1].outcome == Cached && t.given[|t.given| - 1].reply == Some(m)
  }

  lemma HitIsHanded(env: Env, s: State, t: State, id: nat, e: Stored) returns (m: Msg)
    requires Inv(env, s) && IsHit(s, id, e) && AsksCache(env, s, t, id)
    ensures m == Readdressed(Aged(e.msg, Elapsed(e.storedAt, s.flights[id].readAt)), s.flights[id].p.r.query)
    ensures t == Answered(s, id, t.clock, s.table, s.flights[id].p, Cached, Some(m))
  {
    hide Inv, Aged, Elapsed, LifetimeOf, AnswerBlocked, CacheKeyForMessage, Readdressed, Looked;
    HitIsLive(env, s, id, e);
    HitIsUnblocked(env, s, CacheKeyForMessage(s.flights[id].p.r.query).value, s.flights[id].readAt);
    m := Readdressed(Found(s, id).1.value, s.flights[id].p.r.query);
  }

  lemma HandedRecords(e: Stored, elapsed: Uint32, q: Query)
    ensures var m := Readdressed(Aged(e.msg, elapsed), q);
      && m.id == q.id && m.rcode == e.msg.rcode && m.truncated == e.msg.truncated
      && (|e.msg.question| == 1 ==> m.question == [Question(q.name, q.qtype, q.qclass)])
      && |m.answer| == |e.msg.answer| && |m.ns| == |e.msg.ns| && |m.extra| == |e.msg.extra|
      && m.answer == Aged(e.msg, elapsed).answer
      && m.Records() == Aged(e.msg, elapsed).Records() && |m.Records()| == |e.msg.Records()|
      && forall i :: 0 <= i < |m.Records()| ==> m.Records()[i] == e.msg.Records()[i].(ttl := m.Records()[i].ttl)
  {
    hide AgedTtl;
    forall i | 0 <= i < |e.msg.Records()|
      ensures Aged(e.msg, elapsed).Records()[i] ==
        e.msg.Records()[i].(ttl := Aged(e.msg, elapsed).Records()[i].ttl)
    {
    }
  }

  lemma FoundIsStored(s: State, id: nat)
    requires MayAskCache(s, id) && Found(s, id).1.Some?
    ensures CacheKeyForMessage(s.flights[id].p.r.query).value in s.table
  {
    hide CacheKeyForMessage, Aged, Elapsed;
  }

  lemma AddressMakesBlocked(env: Env, blockedIPs: seq<string>, ip: string, m: Msg, i: nat)
    requires i < |m.answer| && ip != "" && AddressOf(m.answer[i]) == ip
    ensures AnswerBlocked(env, blockedIPs + [ip], m)
  {
    var more := blockedIPs + [ip];
    assert more[|more| - 1] == ip;
    assert AddressBlocked(env, more, ip);
  }

  // ---- a reading that comes a second early ----

  const ASKED := Query(0, 1, "a", 1, 1, true, false, false, None)
  const ASKING := Request(ASKED, "c", false, false, false, false)
  const REPLY := Msg(0, 0, false, [Question("a", 1, 1)], [Record("a", A("x"), 60)], [], [])
  const OPEN_WORLD := World(Settings(true, 10, 60), [], [], false, false, false, Blocking.EMPTY_TABLES,
                            Decision.Index([], map[]), Decision.Policy(map[], map[], "", [], [], []),
                            RateLimit.Settings(false, 0, 0))
  const BY_DEFAULT := Decision.Chosen("default", None)
  const ON_WAY := Passage(ASKING, None, Some(BY_DEFAULT))

  lemma OpenGate(env: Env)
    ensures Decision.MayChoose(OPEN_WORLD.policy, env.parser, "c", BY_DEFAULT)
    ensures GateOf(env, OPEN_WORLD, ASKING, BY_DEFAULT) == Proceed
    ensures CacheKeyForMessage(ASKED).Some?
  {
    assert Decision.TableGives(OPEN_WORLD.policy, env.parser, "c", "");
    Decision.NothingBlocks(env.engine, BY_DEFAULT, "a");
  }

  lemma ReplyIsStored()
    ensures LifetimeOf(REPLY, 60 * SECOND) > 0
    ensures ValidUpstreamResponse(ASKED, REPLY) && Forward(ASKED, [Some(REPLY)]) == REPLY
  {
    LifetimeIsGreatest(REPLY, 60 * SECOND);
    assert REPLY.Records() == [REPLY.answer[0]];
  }

  /** Nothing stored or answered yet, at time 0. */
  function Scene(flights: map<nat, Flight>): State {
    State(OPEN_WORLD, map[], 0, EMPTY_LOG, flights, [])
  }

  lemma SceneArrives(env: Env, flights: map<nat, Flight>, id: nat)
    requires id !in flights
    ensures QueryStep(env, Scene(flights), Scene(flights[id := Admitted(ASKING, None)]), id)
  {
    hide Limit, Passes, ReadsClock, AsksCache, AsksUpstream, Store;
    assert Scene(flights[id := Admitted(ASKING, None)]) == Arrive(Scene(flights), id, ASKING, 0);
  }

  lemma ScenePasses(env: Env, flights: map<nat, Flight>, id: nat)
    requires id in flights && flights[id] == Admitted(ASKING, None)
    ensures QueryStep(env, Scene(flights), Scene(flights[id := AtClock(ON_WAY)]), id)
  {
    hide Arrives, Limit, ReadsClock, AsksCache, AsksUpstream, Store, GateOf, CacheKeyForMessage, Decision.MayChoose;
    OpenGate(env);
    assert Scene(flights[id := AtClock(ON_WAY)]) == PassGate(env, Scene(flights), id, 0, BY_DEFAULT, []);
  }

  lemma SceneReadsClock(env: Env, flights: map<nat, Flight>, id: nat)
    requires id in flights && flights[id] == AtClock(ON_WAY)
    ensures QueryStep(env, Scene(flights), Scene(flights[id := AtCache(ON_WAY, 0)]), id)
  {
    hide Arrives, Limit, Passes, AsksCache, AsksUpstream, Store;
  }

  lemma SceneMisses(env: Env, flights: map<nat, Flight>, id: nat)
    requires id in flights && flights[id] == AtCache(ON_WAY, 0)
    ensures QueryStep(env, Scene(flights), Scene(flights[id := AtUpstream(ON_WAY)]), id)
  {
    hide Arrives, Limit, Passes, ReadsClock, AsksUpstream, Store, GateOf, CacheKeyForMessage, AnswerBlocked;
    OpenGate(env);
    assert Scene(flights[id := AtUpstream(ON_WAY)]) == AskCache(env, Scene(flights), id, 0);
  }

  function Replied(flights: map<nat, Flight>): State {
    State(OPEN_WORLD, map[], 0, EMPTY_LOG, flights, [Given(ON_WAY, OPEN_WORLD, Forwarded, Some(REPLY))])
  }

  lemma SceneIsReplied(env: Env, flights: map<nat, Flight>, id: nat)
    requires id in flights && flights[id] == AtUpstream(ON_WAY)
    ensures QueryStep(env, Scene(flights), Replied(flights[id := ToStore(ON_WAY, REPLY)]), id)
  {
    hide Arrives, Limit, Passes, ReadsClock, AsksCache, Store, GateOf, CacheKeyForMessage, AnswerBlocked, Forward;
    OpenGate(env);
    ReplyIsStored();
    NoneBlocked(env);
    assert Replied(flights[id := ToStore(ON_WAY, REPLY)]) == AskUpstream(env, Scene(flights), id, 0, [Some(REPLY)]);
  }

  /** A second later, with the reply stored. */
  function Kept(e: Stored, flights: map<nat, Flight>): State
    requires CacheKeyForMessage(ASKED).Some?
  {
    Replied(flights).(table := map[CacheKeyForMessage(ASKED).value := e], clock := SECOND)
  }

  lemma RepliedIsKept(env: Env, flights: map<nat, Flight>, id: nat, e: Stored)
    requires id in flights && flights[id] == ToStore(ON_WAY, REPLY) && CacheKeyForMessage(ASKED).Some?
    requires e == Stored(REPLY, SECOND, SECOND + LifetimeOf(REPLY, 60 * SECOND))
    ensures QueryStep(env, Replied(flights), Kept(e, flights - {id}), id)
  {
    hide Arrives, Limit, Passes, ReadsClock, AsksCache, AsksUpstream, CacheKeyForMessage, LifetimeOf, MayStore;
    ReplyIsStored();
    FirstIsStored(CacheKeyForMessage(ASKED).value, e);
  }

  lemma RunGoesOn(env: Env, run: seq<State>, t: State, id: nat) returns (longer: seq<State>)
    requires IsRun(env, run) && QueryStep(env, run[|run| - 1], t, id)
    ensures IsRun(env, longer) && longer[|longer| - 1] == t
  {
    hide QueryStep;
    assert Step(env, run[|run| - 1], t);
    hide Step;
    longer := run + [t];
    forall i | 0 <= i < |longer| - 1 ensures Step(env, longer[i], longer[i + 1]) {
      if i < |run| - 1 {
        assert Step(env, run[i], run[i + 1]);
      }
    }
  }

  /** A query of the scene goes on until it has read the clock. */
  lemma SceneUpToClock(env: Env, run: seq<State>, flights: map<nat, Flight>, id: nat) returns (longer: seq<State>)
    requires IsRun(env, run) && run[|run| - 1] == Scene(flights) && id !in flights
    ensures IsRun(env, longer) && longer[|longer| - 1] == Scene(flights[id := AtCache(ON_WAY, 0)])
  {
    hide QueryStep, IsRun;
    var admitted: map<nat, Flight> := flights[id := Admitted(ASKING, None)];
    var atClock: map<nat, Flight> := admitted[id := AtClock(ON_WAY)];
    SceneArrives(env, flights, id);
    longer := RunGoesOn(env, run, Scene(admitted), id);
    ScenePasses(env, admitted, id);
    longer := RunGoesOn(env, longer, Scene(atClock), id);
    SceneReadsClock(env, atClock, id);
    longer := RunGoesOn(env, longer, Scene(atClock[id := AtCache(ON_WAY, 0)]), id);
    assert atClock[id := AtCache(ON_WAY, 0)] == flights[id := AtCache(ON_WAY, 0)];
  }

  lemma SceneStarts(env: Env)
    ensures IsRun(env, [Scene(map[])])
  {
  }

  lemma KeptIsHit(e: Stored, flights: map<nat, Flight>)
    requires e == Stored(REPLY, SECOND, SECOND + LifetimeOf(REPLY, 60 * SECOND))
    requires CacheKeyForMessage(ASKED).Some? && 0 in flights && flights[0] == AtCache(ON_WAY, 0)
    ensures IsHit(Kept(e, flights), 0, e)
  {
    hide CacheKeyForMessage, LifetimeOf, Aged, Elapsed;
    ReplyIsStored();
  }

  lemma AskCacheTells(env: Env, s: State, id: nat, now: int)
    requires MayAskCache(s, id)
    ensures AskCache(env, s, id, now).clock == now
  {
    hide Looked, AnswerBlocked, Readdressed, CacheKeyForMessage;
  }

  lemma NoneBlocked(env: Env)
    ensures !AnswerBlocked(env, [], REPLY)
  {
  }

  lemma FirstIsStored(key: string, e: Stored)
    requires LifetimeOf(REPLY, 60 * SECOND) > 0
    requires e == Stored(REPLY, SECOND, SECOND + LifetimeOf(REPLY, 60 * SECOND))
    ensures MayStore(map[], map[key := e], OPEN_WORLD.settings, key, REPLY, SECOND)
  {
    hide LifetimeOf;
    assert IsEviction(map[], map[], 10);
  }

  lemma OneSecondEarly()
    ensures Aged(REPLY, Elapsed(SECOND, 0)).answer == [REPLY.answer[0].(ttl := 0)]
  {
    assert Elapsed(SECOND, 0) == UINT32_SIZE - 1;
  }
}
