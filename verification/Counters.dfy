/** Global and per-client query counters, kept in two steps under two locks. */
module Counters {
  import Resolver
  import opened Text

  const MAX_TRACKED_CLIENTS: nat := 10_000

  /** What addStat and trackClient are told of a query. */
  datatype Action = Blocked | Local | Cached | Forwarded | Denied | Trolled | Error

  /** The last two are kept for clients only. */
  datatype Counter = CQueries | CBlocked | CLocal | CCached | CForwarded | CDenied | CTrolled
  {
    predicate Global() {
      !CDenied? && !CTrolled?
    }
  }

  datatype Stats = Stats(queries: nat, blocked: nat, local: nat, cached: nat, forwarded: nat) {
    function Get(c: Counter): nat
      requires c.Global()
    {
      match c
      case CQueries => queries
      case CBlocked => blocked
      case CLocal => local
      case CCached => cached
      case CForwarded => forwarded
    }
  }

  datatype Client = Client(counts: Stats, denied: nat, trolled: nat, lastSeen: int) {
    function Get(c: Counter): nat {
      match c
      case CDenied => denied
      case CTrolled => trolled
      case _ => counts.Get(c)
    }
  }

  const NEW_CLIENT := Client(Stats(0, 0, 0, 0, 0), 0, 0, 0)

  /** Whether a query with this action counts for c. */
  predicate Counts(action: Action, c: Counter) {
    match c
    case CQueries => true
    case CBlocked => action.Blocked?
    case CLocal => action.Local?
    case CCached => action.Cached?
    case CForwarded => action.Forwarded?
    case CDenied => action.Denied?
    case CTrolled => action.Trolled?
  }

  function One(action: Action, c: Counter): nat {
    if Counts(action, c) then 1 else 0
  }

  /** s with this query counted. */
  ghost predicate IsCounted(s: Stats, s': Stats, action: Action) {
    forall c: Counter :: c.Global() ==> s'.Get(c) == s.Get(c) + One(action, c)
  }

  /** The client's counters with this query counted. */
  ghost predicate IsCountedFor(client: Client, client': Client, action: Action) {
    forall c: Counter :: client'.Get(c) == client.Get(c) + One(action, c)
  }

  predicate Blank(ip: string) {
    TrimSpace(ip) == ""
  }

  ghost predicate OldestGone(clients: map<string, Client>, rest: map<string, Client>) {
    if clients == map[] then rest == clients
    else
      exists oldest :: oldest in clients && rest == clients - {oldest}
        && forall ip :: ip in clients ==> clients[oldest].lastSeen <= clients[ip].lastSeen
  }

  /** The clients with room made for ip if it is new. */
  ghost predicate RoomMade(clients: map<string, Client>, room: map<string, Client>, ip: string) {
    if ip in clients || |clients| < MAX_TRACKED_CLIENTS then room == clients else OldestGone(clients, room)
  }

  function Known(room: map<string, Client>, ip: string): Client {
    if ip in room then room[ip] else NEW_CLIENT
  }

  ghost predicate IsTracked(room: map<string, Client>, after: map<string, Client>, ip: string, action: Action,
                            now: int)
  {
    && ip in after && after == room[ip := after[ip]]
    && IsCountedFor(Known(room, ip), after[ip], action)
    && after[ip].lastSeen == now
  }

  ghost predicate MayTrack(clients: map<string, Client>, after: map<string, Client>, ip: string, action: Action,
                           now: int)
  {
    if Blank(ip) then after == clients
    else exists room :: RoomMade(clients, room, ip) && IsTracked(room, after, ip, action, now)
  }

  class Counting {
    var stats: Stats
    var clients: map<string, Client>

    constructor ()
      ensures stats == Stats(0, 0, 0, 0, 0) && clients == map[]
    {
      stats, clients := Stats(0, 0, 0, 0, 0), map[];
    }

    method AddStat(key: Action)
      modifies this`stats
      ensures IsCounted(old(stats), stats, key)
    {
      stats := Bump(stats, key);
    }

    method EvictOldestClient()
      modifies this`clients
      ensures OldestGone(old(clients), clients)
      ensures forall ip, kept :: ip in old(clients) && ip !in clients && kept in clients ==>
        old(clients)[ip].lastSeen <= clients[kept].lastSeen
    {
      if clients == map[] {
        return;
      }
      assert clients.Keys != {};
      var oldest :| oldest in clients;
      var rest := clients.Keys - {oldest};
      while rest != {}
        invariant rest <= clients.Keys && oldest in clients
        invariant forall ip :: ip in clients && ip !in rest ==> clients[oldest].lastSeen <= clients[ip].lastSeen
      {
        var ip :| ip in rest;
        if clients[ip].lastSeen < clients[oldest].lastSeen {
          oldest := ip;
        }
        rest := rest - {ip};
      }
      clients := clients - {oldest};
    }

    method TrackClient(ip: string, action: Action, now: int)
      modifies this`clients
      ensures MayTrack(old(clients), clients, ip, action, now)
      ensures ip in old(clients) || |old(clients)| < 10000 ==> old(clients.Keys) <= clients.Keys
    {
      hide OldestGone, TrimSpace, IsTracked, RoomMade, Bump;
      if TrimSpace(ip) == "" {
        return;
      }
      if ip !in clients && |clients| >= MAX_TRACKED_CLIENTS {
        EvictOldestClient();
      }
      ghost var room := clients;
      assert RoomMade(old(clients), room, ip) by { EvictedIsNotNew(old(clients), room, ip); }
      var c := if ip in clients then clients[ip] else NEW_CLIENT;
      c := Client(Bump(c.counts, action), c.denied + (if action.Denied? then 1 else 0),
                  c.trolled + (if action.Trolled? then 1 else 0), now);
      TrackedBy(room, ip, action, now);
      clients := clients[ip := c];
    }

    /** handleClearDeniedClients */
    method ClearDenied(allowed: string -> bool) returns (removed: nat)
      modifies this`clients
      ensures clients == map ip | ip in old(clients) && allowed(ip) :: old(clients)[ip]
      ensures removed == |old(clients)| - |clients|
    {
      ghost var before := clients;
      var rest := clients.Keys;
      removed := 0;
      while rest != {}
        invariant rest <= clients.Keys
        invariant forall ip :: ip in clients <==> ip in before && (ip in rest || allowed(ip))
        invariant forall ip :: ip in clients ==> clients[ip] == before[ip]
        invariant removed == |before| - |clients|
      {
        var ip :| ip in rest;
        if !allowed(ip) {
          ghost var was := clients;
          clients := clients - {ip};
          assert was.Keys == clients.Keys + {ip} && |was.Keys| == |was| && |clients.Keys| == |clients|;
          removed := removed + 1;
        }
        rest := rest - {ip};
      }
    }
  }

  function Bump(s: Stats, key: Action): (r: Stats)
    ensures IsCounted(s, r, key)
  {
    var r := s.(queries := s.queries + 1);
    match key
    case Blocked => r.(blocked := r.blocked + 1)
    case Local => r.(local := r.local + 1)
    case Cached => r.(cached := r.cached + 1)
    case Forwarded => r.(forwarded := r.forwarded + 1)
    case _ => r
  }

  lemma TrackedBy(room: map<string, Client>, ip: string, action: Action, now: int)
    ensures var k := Known(room, ip);
      var c := Client(Bump(k.counts, action), k.denied + (if action.Denied? then 1 else 0),
                      k.trolled + (if action.Trolled? then 1 else 0), now);
      IsTracked(room, room[ip := c], ip, action, now)
  {
  }

  lemma EvictedIsNotNew(clients: map<string, Client>, room: map<string, Client>, ip: string)
    requires if ip !in clients && |clients| >= MAX_TRACKED_CLIENTS then OldestGone(clients, room) else room == clients
    ensures RoomMade(clients, room, ip)
  {
  }

  // ---- sums over the entries of a map ----

  ghost function Sum<K(!new)>(m: map<K, nat>): nat
    decreases |m.Keys|
  {
    if m.Keys == {} then 0
    else
      var k :| k in m;
      assert (m - {k}).Keys == m.Keys - {k};
      m[k] + Sum(m - {k})
  }

  lemma {:induction false} SumAt<K(!new)>(m: map<K, nat>, k: K)
    requires k in m
    ensures Sum(m) == m[k] + Sum(m - {k})
    decreases |m.Keys|
  {
    var first :| first in m && Sum(m) == m[first] + Sum(m - {first});
    hide Sum;
    if first != k {
      assert (m - {first}).Keys == m.Keys - {first} && (m - {k}).Keys == m.Keys - {k};
      SumAt(m - {first}, k);
      SumAt(m - {k}, first);
      assert m - {first} - {k} == m - {k} - {first};
    }
  }

  /** Setting one entry changes the sum by the difference. */
  lemma SumSet<K(!new)>(m: map<K, nat>, k: K, v: nat)
    ensures Sum(m[k := v]) == Sum(m) - (if k in m then m[k] else 0) + v
  {
    var n := m[k := v];
    SumAt(n, k);
    if k in m {
      SumAt(m, k);
      assert n - {k} == m - {k};
    } else {
      assert n - {k} == m;
    }
  }

  function Column(clients: map<string, Client>, c: Counter): map<string, nat> {
    map ip | ip in clients :: clients[ip].Get(c)
  }

  /** m is put together from a and b. */
  ghost predicate Parts<K(!new)>(m: map<K, nat>, a: map<K, nat>, b: map<K, nat>) {
    && m.Keys == a.Keys + b.Keys && a.Keys !! b.Keys
    && (forall k :: k in a ==> a[k] == m[k])
    && (forall k :: k in b ==> b[k] == m[k])
  }

  lemma {:induction false} SumSplits<K(!new)>(m: map<K, nat>, a: map<K, nat>, b: map<K, nat>)
    requires Parts(m, a, b)
    ensures Sum(m) == Sum(a) + Sum(b)
    decreases |a.Keys|
  {
    hide Sum;
    if a.Keys == {} {
      SumOfNone(a);
      assert m == b;
    } else {
      var k :| k in a;
      SumAt(m, k);
      SumAt(a, k);
      PartsWithout(m, a, b, k);
      SumSplits(m - {k}, a - {k}, b);
    }
  }

  lemma SumOfNone<K(!new)>(m: map<K, nat>)
    requires m.Keys == {}
    ensures Sum(m) == 0
  {
  }

  lemma PartsWithout<K(!new)>(m: map<K, nat>, a: map<K, nat>, b: map<K, nat>, k: K)
    requires Parts(m, a, b) && k in a
    ensures Parts(m - {k}, a - {k}, b) && (a - {k}).Keys < a.Keys
    ensures |(a - {k}).Keys| < |a.Keys|
  {
    assert (a - {k}).Keys == a.Keys - {k} && (m - {k}).Keys == m.Keys - {k};
  }

  // ---- any number of queries, interleaved between their two steps ----

  /** What resolveDNS passes to addStat, */
  function StatKey(o: Resolver.Outcome): Action
    requires !o.FormatError?
  {
    match o
    case Local => Local
    case Denied => Denied
    case Trolled => Denied
    case Blocked => Blocked
    case Cached => Cached
    case Forwarded => Forwarded
    case Failed => Error
  }

  /** and to trackClient. */
  function ClientKey(o: Resolver.Outcome): Action
    requires !o.FormatError?
  {
    if o.Trolled? then Trolled else StatKey(o)
  }

  type Outcome = o: Resolver.Outcome | !o.FormatError? witness Resolver.Local

  /** A query counted globally and not yet for its client. */
  datatype Pending = Pending(ip: string, outcome: Outcome)

  /** history: the outcome of every query counted; gone: what evicted and removed clients, and queries
      without an address, had counted. */
  datatype State = State(stats: Stats, clients: map<string, Client>, pending: map<nat, Pending>,
                         history: seq<Outcome>, gone: Client)

  ghost predicate CountGlobally(s: State, t: State, id: nat, p: Pending) {
    && id !in s.pending
    && IsCounted(s.stats, t.stats, StatKey(p.outcome))
    && t == State(t.stats, s.clients, s.pending[id := p], s.history + [p.outcome], s.gone)
  }

  /** gone grows by the counts of the clients dropped. */
  ghost predicate Dropped(clients: map<string, Client>, rest: map<string, Client>, gone: Client, gone': Client) {
    && rest == clients - (clients.Keys - rest.Keys)
    && forall c: Counter :: gone'.Get(c) == gone.Get(c) + Sum(Column(clients - rest.Keys, c))
  }

  ghost predicate CountForClient(s: State, t: State, id: nat, now: int) {
    && id in s.pending
    && var Pending(ip, outcome) := s.pending[id];
    && t == State(s.stats, t.clients, s.pending - {id}, s.history, t.gone)
    && if Blank(ip) then t.clients == s.clients && IsCountedFor(s.gone, t.gone, ClientKey(outcome))
       else
         exists room :: RoomMade(s.clients, room, ip) && IsTracked(room, t.clients, ip, ClientKey(outcome), now)
           && Dropped(s.clients, room, s.gone, t.gone)
  }

  ghost predicate RemoveClients(s: State, t: State) {
    t == State(s.stats, t.clients, s.pending, s.history, t.gone) && Dropped(s.clients, t.clients, s.gone, t.gone)
  }

  ghost predicate Step(s: State, t: State) {
    || (exists id, p :: CountGlobally(s, t, id, p))
    || (exists id, now :: CountForClient(s, t, id, now))
    || RemoveClients(s, t)
  }

  const ZERO := Stats(0, 0, 0, 0, 0)

  ghost predicate IsRun(run: seq<State>) {
    && run != [] && run[0] == State(ZERO, map[], map[], [], NEW_CLIENT)
    && forall i :: 0 < i < |run| ==> Step(run[i - 1], run[i])
  }

  function Tally(history: seq<Outcome>, c: Counter): nat {
    if history == [] then 0 else Tally(history[..|history| - 1], c) + One(ClientKey(history[|history| - 1]), c)
  }

  /** Where both count, they count alike. */
  lemma KeysAgree(o: Outcome, c: Counter)
    requires c.Global()
    ensures One(StatKey(o), c) == One(ClientKey(o), c)
  {
  }

  function Waiting(pending: map<nat, Pending>, c: Counter): map<nat, nat> {
    map id | id in pending :: One(ClientKey(pending[id].outcome), c)
  }

  /** Every query counted globally is counted once more: in flight, at its client, or gone with it. */
  ghost predicate Balanced(s: State, c: Counter) {
    && (c.Global() ==> s.stats.Get(c) == Tally(s.history, c))
    && Tally(s.history, c) == Sum(Column(s.clients, c)) + Sum(Waiting(s.pending, c)) + s.gone.Get(c)
  }

  ghost predicate Inv(s: State) {
    |s.clients| <= MAX_TRACKED_CLIENTS && forall c: Counter :: Balanced(s, c)
  }

  lemma CountGloballyBalances(s: State, t: State, id: nat, p: Pending, c: Counter)
    requires Balanced(s, c) && CountGlobally(s, t, id, p)
    ensures Balanced(t, c)
  {
    if c.Global() {
      KeysAgree(p.outcome, c);
    }
    SumSet(Waiting(s.pending, c), id, One(ClientKey(p.outcome), c));
    assert Waiting(t.pending, c) == Waiting(s.pending, c)[id := One(ClientKey(p.outcome), c)];
    assert t.history[..|t.history| - 1] == s.history;
  }

  lemma DroppedBalances(clients: map<string, Client>, rest: map<string, Client>, gone: Client, gone': Client,
                        c: Counter)
    requires Dropped(clients, rest, gone, gone')
    ensures Sum(Column(clients, c)) + gone.Get(c) == Sum(Column(rest, c)) + gone'.Get(c)
  {
    SumSplits(Column(clients, c), Column(rest, c), Column(clients - rest.Keys, c));
  }

  lemma TrackedBalances(room: map<string, Client>, after: map<string, Client>, ip: string, action: Action, now: int,
                        c: Counter)
    requires IsTracked(room, after, ip, action, now)
    ensures Sum(Column(after, c)) == Sum(Column(room, c)) + One(action, c)
  {
    SumSet(Column(room, c), ip, after[ip].Get(c));
    assert Column(after, c) == Column(room, c)[ip := after[ip].Get(c)];
  }

  lemma LeavingBalances(pending: map<nat, Pending>, id: nat, c: Counter)
    requires id in pending
    ensures Sum(Waiting(pending, c)) == Sum(Waiting(pending - {id}, c)) + One(ClientKey(pending[id].outcome), c)
  {
    SumAt(Waiting(pending, c), id);
    assert Waiting(pending, c) - {id} == Waiting(pending - {id}, c);
  }

  lemma CountForClientBalances(s: State, t: State, id: nat, now: int, c: Counter)
    requires Balanced(s, c) && CountForClient(s, t, id, now)
    ensures Balanced(t, c)
  {
    hide RoomMade, IsTracked, Dropped, Blank, Column, Waiting, Tally;
    var Pending(ip, outcome) := s.pending[id];
    LeavingBalances(s.pending, id, c);
    if !Blank(ip) {
      var room :| RoomMade(s.clients, room, ip) && IsTracked(room, t.clients, ip, ClientKey(outcome), now)
        && Dropped(s.clients, room, s.gone, t.gone);
      DroppedBalances(s.clients, room, s.gone, t.gone, c);
      TrackedBalances(room, t.clients, ip, ClientKey(outcome), now, c);
    }
  }

  /** Room is made before a new client is added. */
  lemma TrackedWithinBound(clients: map<string, Client>, room: map<string, Client>, after: map<string, Client>,
                           ip: string, action: Action, now: int)
    requires |clients| <= MAX_TRACKED_CLIENTS
    requires RoomMade(clients, room, ip) && IsTracked(room, after, ip, action, now)
    ensures |after| <= MAX_TRACKED_CLIENTS
  {
  }

  lemma StepKeepsInv(s: State, t: State)
    requires Inv(s) && Step(s, t)
    ensures Inv(t)
  {
    hide Balanced, RoomMade, IsTracked, Blank;
    if id, p :| CountGlobally(s, t, id, p) {
      forall c: Counter ensures Balanced(t, c) {
        CountGloballyBalances(s, t, id, p, c);
      }
    } else if id, now :| CountForClient(s, t, id, now) {
      forall c: Counter ensures Balanced(t, c) {
        CountForClientBalances(s, t, id, now, c);
      }
      var Pending(ip, outcome) := s.pending[id];
      if !Blank(ip) {
        var room :| RoomMade(s.clients, room, ip) && IsTracked(room, t.clients, ip, ClientKey(outcome), now);
        TrackedWithinBound(s.clients, room, t.clients, ip, ClientKey(outcome), now);
      }
    } else {
      forall c: Counter ensures Balanced(t, c) {
        RemoveBalances(s, t, c);
      }
    }
  }

  lemma RemoveBalances(s: State, t: State, c: Counter)
    requires Balanced(s, c) && RemoveClients(s, t)
    ensures Balanced(t, c)
  {
    DroppedBalances(s.clients, t.clients, s.gone, t.gone, c);
  }

  lemma {:induction false} RunsKeepInv(run: seq<State>, n: nat)
    requires IsRun(run) && n < |run|
    ensures Inv(run[n])
  {
    if n > 0 {
      RunsKeepInv(run, n - 1);
      StepKeepsInv(run[n - 1], run[n]);
    } else {
      assert forall c: Counter :: Balanced(run[0], c);
    }
  }

  /** The outcome a counter is for; none for the number of queries. */
  function OutcomeFor(c: Counter): Outcome
    requires !c.CQueries?
  {
    match c
    case CBlocked => Resolver.Blocked
    case CLocal => Resolver.Local
    case CCached => Resolver.Cached
    case CForwarded => Resolver.Forwarded
    case CDenied => Resolver.Denied
    case CTrolled => Resolver.Trolled
  }

  lemma {:induction false} TallyIs(history: seq<Outcome>, c: Counter)
    ensures Tally(history, c) == if c.CQueries? then |history| else multiset(history)[OutcomeFor(c)]
  {
    if history != [] {
      var init, last := history[..|history| - 1], history[|history| - 1];
      TallyIs(init, c);
      assert history == init + [last];
    }
  }

  /** At every interleaving point: each global counter is the number of queries so far with its outcome; each is
      also counted in flight, at its client, or gone with its client, refused and trolled ones apart; and no column
      of the tracked clients sums to more than that. */
  lemma CountersAreConserved(run: seq<State>, n: nat, c: Counter)
    requires IsRun(run) && n < |run|
    ensures var s := run[n];
      var counted := if c.CQueries? then |s.history| else multiset(s.history)[OutcomeFor(c)];
      && (c.Global() ==> s.stats.Get(c) == counted)
      && counted == Sum(Column(s.clients, c)) + Sum(Waiting(s.pending, c)) + s.gone.Get(c)
      && Sum(Column(s.clients, c)) <= counted
      && |s.clients| <= 10000
  {
    RunsKeepInv(run, n);
    var s := run[n];
    hide Sum, Column, Waiting, Tally;
    assert Balanced(s, c);
    TallyIs(s.history, c);
  }

  /** The saved file takes the global counters at m and the clients at n. There the bound holds exactly when no
      more queries were counted in between than are, at n, still in flight or gone with their client. */
  lemma SavedBoundIff(run: seq<State>, m: nat, n: nat, c: Counter)
    requires IsRun(run) && m <= n < |run| && c.Global()
    ensures Sum(Column(run[n].clients, c)) <= run[m].stats.Get(c) <==>
      Tally(run[n].history, c) - Tally(run[m].history, c) <= Sum(Waiting(run[n].pending, c)) + run[n].gone.Get(c)
    ensures run[m].stats.Get(c) <= run[n].stats.Get(c)
  {
    hide Sum, Column, Waiting, Tally, Step;
    RunsKeepInv(run, m);
    RunsKeepInv(run, n);
    assert Balanced(run[m], c) && Balanced(run[n], c);
    HistoryGrows(run, m, n, c);
  }

  lemma {:induction false} HistoryGrows(run: seq<State>, m: nat, n: nat, c: Counter)
    requires IsRun(run) && m <= n < |run|
    ensures run[m].history <= run[n].history
    ensures Tally(run[m].history, c) <= Tally(run[n].history, c)
  {
    hide Dropped, IsTracked, RoomMade, Blank;
    if m < n {
      HistoryGrows(run, m, n - 1, c);
      var s, t := run[n - 1], run[n];
      assert Step(s, t);
      if id, p :| CountGlobally(s, t, id, p) {
        assert t.history[..|t.history| - 1] == s.history;
      }
    }
  }

  /** So it holds whenever no query was counted between the two copies, */
  lemma SavedBoundHoldsAtRest(run: seq<State>, m: nat, n: nat, c: Counter)
    requires IsRun(run) && m <= n < |run| && |run[m].history| == |run[n].history| && c.Global()
    ensures Sum(Column(run[n].clients, c)) <= run[m].stats.Get(c)
  {
    hide Sum, Column, Waiting, Tally, Step;
    SavedBoundIff(run, m, n, c);
    HistoryGrows(run, m, n, c);
    assert run[m].history == run[n].history;
  }

  /** and may fail otherwise: one query in between is enough. */
  lemma SavedClientsMayExceed(ip: string) returns (run: seq<State>)
    requires !Blank(ip)
    ensures IsRun(run) && |run| == 3
    ensures Sum(Column(run[2].clients, CQueries)) > run[0].stats.queries
  {
    var none: map<string, Client> := map[];
    var clients := none[ip := Client(Bump(ZERO, Local), 0, 0, 0)];
    var start := State(ZERO, none, map[], [], NEW_CLIENT);
    var mid := State(Bump(ZERO, Local), none, map[0 := Pending(ip, Resolver.Local)], [Resolver.Local],
                     NEW_CLIENT);
    var end := State(Bump(ZERO, Local), clients, map[], [Resolver.Local], NEW_CLIENT);
    run := [start, mid, end];
    assert CountGlobally(start, mid, 0, Pending(ip, Resolver.Local));
    assert IsTracked(none, clients, ip, Local, 0);
    NothingDropped();
    assert mid.pending - {0} == map[];
    hide Sum, Column, Blank, Dropped, IsTracked, IsCounted;
    assert CountForClient(mid, end, 0, 0);
    TrackedBalances(none, clients, ip, Local, 0, CQueries);
  }

  lemma NothingDropped()
    ensures Dropped(map[], map[], NEW_CLIENT, NEW_CLIENT)
  {
    var none: map<string, Client> := map[];
    assert none - (none.Keys - none.Keys) == none;
    forall c: Counter ensures Sum(Column(none - none.Keys, c)) == 0 {
      assert Column(none - none.Keys, c) == map[];
    }
  }
}
