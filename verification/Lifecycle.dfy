/** Registering servers and listeners while the process is being stopped: two nested locks, any interleaving. */
module Lifecycle {
  import opened Text

  datatype Item = DnsServer(id: nat) | HttpServer(id: nat) | HttpListener(id: nat) | ProxyListener(id: nat)

  /** The four registered lists. */
  datatype Servers = Servers(dns: seq<Item>, http: seq<Item>, listeners: seq<Item>, proxies: seq<Item>) {
    function Add(x: Item): Servers {
      match x
      case DnsServer(_) => this.(dns := dns + [x])
      case HttpServer(_) => this.(http := http + [x])
      case HttpListener(_) => this.(listeners := listeners + [x])
      case ProxyListener(_) => this.(proxies := proxies + [x])
    }

    function AddAll(items: seq<Item>): Servers
      decreases |items|
    {
      if items == [] then this else Add(items[0]).AddAll(items[1..])
    }

    /** In the order Stop closes them. */
    function All(): seq<Item> {
      dns + http + listeners + proxies
    }
  }

  // ---- the methods, one caller at a time ----

  class Registry {
    var stopped: bool
    var servers: Servers
    var closed: multiset<Item>
    /** Everything ever handed to a register method. */
    ghost var handed: multiset<Item>

    /** Until Stop the lists hold what was handed over and not closed; after it all is closed. */
    ghost predicate Valid()
      reads this
    {
      handed == closed + if stopped then multiset{} else multiset(servers.All())
    }

    constructor ()
      ensures Valid() && !stopped && servers == Servers([], [], [], []) && closed == multiset{} == handed
    {
      stopped, servers, closed, handed := false, Servers([], [], [], []), multiset{}, multiset{};
    }

    method RegisterDnsServer(server: Item)
      requires Valid() && server.DnsServer?
      modifies this
      ensures Valid() && stopped == old(stopped) && handed == old(handed) + multiset{server}
      ensures servers == if stopped then old(servers) else old(servers).(dns := old(servers).dns + [server])
    {
      Keep(server);
    }

    /** registerHTTPServer; a refused pair is closed listener first */
    method RegisterHttpServer(server: Item, listener: Option<Item>)
      requires Valid() && server.HttpServer? && (listener.Some? ==> listener.value.HttpListener?)
      modifies this
      ensures Valid() && stopped == old(stopped)
      ensures handed == old(handed) + multiset{server} + if listener.Some? then multiset{listener.value} else multiset{}
      ensures servers == if stopped then old(servers) else
        var listed := old(servers).(http := old(servers).http + [server]);
        if listener.Some? then listed.(listeners := listed.listeners + [listener.value]) else listed
    {
      hide Valid;
      if stopped && listener.Some? {
        Keep(listener.value);
      }
      Keep(server);
      if !stopped && listener.Some? {
        Keep(listener.value);
      }
    }

    method RegisterProxyListener(listener: Item)
      requires Valid() && listener.ProxyListener?
      modifies this
      ensures Valid() && stopped == old(stopped) && handed == old(handed) + multiset{listener}
      ensures servers == if stopped then old(servers) else old(servers).(proxies := old(servers).proxies + [listener])
    {
      Keep(listener);
    }

    /** What each register method does with an item: list it, or close it if it comes too late. */
    method Keep(x: Item)
      requires Valid()
      modifies this
      ensures Valid() && stopped == old(stopped) && handed == old(handed) + multiset{x}
      ensures servers == if stopped then old(servers) else old(servers).Add(x)
    {
      hide Servers.Add, Servers.All;
      handed := handed + multiset{x};
      if stopped {
        closed := closed + multiset{x};
      } else {
        AddHolds(servers, x);
        servers := servers.Add(x);
      }
    }

    method CloseAll(items: seq<Item>)
      modifies this`closed
      ensures closed == old(closed) + multiset(items)
    {
      for i := 0 to |items|
        invariant closed == old(closed) + multiset(items[..i])
      {
        closed := closed + multiset{items[i]};
        assert items[..i + 1] == items[..i] + [items[i]];
      }
      assert items[..|items|] == items;
    }

    /** The four loops of Stop over the lists it copied. */
    method CloseCopied(copy: Servers)
      modifies this`closed
      ensures closed == old(closed) + multiset(copy.All())
    {
      AllHolds(copy);
      hide Servers.All;
      CloseAll(copy.dns);
      CloseAll(copy.http);
      CloseAll(copy.listeners);
      CloseAll(copy.proxies);
    }

    /** stopOnce lets it run once */
    method Stop()
      requires Valid()
      modifies this
      ensures Valid() && stopped && servers == old(servers) && closed == handed == old(handed)
    {
      hide Servers.All;
      if stopped {
        return;
      }
      stopped := true;
      CloseCopied(servers);
    }
  }

  lemma AddHolds(servers: Servers, x: Item)
    ensures multiset(servers.Add(x).All()) == multiset(servers.All()) + multiset{x}
  {
  }

  lemma AllHolds(servers: Servers)
    ensures multiset(servers.All()) ==
      multiset(servers.dns) + multiset(servers.http) + multiset(servers.listeners) + multiset(servers.proxies)
  {
  }

  // ---- any number of callers, interleaved at the locks ----

  /** What one register call is handed: an HTTP server may come with its listener. */
  predicate HandedTogether(items: seq<Item>) {
    || (|items| == 1 && !items[0].HttpListener?)
    || (|items| == 2 && items[0].HttpServer? && items[1].HttpListener?)
  }

  /** Where a register call is. HasStop and HasBoth name the locks held; Accepting: not stopped, so the items
      are to be listed; Leaving, LeavingStop: the locks are being released; Closing: what is left to close. */
  datatype Phase = Before | HasStop | HasBoth | Accepting | Leaving | LeavingStop | Closing

  datatype Call = Call(items: seq<Item>, left: seq<Item>, at: Phase)

  predicate HoldsStop(at: Phase) { at != Before && at != Closing }
  predicate HoldsServers(at: Phase) { at == HasBoth || at == Accepting || at == Leaving }
  predicate Finished(c: Call) { c.at == Closing && c.left == [] }

  /** Where Stop is; stopOnce lets one caller through. */
  datatype Stop =
    | NotCalled
    | StopHasStop
    | Flagged
    | StopHasBoth
    | Copied(left: seq<Item>)
    | StopLeaving(left: seq<Item>)
    | StopClosing(left: seq<Item>)

  predicate StopHoldsStop(at: Stop) { !at.NotCalled? && !at.StopClosing? }
  predicate StopHoldsServers(at: Stop) { at.StopHasBoth? || at.Copied? }
  predicate HasCopied(at: Stop) { at.Copied? || at.StopLeaving? || at.StopClosing? }

  datatype Owner = Free | Registrar(id: nat) | Stopper

  /** handed records which call was handed an item, closed how often an item was closed. */
  datatype State = State(
    stopLock: Owner, serversLock: Owner, stopped: bool, servers: Servers,
    calls: map<nat, Call>, stop: Stop,
    handed: map<Item, nat>, closed: multiset<Item>)

  // ---- steps ----

  ghost predicate Arrive(s: State, t: State, id: nat, items: seq<Item>) {
    && id !in s.calls && HandedTogether(items) && (forall x :: x in items ==> x !in s.handed)
    && t == s.(calls := s.calls[id := Call(items, items, Before)],
               handed := s.handed + map x | x in items :: id)
  }

  ghost predicate RegisterStep(s: State, t: State, id: nat) {
    && id in s.calls
    && var c := s.calls[id];
    && match c.at
       case Before => s.stopLock.Free? && t == s.(stopLock := Registrar(id), calls := s.calls[id := c.(at := HasStop)])
       case HasStop =>
         s.serversLock.Free? && t == s.(serversLock := Registrar(id), calls := s.calls[id := c.(at := HasBoth)])
       case HasBoth => t == s.(calls := s.calls[id := c.(at := if s.stopped then Leaving else Accepting)])
       case Accepting =>
         t == s.(servers := s.servers.AddAll(c.items), calls := s.calls[id := c.(left := [], at := Leaving)])
       case Leaving => t == s.(serversLock := Free, calls := s.calls[id := c.(at := LeavingStop)])
       case LeavingStop => t == s.(stopLock := Free, calls := s.calls[id := c.(at := Closing)])
       case Closing =>
         && c.left != []
         && t == s.(closed := s.closed + multiset{c.left[|c.left| - 1]},
                    calls := s.calls[id := c.(left := c.left[..|c.left| - 1])])
  }

  ghost predicate StopStep(s: State, t: State) {
    match s.stop
    case NotCalled => s.stopLock.Free? && t == s.(stopLock := Stopper, stop := StopHasStop)
    case StopHasStop => t == s.(stopped := true, stop := Flagged)
    case Flagged => s.serversLock.Free? && t == s.(serversLock := Stopper, stop := StopHasBoth)
    case StopHasBoth => t == s.(stop := Copied(s.servers.All()))
    case Copied(left) => t == s.(serversLock := Free, stop := StopLeaving(left))
    case StopLeaving(left) => t == s.(stopLock := Free, stop := StopClosing(left))
    case StopClosing(left) =>
      left != [] && t == s.(closed := s.closed + multiset{left[0]}, stop := StopClosing(left[1..]))
  }

  ghost predicate Step(s: State, t: State) {
    || (exists id, items :: Arrive(s, t, id, items))
    || (exists id :: RegisterStep(s, t, id))
    || StopStep(s, t)
  }

  ghost predicate IsRun(run: seq<State>) {
    && run != []
    && run[0] == State(Free, Free, false, Servers([], [], [], []), map[], NotCalled, map[], multiset{})
    && forall i :: 0 < i < |run| ==> Step(run[i - 1], run[i])
  }

  // ---- invariants ----

  /** Which locks a call holds, and what the flag is to it. */
  predicate CallLocks(s: State, id: nat)
    requires id in s.calls
  {
    && (HoldsStop(s.calls[id].at) <==> s.stopLock == Registrar(id))
    && (HoldsServers(s.calls[id].at) <==> s.serversLock == Registrar(id))
    && (s.calls[id].at.Accepting? ==> !s.stopped)
  }

  predicate StopLocks(s: State) {
    && (StopHoldsStop(s.stop) <==> s.stopLock == Stopper)
    && (StopHoldsServers(s.stop) <==> s.serversLock == Stopper)
    && (s.stopLock.Registrar? ==> s.stopLock.id in s.calls)
    && (s.serversLock.Registrar? ==> s.serversLock.id in s.calls)
    && (s.stopped <==> !s.stop.NotCalled? && !s.stop.StopHasStop?)
  }

  function Count(items: seq<Item>, x: Item): nat {
    multiset(items)[x]
  }

  /** Items that wait for Stop: the lists until they are copied, then what is left of the copy. */
  function Waiting(s: State): seq<Item> {
    if HasCopied(s.stop) then s.stop.left else s.servers.All()
  }

  ghost predicate CallInv(s: State, id: nat)
    requires id in s.calls
  {
    var c := s.calls[id];
    && HandedTogether(c.items) && (forall x :: x in c.items ==> x in s.handed && s.handed[x] == id)
    && (c.left == c.items || c.left == [] || (|c.items| == 2 && c.left == c.items[..1]))
    && (c.at != Leaving && c.at != LeavingStop && c.at != Closing ==> c.left == c.items)
  }

  /** Each item is in exactly one place: with its call, waiting for Stop, or closed. */
  ghost predicate ItemInv(s: State, x: Item) {
    if x in s.handed then
      && s.handed[x] in s.calls
      && x in s.calls[s.handed[x]].items
      && Count(s.calls[s.handed[x]].left, x) + Count(Waiting(s), x) + s.closed[x] == 1
    else
      Count(Waiting(s), x) == 0 && s.closed[x] == 0
  }

  ghost predicate Inv(s: State) {
    && StopLocks(s)
    && (forall id :: id in s.calls ==> CallLocks(s, id) && CallInv(s, id))
    && (forall x :: ItemInv(s, x))
  }

  lemma AddIsOneMore(servers: Servers, y: Item, x: Item)
    ensures Count(servers.Add(y).All(), x) == Count(servers.All(), x) + if y == x then 1 else 0
  {
    hide Servers.Add, Servers.All;
    AddHolds(servers, y);
  }

  lemma {:induction false} AddAllAdds(servers: Servers, items: seq<Item>, x: Item)
    ensures Count(servers.AddAll(items).All(), x) == Count(servers.All(), x) + Count(items, x)
    decreases |items|
  {
    hide Servers.Add, Servers.All;
    if items != [] {
      AddIsOneMore(servers, items[0], x);
      AddAllAdds(servers.Add(items[0]), items[1..], x);
      FirstGoes(items, x);
    }
  }

  lemma FirstGoes(items: seq<Item>, x: Item)
    requires items != []
    ensures Count(items, x) == Count(items[1..], x) + if items[0] == x then 1 else 0
  {
    assert items == [items[0]] + items[1..];
  }

  lemma LastGoes(items: seq<Item>, x: Item)
    requires items != []
    ensures Count(items, x) == Count(items[..|items| - 1], x) + if items[|items| - 1] == x then 1 else 0
  {
    assert items == items[..|items| - 1] + [items[|items| - 1]];
  }

  lemma HandedOnce(items: seq<Item>, x: Item)
    requires HandedTogether(items)
    ensures Count(items, x) == if x in items then 1 else 0
  {
    if |items| == 2 {
      assert items == [items[0], items[1]];
    } else {
      assert items == [items[0]];
    }
  }

  lemma ArriveKeepsItem(s: State, t: State, id: nat, items: seq<Item>, x: Item)
    requires ItemInv(s, x) && Arrive(s, t, id, items)
    ensures ItemInv(t, x)
  {
    hide Count, HandedTogether, Servers.All;
    HandedOnce(items, x);
  }

  lemma ArriveKeepsCalls(s: State, t: State, id: nat, items: seq<Item>)
    requires Inv(s) && Arrive(s, t, id, items)
    ensures StopLocks(t)
    ensures forall k :: k in t.calls ==> CallLocks(t, k) && CallInv(t, k)
  {
    hide ItemInv, HandedTogether;
    forall k | k in t.calls ensures CallLocks(t, k) && CallInv(t, k) {
      assert k in s.calls ==> CallLocks(s, k) && CallInv(s, k);
    }
  }

  lemma RegisterKeepsCallLocks(s: State, t: State, id: nat, k: nat)
    requires id in s.calls && CallLocks(s, id) && RegisterStep(s, t, id)
    requires k in s.calls && CallLocks(s, k)
    ensures k in t.calls && CallLocks(t, k)
  {
    hide Servers.AddAll;
  }

  lemma RegisterKeepsLocks(s: State, t: State, id: nat)
    requires Inv(s) && RegisterStep(s, t, id)
    ensures StopLocks(t)
    ensures forall k :: k in t.calls ==> CallLocks(t, k)
  {
    assert id in s.calls && t.calls.Keys == s.calls.Keys by { RegisterHasEffect(s, t, id); }
    hide RegisterStep, CallInv, ItemInv, StopLocks, CallLocks;
    forall k | k in t.calls ensures CallLocks(t, k) {
      RegisterKeepsCallLocks(s, t, id, k);
    }
  }

  /** What a register call's step does to the items. */
  predicate Effect(s: State, t: State, id: nat)
    requires id in s.calls && id in t.calls
  {
    var c, c' := s.calls[id], t.calls[id];
    && c'.items == c.items
    && if c.at == Accepting then
         c'.at == Leaving && c'.left == [] && t.servers == s.servers.AddAll(c.items) && t.closed == s.closed
       else if c.at == Closing then
         && c'.at == Closing && c.left != [] && c'.left == c.left[..|c.left| - 1]
         && t.servers == s.servers && t.closed == s.closed + multiset{c.left[|c.left| - 1]}
       else
         && c'.left == c.left && t.servers == s.servers && t.closed == s.closed
         && (c.at == Leaving || c.at == LeavingStop ==> c'.at == LeavingStop || c'.at == Closing)
  }

  lemma RegisterHasEffect(s: State, t: State, id: nat)
    requires RegisterStep(s, t, id)
    ensures id in s.calls && t.calls == s.calls[id := t.calls[id]] && t.handed == s.handed && t.stop == s.stop
    ensures Effect(s, t, id)
  {
    hide Servers.AddAll;
  }

  lemma RegisterKeepsCalls(s: State, t: State, id: nat)
    requires Inv(s) && RegisterStep(s, t, id)
    ensures forall k :: k in t.calls ==> CallInv(t, k)
  {
    hide RegisterStep, Servers.AddAll, Servers.All, ItemInv, CallLocks, StopLocks, HandedTogether;
    RegisterHasEffect(s, t, id);
    assert CallInv(s, id);
    TakingOneLeavesAPrefix(s.calls[id].items);
    forall k | k in t.calls ensures CallInv(t, k) {
      assert CallInv(s, k);
    }
  }

  lemma TakingOneLeavesAPrefix(items: seq<Item>)
    requires HandedTogether(items)
    ensures |items| == 1 || |items| == 2
    ensures |items| == 1 ==> items[..|items| - 1] == []
    ensures |items| == 2 ==> items[..1][..0] == []
  {
  }

  lemma RegisterKeepsItem(s: State, t: State, id: nat, x: Item)
    requires ItemInv(s, x) && RegisterStep(s, t, id) && CallInv(s, id) && CallLocks(s, id) && StopLocks(s)
    ensures ItemInv(t, x)
  {
    hide RegisterStep, Count, HandedTogether, Servers.AddAll, Servers.All;
    RegisterHasEffect(s, t, id);
    var c := s.calls[id];
    if c.at.Accepting? {
      assert !HasCopied(s.stop);
      AddAllAdds(s.servers, c.items, x);
      HandedOnce(c.items, x);
      NothingLeft(x);
    } else if c.at.Closing? {
      LastGoes(c.left, x);
    }
  }

  lemma NothingLeft(x: Item)
    ensures Count([], x) == 0
  {
  }

  lemma StopKeepsCalls(s: State, t: State)
    requires Inv(s) && StopStep(s, t)
    ensures forall k :: k in t.calls ==> CallLocks(t, k) && CallInv(t, k)
  {
    hide Servers.All, ItemInv, HandedTogether;
    assert t.calls == s.calls && t.handed == s.handed;
    forall k | k in t.calls ensures CallLocks(t, k) && CallInv(t, k) {
      assert CallLocks(s, k) && CallInv(s, k);
      hide CallInv;
    }
  }

  lemma StopKeepsStopLocks(s: State, t: State)
    requires StopLocks(s) && StopStep(s, t)
    ensures StopLocks(t)
  {
    hide Servers.All;
  }

  lemma StopKeepsItem(s: State, t: State, x: Item)
    requires ItemInv(s, x) && StopStep(s, t)
    ensures ItemInv(t, x)
  {
    hide Count, Servers.All;
    if s.stop.StopClosing? {
      FirstGoes(s.stop.left, x);
    }
  }

  lemma StepKeepsInv(s: State, t: State)
    requires Inv(s) && Step(s, t)
    ensures Inv(t)
    ensures s.stopped ==> t.stopped && t.servers == s.servers
  {
    hide ItemInv, CallInv, CallLocks, StopLocks, Arrive, RegisterStep, StopStep;
    if id, items :| Arrive(s, t, id, items) {
      ArriveKeepsCalls(s, t, id, items);
      forall x ensures ItemInv(t, x) {
        ArriveKeepsItem(s, t, id, items, x);
      }
      assert t.stopped == s.stopped && t.servers == s.servers by { ArriveKeepsServers(s, t, id, items); }
    } else if id :| RegisterStep(s, t, id) {
      InvOfCall(s, t, id);
      RegisterKeepsLocks(s, t, id);
      RegisterKeepsCalls(s, t, id);
      forall x ensures ItemInv(t, x) {
        RegisterKeepsItem(s, t, id, x);
      }
    } else {
      StopKeepsCalls(s, t);
      StopKeepsStopLocks(s, t);
      forall x ensures ItemInv(t, x) {
        StopKeepsItem(s, t, x);
      }
      StopKeepsServers(s, t);
    }
  }

  lemma ArriveKeepsServers(s: State, t: State, id: nat, items: seq<Item>)
    requires Arrive(s, t, id, items)
    ensures t.stopped == s.stopped && t.servers == s.servers
  {
  }

  lemma StopKeepsServers(s: State, t: State)
    requires StopStep(s, t)
    ensures (s.stopped ==> t.stopped) && t.servers == s.servers
  {
  }

  lemma InvOfCall(s: State, t: State, id: nat)
    requires Inv(s) && RegisterStep(s, t, id)
    ensures id in s.calls && CallInv(s, id) && CallLocks(s, id)
    ensures t.stopped == s.stopped && (s.stopped ==> t.servers == s.servers)
  {
    hide CallInv, ItemInv, Servers.AddAll;
  }

  lemma {:induction false} RunsKeepInv(run: seq<State>, n: nat)
    requires IsRun(run) && n < |run|
    ensures Inv(run[n])
  {
    if n > 0 {
      RunsKeepInv(run, n - 1);
      StepKeepsInv(run[n - 1], run[n]);
    }
  }

  /** The registered lists never grow after stopped is set. */
  lemma {:induction false} ListsStayAfterStop(run: seq<State>, m: nat, n: nat)
    requires IsRun(run) && m <= n < |run| && run[m].stopped
    ensures run[n].stopped && run[n].servers == run[m].servers
  {
    hide Inv, Step;
    if m < n {
      ListsStayAfterStop(run, m, n - 1);
      RunsKeepInv(run, n - 1);
      StepKeepsInv(run[n - 1], run[n]);
    }
  }

  /** Once Stop's loops and all register calls have finished, every item ever handed over has been
      closed, exactly once, and nothing else has. */
  lemma AllClosedInTheEnd(run: seq<State>, n: nat)
    requires IsRun(run) && n < |run|
    requires run[n].stop == StopClosing([])
    requires forall id :: id in run[n].calls ==> Finished(run[n].calls[id])
    ensures forall x :: run[n].closed[x] == if x in run[n].handed then 1 else 0
  {
    RunsKeepInv(run, n);
    forall x ensures run[n].closed[x] == if x in run[n].handed then 1 else 0 {
      assert ItemInv(run[n], x);
      NothingLeft(x);
    }
  }

  lemma NeverClosedTwice(run: seq<State>, n: nat, x: Item)
    requires IsRun(run) && n < |run|
    ensures run[n].closed[x] <= 1
  {
    RunsKeepInv(run, n);
    assert ItemInv(run[n], x);
  }

  predicate AllFinished(s: State) {
    && (s.stop.NotCalled? || s.stop == StopClosing([]))
    && forall id :: id in s.calls ==> Finished(s.calls[id])
  }

  /** The two locks never bring all to a halt: while a call or Stop is unfinished, one of them can move. */
  lemma SomeoneMoves(run: seq<State>, n: nat) returns (t: State)
    requires IsRun(run) && n < |run| && !AllFinished(run[n])
    ensures StopStep(run[n], t) || exists id :: RegisterStep(run[n], t, id)
  {
    RunsKeepInv(run, n);
    var s := run[n];
    hide CallInv, ItemInv, RegisterStep, StopStep;
    if s.serversLock.Registrar? {
      assert CallLocks(s, s.serversLock.id);
      t := CallMoves(s, s.serversLock.id);
    } else if s.stopLock.Registrar? {
      assert CallLocks(s, s.stopLock.id);
      t := CallMoves(s, s.stopLock.id);
    } else if !s.stop.NotCalled? && s.stop != StopClosing([]) {
      t := StopMoves(s);
    } else {
      var id :| id in s.calls && !Finished(s.calls[id]);
      assert CallLocks(s, id);
      t := CallMoves(s, id);
    }
  }

  lemma CallMoves(s: State, id: nat) returns (t: State)
    requires id in s.calls && !Finished(s.calls[id]) && CallLocks(s, id)
    requires s.serversLock == Registrar(id) ||
             (s.serversLock.Free? && (s.stopLock == Registrar(id) || s.stopLock.Free?))
    ensures RegisterStep(s, t, id)
  {
    var c := s.calls[id];
    t := match c.at
      case Before => s.(stopLock := Registrar(id), calls := s.calls[id := c.(at := HasStop)])
      case HasStop => s.(serversLock := Registrar(id), calls := s.calls[id := c.(at := HasBoth)])
      case HasBoth => s.(calls := s.calls[id := c.(at := if s.stopped then Leaving else Accepting)])
      case Accepting => s.(servers := s.servers.AddAll(c.items), calls := s.calls[id := c.(left := [], at := Leaving)])
      case Leaving => s.(serversLock := Free, calls := s.calls[id := c.(at := LeavingStop)])
      case LeavingStop => s.(stopLock := Free, calls := s.calls[id := c.(at := Closing)])
      case Closing => s.(closed := s.closed + multiset{c.left[|c.left| - 1]},
                         calls := s.calls[id := c.(left := c.left[..|c.left| - 1])]);
  }

  lemma StopMoves(s: State) returns (t: State)
    requires StopLocks(s) && !s.stop.NotCalled? && s.stop != StopClosing([])
    requires !s.serversLock.Registrar?
    ensures StopStep(s, t)
  {
    t := match s.stop
      case NotCalled => s
      case StopHasStop => s.(stopped := true, stop := Flagged)
      case Flagged => s.(serversLock := Stopper, stop := StopHasBoth)
      case StopHasBoth => s.(stop := Copied(s.servers.All()))
      case Copied(left) => s.(serversLock := Free, stop := StopLeaving(left))
      case StopLeaving(left) => s.(stopLock := Free, stop := StopClosing(left))
      case StopClosing(left) => s.(closed := s.closed + multiset{left[0]}, stop := StopClosing(left[1..]));
  }
}
