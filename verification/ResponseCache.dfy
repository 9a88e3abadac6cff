/** The response cache with its messages on the heap: copied on the way in and on the way out. */
module ResponseCache {
  import opened Text
  import opened Lifetime

  // ---- messages as the DNS library holds them: pointers to records whose TTL can be written ----

  class RR {
    const name: string
    const kind: Kind
    var ttl: Uint32

    constructor (name: string, kind: Kind, ttl: Uint32)
      ensures this.name == name && this.kind == kind && this.ttl == ttl
    {
      this.name, this.kind, this.ttl := name, kind, ttl;
    }

    function Value(): Record
      reads this
    {
      Record(name, kind, ttl)
    }
  }

  function Values(rrs: seq<RR>): (vs: seq<Record>)
    reads rrs
    ensures |vs| == |rrs|
    ensures forall i :: 0 <= i < |rrs| ==> vs[i] == rrs[i].Value()
  {
    if rrs == [] then [] else Values(rrs[..|rrs| - 1]) + [rrs[|rrs| - 1].Value()]
  }

  ghost function Objects(rrs: seq<RR>): set<RR> {
    set r | r in rrs
  }

  /** The message whose three sections are consecutive stretches of records. */
  function Assemble(id: nat, rcode: nat, truncated: bool, question: seq<Question>,
                    records: seq<Record>, answers: nat, authorities: nat): (m: Msg)
    requires answers + authorities <= |records|
    ensures m.Records() == records
  {
    var m := Msg(id, rcode, truncated, question, records[..answers], records[answers..answers + authorities],
                 records[answers + authorities..]);
    assert m.Records() == records;
    m
  }

  /** The answer, authority and additional sections are consecutive stretches of records and are never
      reassigned; the id and the question are. */
  class Message {
    var id: nat
    var question: seq<Question>
    const rcode: nat
    const truncated: bool
    const records: seq<RR>
    const answers: nat
    const authorities: nat

    ghost function Footprint(): set<object> {
      {this} + Objects(records)
    }

    ghost predicate WellFormed() {
      answers + authorities <= |records| && NoRepeats(records)
    }

    ghost function Value(): Msg
      requires WellFormed()
      reads this, records
    {
      Assemble(id, rcode, truncated, question, Values(records), answers, authorities)
    }

    constructor (id: nat, rcode: nat, truncated: bool, question: seq<Question>, records: seq<RR>, answers: nat,
                 authorities: nat)
      ensures this.id == id && this.rcode == rcode && this.truncated == truncated && this.question == question
      ensures this.records == records && this.answers == answers && this.authorities == authorities
    {
      this.id, this.rcode, this.truncated, this.question := id, rcode, truncated, question;
      this.records, this.answers, this.authorities := records, answers, authorities;
    }

    method Copy() returns (copy: Message)
      requires WellFormed()
      ensures fresh(copy) && fresh(copy.records)
      ensures copy.WellFormed() && copy.Value() == Value()
    {
      hide Values, NoRepeats, Assemble;
      var copies := CopyRecords(records);
      copy := new Message(id, rcode, truncated, question, copies, answers, authorities);
    }
  }

  method CopyRecords(rrs: seq<RR>) returns (copies: seq<RR>)
    ensures |copies| == |rrs| && NoRepeats(copies) && fresh(copies)
    ensures Values(copies) == Values(rrs)
  {
    copies := [];
    for i := 0 to |rrs|
      invariant |copies| == i && NoRepeats(copies)
      invariant forall k :: 0 <= k < i ==> fresh(copies[k]) && copies[k].Value() == rrs[k].Value()
    {
      var c := new RR(rrs[i].name, rrs[i].kind, rrs[i].ttl);
      copies := copies + [c];
    }
  }

  method AgeRecords(rrs: seq<RR>, elapsed: Uint32)
    requires NoRepeats(rrs)
    modifies rrs
    ensures forall k :: 0 <= k < |rrs| ==> rrs[k].ttl == AgedTtl(old(rrs[k].ttl), elapsed)
  {
    for i := 0 to |rrs|
      invariant forall k :: 0 <= k < i ==> rrs[k].ttl == AgedTtl(old(rrs[k].ttl), elapsed)
      invariant forall k :: i <= k < |rrs| ==> rrs[k].ttl == old(rrs[k].ttl)
    {
      var rr := rrs[i];
      if rr.ttl > elapsed {
        rr.ttl := rr.ttl - elapsed;
      } else {
        rr.ttl := 0;
      }
    }
  }

  lemma AgedValues(rrs: seq<RR>, was: seq<Record>, elapsed: Uint32)
    requires |was| == |rrs|
    requires forall k :: 0 <= k < |rrs| ==> rrs[k].Value() == was[k].(ttl := AgedTtl(was[k].ttl, elapsed))
    ensures Values(rrs) == AgedRecords(was, elapsed)
  {
    assert forall k :: 0 <= k < |rrs| ==> AgedRecords(was, elapsed)[k] == Values(rrs)[k];
  }

  lemma AgedAssembly(id: nat, rcode: nat, truncated: bool, question: seq<Question>,
                     records: seq<Record>, answers: nat, authorities: nat, elapsed: Uint32)
    requires answers + authorities <= |records|
    ensures Assemble(id, rcode, truncated, question, AgedRecords(records, elapsed), answers, authorities)
      == Aged(Assemble(id, rcode, truncated, question, records, answers, authorities), elapsed)
  {
    var a, b := answers, answers + authorities;
    assert AgedRecords(records, elapsed)[..a] == AgedRecords(records[..a], elapsed);
    assert AgedRecords(records, elapsed)[a..b] == AgedRecords(records[a..b], elapsed);
    assert AgedRecords(records, elapsed)[b..] == AgedRecords(records[b..], elapsed);
  }

  lemma UnagedRecords(records: seq<Record>)
    ensures AgedRecords(records, 0) == records
  {
  }

  lemma ValueOfAged(m: Message, was: seq<Record>, elapsed: Uint32)
    requires m.WellFormed() && |was| == |m.records|
    requires Values(m.records) == AgedRecords(was, elapsed)
    ensures m.Value()
      == Aged(Assemble(m.id, m.rcode, m.truncated, m.question, was, m.answers, m.authorities), elapsed)
  {
    AgedAssembly(m.id, m.rcode, m.truncated, m.question, was, m.answers, m.authorities, elapsed);
  }

  /** decrementMessageTTL */
  method DecrementMessageTTL(m: Message, elapsed: Uint32)
    requires m.WellFormed()
    modifies m.records
    ensures m.Value() == Aged(old(m.Value()), elapsed)
  {
    hide Assemble, Aged, Values, AgedRecords, NoRepeats, AgedTtl;
    ghost var was := Values(m.records);
    if elapsed == 0 {
      UnagedRecords(was);
    } else {
      AgeRecords(m.records, elapsed);
      AgedValues(m.records, was, elapsed);
    }
    ValueOfAged(m, was, elapsed);
  }

  method CopyAged(m: Message, elapsed: Uint32) returns (aged: Message)
    requires m.WellFormed()
    ensures fresh(aged) && fresh(aged.records)
    ensures aged.WellFormed() && aged.Value() == Aged(m.Value(), elapsed)
  {
    hide Aged, Values, NoRepeats, Assemble;
    aged := m.Copy();
    DecrementMessageTTL(aged, elapsed);
  }

  /** messageCacheTTL; a zero TTL anywhere ends the scan */
  method MessageCacheTTL(m: Message, configured: int) returns (ttl: int)
    requires m.WellFormed()
    ensures ttl == LifetimeOf(m.Value(), configured)
  {
    hide NoRepeats, ScanOf;
    ghost var values := Values(m.records);
    assert m.Value().Records() == values;
    if configured <= 0 || m.truncated {
      return 0;
    }
    var s := ScanRecords(m.records);
    if s.zero {
      return 0;
    }
    var minTtl := s.min;
    if !s.found {
      return 0;
    }
    var negative := m.rcode == RCODE_NAME_ERROR || (m.rcode == RCODE_SUCCESS && m.answers == 0);
    assert negative == m.Value().Negative();
    if negative {
      if s.soa.None? {
        return 0;
      }
      if s.soa.value < minTtl {
        minTtl := s.soa.value;
      }
      if minTtl == 0 {
        return 0;
      }
    }
    DurationsFit(minTtl, 0);
    ttl := Wrap64(minTtl * SECOND);
    if ttl > configured {
      ttl := configured;
    }
  }

  /** The scan of messageCacheTTL over the records of all sections. */
  method ScanRecords(records: seq<RR>) returns (s: Scan)
    ensures s == ScanOf(Values(records)) || (s.zero && ScanOf(Values(records)).zero)
  {
    hide ScanOf, Values;
    var minTtl: Uint32, found, soa: Option<Uint32> := UINT32_SIZE - 1, false, None;
    ghost var values := Values(records);
    EmptyScan();
    assert values[..0] == [];
    for i := 0 to |records|
      invariant ScanOf(values[..i]) == Scan(minTtl, found, soa, false)
    {
      var rr := records[i];
      ScanStep(values, i);
      assert values[i] == rr.Value();
      if !rr.kind.Opt? {
        if rr.ttl == 0 {
          ZeroStays(values, i + 1);
          return Scan(minTtl, found, soa, true);
        }
        if rr.ttl < minTtl {
          minTtl := rr.ttl;
        }
        if rr.kind.Soa? {
          soa := Some(rr.kind.minTtl);
        }
        found := true;
      }
    }
    assert values[..|records|] == values;
    s := Scan(minTtl, found, soa, false);
  }

  lemma EmptyScan()
    ensures ScanOf([]) == Scan(UINT32_SIZE - 1, false, None, false)
  {
  }

  lemma ScanStep(records: seq<Record>, i: nat)
    requires i < |records|
    ensures var s, r := ScanOf(records[..i]), records[i];
      ScanOf(records[..i + 1]) ==
        if s.zero || r.kind.Opt? then s
        else if r.ttl == 0 then s.(zero := true)
        else Scan(if r.ttl < s.min then r.ttl else s.min, true,
                  if r.kind.Soa? then Some(r.kind.minTtl) else s.soa, false)
  {
    assert records[..i + 1][..i] == records[..i];
  }

  lemma {:induction false} ZeroStays(records: seq<Record>, i: nat)
    requires i <= |records| && ScanOf(records[..i]).zero
    ensures ScanOf(records).zero
    decreases |records| - i
  {
    if i == |records| {
      assert records[..i] == records;
    } else {
      assert records[..i + 1][..i] == records[..i];
      ZeroStays(records, i + 1);
    }
  }

  // ---- the cache as a value ----

  datatype Stored = Stored(msg: Msg, storedAt: int, expiresAt: int)

  type Table = map<string, Stored>

  /** What the configuration says about the cache. */
  datatype Settings = Settings(enabled: bool, size: int, ttl: nat)

  /** getCached: the table afterwards and the aged message, if any */
  function Looked(t: Table, s: Settings, key: string, readAt: int): (Table, Option<Msg>) {
    if !s.enabled || key !in t then (t, None)
    else if readAt >= t[key].expiresAt then (t - {key}, None)
    else (t, Some(Aged(t[key].msg, Elapsed(t[key].storedAt, readAt))))
  }

  /** setCache: a full table first loses some entry, whether or not the message is then stored. */
  ghost predicate MayStore(t: Table, t': Table, s: Settings, key: string, m: Msg, now: int) {
    if !s.enabled || s.size <= 0 then t' == t
    else
      exists kept :: IsEviction(t, kept, s.size) && t' == StoredIn(kept, s, key, m, now)
  }

  ghost predicate IsEviction(t: Table, kept: Table, size: int) {
    if |t| < size then kept == t else exists k :: k in t && kept == t - {k}
  }

  function StoredIn(kept: Table, s: Settings, key: string, m: Msg, now: int): Table {
    var ttl := LifetimeOf(m, s.ttl * SECOND);
    if ttl <= 0 then kept else kept[key := Stored(m, now, now + ttl)]
  }

  lemma EvictionShrinks(t: Table, kept: Table, size: int)
    requires IsEviction(t, kept, size) && |t| <= size && 0 < size
    ensures |kept| < size
  {
    if |t| >= size {
      var k :| k in t && kept == t - {k};
      assert kept.Keys == t.Keys - {k};
    }
  }

  /** Storing keeps the table within its size. */
  lemma StoreKeepsSize(t: Table, t': Table, s: Settings, key: string, m: Msg, now: int)
    requires MayStore(t, t', s, key, m, now)
    requires |t| <= Bound(s)
    ensures |t'| <= Bound(s)
  {
    hide LifetimeOf, IsEviction;
    if s.enabled && s.size > 0 {
      var kept :| IsEviction(t, kept, s.size) && t' == StoredIn(kept, s, key, m, now);
      EvictionShrinks(t, kept, s.size);
      if LifetimeOf(m, s.ttl * SECOND) > 0 {
        assert t'.Keys == kept.Keys + {key};
      }
    }
  }

  /** A message that may be kept is kept, until its lifetime has passed; nothing else is added or changed; and at
      most one other entry goes, only where the table is full. */
  lemma StoringCostsOne(t: Table, t': Table, s: Settings, key: string, m: Msg, now: int, lost: string)
    requires MayStore(t, t', s, key, m, now)
    ensures var lifetime := LifetimeOf(m, s.ttl * SECOND);
      s.enabled && s.size > 0 && lifetime > 0 ==> key in t' && t'[key] == Stored(m, now, now + lifetime)
    ensures forall k :: k in t' && (k !in t || t'[k] != t[k]) ==>
      k == key && s.enabled && s.size > 0 && LifetimeOf(m, s.ttl * SECOND) > 0
    ensures lost in t && lost !in t' ==>
      s.enabled && 0 < s.size <= |t| && forall k :: k in t && k != lost ==> k in t'
  {
    hide LifetimeOf;
    if s.enabled && s.size > 0 {
      var kept :| IsEviction(t, kept, s.size) && t' == StoredIn(kept, s, key, m, now);
    }
  }

  function Bound(s: Settings): nat {
    if s.enabled && s.size > 0 then s.size else 0
  }

  // ---- the cache on the heap ----

  datatype Entry = Entry(msg: Message, storedAt: int, expiresAt: int)

  /** The entry's message has the stored value and lies within owned. */
  ghost predicate Holds(e: Entry, stored: Stored, owned: set<object>)
    reads owned
  {
    && e.msg in owned && (forall r :: r in e.msg.records ==> r in owned)
    && e.msg.WellFormed()
    && stored == Stored(e.msg.Value(), e.storedAt, e.expiresAt)
  }

  lemma HoldsFrom(copy: Message, value: Msg, storedAt: int, expiresAt: int, owned: set<object>)
    requires copy.WellFormed() && copy.Value() == value
    requires copy in owned && forall r :: r in copy.records ==> r in owned
    ensures Holds(Entry(copy, storedAt, expiresAt), Stored(value, storedAt, expiresAt), owned)
  {
  }

  lemma HoldsMore(e: Entry, stored: Stored, owned: set<object>, more: set<object>)
    requires Holds(e, stored, owned) && owned <= more
    ensures Holds(e, stored, more)
  {
  }

  lemma HoldsGives(e: Entry, stored: Stored, owned: set<object>)
    requires Holds(e, stored, owned)
    ensures e.msg.WellFormed() && stored == Stored(e.msg.Value(), e.storedAt, e.expiresAt)
  {
  }

  class Cache {
    var cache: map<string, Entry>
    /** The messages of cache as values. */
    ghost var table: Table
    /** Every object of a stored message. */
    ghost var owned: set<object>
    /** Every object of a message that callers ever passed in or were given. */
    ghost var outside: set<object>

    /** cache is table, and shares no object with the outside. */
    ghost predicate Valid()
      reads this, owned
    {
      && owned !! outside && this !in owned
      && cache.Keys == table.Keys
      && forall key :: key in cache ==> Holds(cache[key], table[key], owned)
    }

    constructor ()
      ensures Valid() && table == map[] && outside == {} && fresh(owned)
    {
      cache, table, owned, outside := map[], map[], {}, {};
    }

    method ClearCache()
      requires Valid()
      modifies this`cache, this`table
      ensures Valid() && table == map[]
    {
      cache, table := map[], map[];
    }

    /** The lookup of getCached, which drops an expired entry. */
    method Find(s: Settings, key: string, readAt: int) returns (hit: Option<Entry>)
      requires Valid()
      modifies this`cache, this`table
      ensures Valid()
      ensures hit.Some? <==> s.enabled && key in old(table) && readAt < old(table)[key].expiresAt
      ensures hit.Some? ==> key in table && Holds(hit.value, table[key], owned)
      ensures table == if s.enabled && key in old(table) && hit.None? then old(table) - {key} else old(table)
    {
      hide Holds;
      if !s.enabled || key !in cache {
        return None;
      }
      var e := cache[key];
      HoldsGives(e, table[key], owned);
      if readAt >= e.expiresAt {
        cache, table := cache - {key}, table - {key};
        return None;
      }
      hit := Some(e);
    }

    /** getCached; the clock was read before the lock was taken, so readAt is any time at all */
    method GetCached(s: Settings, key: string, readAt: int) returns (msg: Message?)
      requires Valid()
      modifies this`cache, this`table, this`outside
      ensures Valid()
      ensures table == Looked(old(table), s, key, readAt).0
      ensures msg == null <==> Looked(old(table), s, key, readAt).1.None?
      ensures msg != null ==> fresh(msg) && fresh(msg.records)
      ensures msg != null ==> msg.WellFormed() && msg.Value() == Looked(old(table), s, key, readAt).1.value
      ensures outside == old(outside) + if msg == null then {} else msg.Footprint()
    {
      hide Aged, NoRepeats, Holds, Message.Value;
      var hit := Find(s, key, readAt);
      if hit.None? {
        return null;
      }
      var e := hit.value;
      HoldsGives(e, table[key], owned);
      var elapsed: Uint32 := WholeSeconds(Sub(readAt, e.storedAt)) % UINT32_SIZE;
      msg := CopyAged(e.msg, elapsed);
      outside := outside + msg.Footprint();
    }

    method EvictOne()
      requires Valid() && |cache| > 0
      modifies this`cache, this`table
      ensures Valid()
      ensures exists k :: k in old(table) && table == old(table) - {k}
    {
      hide Holds;
      var k :| k in cache;
      cache, table := cache - {k}, table - {k};
    }

    /** A full table gives up some entry. */
    method MakeRoom(size: int)
      requires Valid() && size > 0
      modifies this`cache, this`table
      ensures Valid() && IsEviction(old(table), table, size)
    {
      SameSize();
      if |cache| >= size {
        EvictOne();
      }
    }

    method Insert(key: string, msg: Message, storedAt: int, expiresAt: int)
      requires Valid() && msg.WellFormed()
      modifies this`cache, this`table, this`owned
      ensures Valid() && fresh(owned - old(owned))
      ensures table == old(table)[key := Stored(msg.Value(), storedAt, expiresAt)]
    {
      hide NoRepeats, Message.Value, Holds;
      ghost var value, before := msg.Value(), owned;
      var copy := msg.Copy();
      ghost var after := owned + {copy} + Objects(copy.records);
      forall k | k in cache ensures Holds(cache[k], table[k], after) {
        HoldsMore(cache[k], table[k], before, after);
      }
      HoldsFrom(copy, value, storedAt, expiresAt, after);
      cache, table := cache[key := Entry(copy, storedAt, expiresAt)], table[key := Stored(value, storedAt, expiresAt)];
      owned := after;
    }

    lemma SameSize()
      requires Valid()
      ensures |cache| == |table|
    {
      assert |cache.Keys| == |table.Keys|;
    }

    /** The part of setCache once there is room. */
    method StoreCopy(s: Settings, key: string, msg: Message, now: int)
      requires Valid() && msg.WellFormed() && msg.Footprint() <= outside
      modifies this`cache, this`table, this`owned
      ensures Valid() && fresh(owned - old(owned))
      ensures table == StoredIn(old(table), s, key, msg.Value(), now)
    {
      hide LifetimeOf, Holds, NoRepeats, Message.Value, Valid;
      var ttl := MessageCacheTTL(msg, s.ttl * SECOND);
      if ttl > 0 {
        Insert(key, msg, now, now + ttl);
      }
    }

    /** setCache */
    method SetCache(s: Settings, key: string, msg: Message, now: int)
      requires Valid() && msg.WellFormed()
      requires owned !! msg.Footprint()
      modifies this
      ensures Valid() && fresh(owned - old(owned))
      ensures MayStore(old(table), table, s, key, msg.Value(), now)
      ensures outside == old(outside) + msg.Footprint()
    {
      hide LifetimeOf, Holds, NoRepeats, Message.Value;
      outside := outside + msg.Footprint();
      hide Valid;
      if !s.enabled || s.size <= 0 {
        return;
      }
      MakeRoom(s.size);
      hide IsEviction;
      StoreCopy(s, key, msg, now);
    }
  }

  /** Whatever callers do to the messages they hold, the stored table stays as it was. */
  twostate lemma OutsideWritesDoNotReachTheCache(c: Cache)
    requires old(c.Valid()) && unchanged(c)
    requires forall o :: o in old(c.owned) && o !in c.outside ==> unchanged(o)
    ensures c.Valid() && c.table == old(c.table)
  {
  }
}
