/** DNS messages as values: cache lifetime with negative caching, and ageing. Durations are nanoseconds. */
module Lifetime {
  import opened Text

  const SECOND: int := 1_000_000_000
  const INT64_SIZE: nat := 0x1_0000_0000_0000_0000
  const INT64_LIMIT: nat := 0x8000_0000_0000_0000

  const RCODE_SUCCESS: nat := 0
  const RCODE_SERVER_FAILURE: nat := 2
  const RCODE_NAME_ERROR: nat := 3

  /** Two's-complement wrap-around of an int64. */
  function Wrap64(n: int): int {
    var m := n % INT64_SIZE;
    if m < INT64_LIMIT then m else m - INT64_SIZE
  }

  datatype Kind = A(ip: string) | AAAA(ip: string) | Soa(minTtl: Uint32) | Opt | OtherKind(data: string)

  datatype Record = Record(name: string, kind: Kind, ttl: Uint32)

  datatype Question = Question(name: string, qtype: nat, qclass: nat)

  datatype Msg = Msg(id: nat, rcode: nat, truncated: bool, question: seq<Question>,
                     answer: seq<Record>, ns: seq<Record>, extra: seq<Record>)
  {
    function Records(): seq<Record> {
      answer + ns + extra
    }

    predicate Negative() {
      rcode == RCODE_NAME_ERROR || (rcode == RCODE_SUCCESS && answer == [])
    }
  }

  // ---- the lifetime as the scan computes it ----

  /** min starts at the greatest uint32; zero says that some record must not be cached at all. */
  datatype Scan = Scan(min: Uint32, found: bool, soa: Option<Uint32>, zero: bool)

  function ScanOf(records: seq<Record>): Scan {
    if records == [] then Scan(UINT32_SIZE - 1, false, None, false)
    else
      var s, r := ScanOf(records[..|records| - 1]), records[|records| - 1];
      if s.zero || r.kind.Opt? then s
      else if r.ttl == 0 then s.(zero := true)
      else Scan(if r.ttl < s.min then r.ttl else s.min, true,
                if r.kind.Soa? then Some(r.kind.minTtl) else s.soa, false)
  }

  function LifetimeOf(m: Msg, configured: int): int {
    var s := ScanOf(m.Records());
    if configured <= 0 || m.truncated || s.zero || !s.found then 0
    else if m.Negative() && s.soa.None? then 0
    else
      var seconds := if m.Negative() && s.soa.value < s.min then s.soa.value else s.min;
      if seconds * SECOND > configured then configured else seconds * SECOND
  }

  // ---- what it means ----

  predicate IsLastSoa(records: seq<Record>, i: nat) {
    i < |records| && records[i].kind.Soa? && forall j :: i < j < |records| ==> !records[j].kind.Soa?
  }

  /** A message that may be cached at all. NXDOMAIN (3), and NOERROR (0) without an answer, need an SOA record. */
  ghost predicate Admissible(m: Msg, configured: int) {
    && configured > 0 && !m.truncated
    && (exists r :: r in m.Records() && !r.kind.Opt?)
    && (forall r :: r in m.Records() && !r.kind.Opt? ==> r.ttl > 0)
    && (m.rcode == 3 || (m.rcode == 0 && m.answer == []) ==>
        exists i: nat :: IsLastSoa(m.Records(), i) && m.Records()[i].kind.minTtl > 0)
  }

  /** d exceeds neither the configured cap, nor a record's TTL, nor the SOA minimum of a negative answer. */
  ghost predicate Within(m: Msg, configured: int, d: int) {
    && d <= configured
    && (forall r :: r in m.Records() && !r.kind.Opt? ==> d <= r.ttl * SECOND)
    && (m.rcode == 3 || (m.rcode == 0 && m.answer == []) ==>
        forall i: nat :: IsLastSoa(m.Records(), i) ==> d <= m.Records()[i].kind.minTtl * SECOND)
  }

  ghost predicate MinMeans(records: seq<Record>, s: Scan) {
    && (!s.found ==> s.min == UINT32_SIZE - 1)
    && (s.found ==> exists r :: r in records && !r.kind.Opt? && r.ttl == s.min)
    && (s.found <==> exists r :: r in records && !r.kind.Opt?)
    && (forall r :: r in records && !r.kind.Opt? ==> s.min <= r.ttl)
  }

  ghost predicate SoaMeans(records: seq<Record>, s: Scan) {
    && (s.soa.Some? ==> exists i: nat :: IsLastSoa(records, i) && records[i].kind.minTtl == s.soa.value)
    && (s.soa.None? ==> forall r :: r in records ==> !r.kind.Soa?)
  }

  lemma {:induction false} ScanIsZero(records: seq<Record>)
    ensures ScanOf(records).zero <==> exists r :: r in records && !r.kind.Opt? && r.ttl == 0
  {
    if records != [] {
      var init, last := records[..|records| - 1], records[|records| - 1];
      ScanIsZero(init);
      assert records == init + [last];
      assert forall r :: r in records <==> r in init || r == last;
    }
  }

  lemma LastSoaExtends(init: seq<Record>, last: Record, i: nat)
    ensures IsLastSoa(init + [last], i) <==>
      if last.kind.Soa? then i == |init| else IsLastSoa(init, i)
  {
    var records := init + [last];
    assert records[|init|] == last;
    assert forall j :: 0 <= j < |init| ==> records[j] == init[j];
  }

  lemma {:induction false} MinHasMeaning(records: seq<Record>)
    requires !ScanOf(records).zero
    ensures MinMeans(records, ScanOf(records))
  {
    if records != [] {
      var init, last := records[..|records| - 1], records[|records| - 1];
      assert records == init + [last];
      hide MinMeans;
      MinHasMeaning(init);
    }
  }

  lemma {:induction false} SoaHasMeaning(records: seq<Record>)
    requires !ScanOf(records).zero
    ensures SoaMeans(records, ScanOf(records))
  {
    if records != [] {
      var init, last := records[..|records| - 1], records[|records| - 1];
      SoaHasMeaning(init);
      assert records == init + [last];
      assert forall r :: r in records <==> r in init || r == last;
      LastSoaExtends(init, last, |init|);
      var s := ScanOf(init);
      if !last.kind.Soa? && s.soa.Some? {
        var i: nat :| IsLastSoa(init, i) && init[i].kind.minTtl == s.soa.value;
        LastSoaExtends(init, last, i);
        assert records[i] == init[i];
      }
    }
  }

  lemma LastSoaUnique(records: seq<Record>, i: nat, j: nat)
    requires IsLastSoa(records, i) && IsLastSoa(records, j)
    ensures i == j
  {
  }

  /** A message gets a positive lifetime exactly when it may be cached, and then the greatest one within
      the cap, every TTL and, for a negative answer, the SOA minimum (section 5 of RFC 2308). */
  lemma LifetimeIsGreatest(m: Msg, configured: int)
    ensures LifetimeOf(m, configured) >= 0
    ensures LifetimeOf(m, configured) > 0 <==> Admissible(m, configured)
    ensures LifetimeOf(m, configured) > 0 ==>
      && Within(m, configured, LifetimeOf(m, configured))
      && forall d :: d > LifetimeOf(m, configured) ==> !Within(m, configured, d)
  {
    var records, s := m.Records(), ScanOf(m.Records());
    hide ScanOf;
    ScanIsZero(records);
    if s.zero {
      var r :| r in records && !r.kind.Opt? && r.ttl == 0;
    } else {
      MinHasMeaning(records);
      SoaHasMeaning(records);
      if s.soa.Some? {
        var i: nat :| IsLastSoa(records, i) && records[i].kind.minTtl == s.soa.value;
        forall j: nat | IsLastSoa(records, j) ensures j == i { LastSoaUnique(records, i, j); }
      } else {
        forall j: nat ensures !IsLastSoa(records, j) { if j < |records| { assert records[j] in records; } }
      }
      if s.found {
        var r :| r in records && !r.kind.Opt? && r.ttl == s.min;
      }
    }
  }

  /** So NXDOMAIN, and NOERROR without an answer, are never kept longer than the last SOA's minimum, nor at all
      without an SOA; for every other message only the cap and some record's TTL decide. */
  lemma OnlyNegativeNeedsSoa(m: Msg, configured: int)
    requires LifetimeOf(m, configured) > 0
    ensures m.rcode == 3 || (m.rcode == 0 && m.answer == []) ==>
      exists i: nat :: IsLastSoa(m.Records(), i)
        && LifetimeOf(m, configured) <= m.Records()[i].kind.minTtl * SECOND
    ensures !(m.rcode == 3 || (m.rcode == 0 && m.answer == [])) ==>
      || LifetimeOf(m, configured) == configured
      || exists r :: r in m.Records() && !r.kind.Opt? && LifetimeOf(m, configured) == r.ttl * SECOND
  {
    hide LifetimeOf;
    LifetimeIsGreatest(m, configured);
    var d := LifetimeOf(m, configured);
    assert !Within(m, configured, d + 1);
  }

  /** The product of a uint32 of seconds and a second, and the cap a valid configuration gives, fit an int64. */
  lemma DurationsFit(seconds: Uint32, cacheTtl: nat)
    requires cacheTtl <= 7 * 24 * 60 * 60
    ensures Wrap64(seconds * SECOND) == seconds * SECOND && Wrap64(cacheTtl * SECOND) == cacheTtl * SECOND
  {
    assert 0 <= seconds * SECOND < INT64_LIMIT;
  }

  // ---- ageing ----

  function AgedTtl(ttl: Uint32, elapsed: Uint32): Uint32 {
    if ttl > elapsed then ttl - elapsed else 0
  }

  function AgedRecords(records: seq<Record>, elapsed: Uint32): (r: seq<Record>)
    ensures |r| == |records|
  {
    seq(|records|, i requires 0 <= i < |records| => records[i].(ttl := AgedTtl(records[i].ttl, elapsed)))
  }

  /** decrementMessageTTL; OPT records are aged like the others */
  function Aged(m: Msg, elapsed: Uint32): Msg {
    m.(answer := AgedRecords(m.answer, elapsed), ns := AgedRecords(m.ns, elapsed),
       extra := AgedRecords(m.extra, elapsed))
  }

  /** time.Time.Sub: the difference, kept within an int64 */
  function Sub(t: int, u: int): int {
    if t - u >= INT64_LIMIT then INT64_LIMIT - 1 else if t - u < 0 - INT64_LIMIT then 0 - INT64_LIMIT else t - u
  }

  /** d / time.Second, which truncates towards zero */
  function WholeSeconds(d: int): int {
    if d >= 0 then d / SECOND else 0 - (0 - d) / SECOND
  }

  /** uint32(readAt.Sub(storedAt) / time.Second). The clock is read before the table is locked, so the entry
      found may be younger than the reading. */
  function Elapsed(storedAt: int, readAt: int): Uint32 {
    WholeSeconds(Sub(readAt, storedAt)) % UINT32_SIZE
  }

  /** The whole seconds by which the reading came before the entry was stored. */
  function Early(storedAt: int, readAt: int): nat {
    if readAt < storedAt then 0 - WholeSeconds(Sub(readAt, storedAt)) else 0
  }

  /** The whole seconds that the entry had been stored at the reading. */
  function Age(storedAt: int, readAt: int): nat {
    if readAt < storedAt then 0 else (readAt - storedAt) / SECOND
  }

  lemma RecordOutlives(m: Msg, configured: int, age: int, r: Record)
    requires 0 <= age < LifetimeOf(m, configured)
    requires r in m.Records() && !r.kind.Opt?
    ensures age / SECOND < r.ttl
  {
    hide LifetimeOf;
    LifetimeIsGreatest(m, configured);
    assert age < r.ttl * SECOND;
  }

  /** The conversion to uint32 gives the age, less the seconds of an early reading, modulo 2^32. */
  lemma ElapsedIs(storedAt: int, readAt: int)
    requires readAt - storedAt < UINT32_SIZE * SECOND
    ensures readAt >= storedAt ==> Elapsed(storedAt, readAt) == Age(storedAt, readAt)
    ensures readAt < storedAt ==>
      var early := Early(storedAt, readAt) % UINT32_SIZE;
      Elapsed(storedAt, readAt) == if early == 0 then 0 else UINT32_SIZE - early
  {
    if readAt >= storedAt {
      assert (readAt - storedAt) / SECOND < UINT32_SIZE;
    } else {
      var early := Early(storedAt, readAt);
    }
  }

  lemma LiveMessage(m: Msg, configured: int, storedAt: int, readAt: int, i: nat)
    requires LifetimeOf(m, configured) > 0 && readAt < storedAt + LifetimeOf(m, configured)
    requires i < |m.Records()| && !m.Records()[i].kind.Opt?
    ensures Age(storedAt, readAt) < m.Records()[i].ttl
    ensures readAt - storedAt < UINT32_SIZE * SECOND
  {
    hide LifetimeOf;
    LifetimeIsGreatest(m, configured);
    RecordOutlives(m, configured, if readAt < storedAt then 0 else readAt - storedAt, m.Records()[i]);
  }

  /** On a hit every non-OPT record is aged by exactly the whole seconds since it was stored, and keeps at
      least one, exactly when the clock was not read a whole second (modulo 2^32) before the storing. A
      reading that came earlier wraps: the record gets what its TTL and the early seconds exceed 2^32 by. */
  lemma LiveRecordsAge(m: Msg, configured: int, storedAt: int, readAt: int, i: nat)
    requires LifetimeOf(m, configured) > 0 && readAt < storedAt + LifetimeOf(m, configured)
    requires i < |m.Records()| && !m.Records()[i].kind.Opt?
    ensures var ttl, early := m.Records()[i].ttl, Early(storedAt, readAt) % UINT32_SIZE;
      var aged := Aged(m, Elapsed(storedAt, readAt)).Records();
      && |aged| == |m.Records()|
      && (aged[i].ttl == ttl - Age(storedAt, readAt) <==> early == 0)
      && (aged[i].ttl >= 1 <==> early == 0 || ttl + early > UINT32_SIZE)
      && (early != 0 ==> aged[i].ttl == if ttl + early > UINT32_SIZE then ttl + early - UINT32_SIZE else 0)
  {
    LiveMessage(m, configured, storedAt, readAt, i);
    hide LifetimeOf;
    ElapsedIs(storedAt, readAt);
    hide Elapsed, Early, Age;
    assert readAt >= storedAt ==> Early(storedAt, readAt) == 0;
    assert readAt < storedAt ==> Age(storedAt, readAt) == 0;
  }

  /** For TTLs as section 8 of RFC 2181 bounds them and readings less than 2^31 seconds early: a record keeps
      a second exactly when the reading came less than a second before the storing, and is at 0 otherwise. */
  lemma LiveRecordsKeepASecondIff(m: Msg, configured: int, storedAt: int, readAt: int, i: nat)
    requires LifetimeOf(m, configured) > 0 && readAt < storedAt + LifetimeOf(m, configured)
    requires i < |m.Records()| && !m.Records()[i].kind.Opt?
    requires m.Records()[i].ttl < 0x8000_0000 && storedAt - readAt < 0x8000_0000 * SECOND
    ensures |Aged(m, Elapsed(storedAt, readAt)).Records()| == |m.Records()|
    ensures Aged(m, Elapsed(storedAt, readAt)).Records()[i].ttl >= 1 <==> storedAt - readAt < SECOND
  {
    hide LifetimeOf, Aged;
    LiveRecordsAge(m, configured, storedAt, readAt, i);
    assert Early(storedAt, readAt) < 0x8000_0000;
  }

  /** An OPT record's TTL holds flags (section 6.1.3 of RFC 6891). On a hit they come back unchanged exactly
      when they are all zero or no whole second lies between the reading and the storing (modulo 2^32);
      otherwise they are counted down like seconds. */
  lemma OptFlagsSurviveIff(m: Msg, configured: int, storedAt: int, readAt: int, i: nat)
    requires LifetimeOf(m, configured) > 0 && readAt < storedAt + LifetimeOf(m, configured)
    requires i < |m.Records()| && m.Records()[i].kind.Opt?
    ensures var flags := m.Records()[i].ttl;
      var aged := Aged(m, Elapsed(storedAt, readAt)).Records();
      && |aged| == |m.Records()| && aged[i].kind.Opt?
      && (aged[i].ttl == flags <==>
           flags == 0 || (Age(storedAt, readAt) == 0 && Early(storedAt, readAt) % UINT32_SIZE == 0))
      && (readAt >= storedAt ==> aged[i].ttl == AgedTtl(flags, Age(storedAt, readAt)))
  {
    LifetimeIsGreatest(m, configured);
    hide LifetimeOf;
    var r :| r in m.Records() && !r.kind.Opt?;
    var k :| 0 <= k < |m.Records()| && m.Records()[k] == r;
    LiveMessage(m, configured, storedAt, readAt, k);
    ElapsedIs(storedAt, readAt);
    hide Elapsed, Early, Age;
  }
}
