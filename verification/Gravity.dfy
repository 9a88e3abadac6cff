/** The gravity index: one sorted, duplicate-free slice of domains, with each list kept as
    positions into it. */
module Gravity {
  import opened Text
  import opened Rules

  // ---- ascending string sequences ----

  ghost predicate Ascending(s: seq<string>) {
    forall i, j :: 0 <= i < j < |s| ==> !Less(s[j], s[i])
  }

  ghost predicate StrictlyAscending(s: seq<string>) {
    forall i, j :: 0 <= i < j < |s| ==> Less(s[i], s[j])
  }

  function Insert(x: string, s: seq<string>): seq<string> {
    if s == [] || !Less(s[0], x) then [x] + s else [s[0]] + Insert(x, s[1..])
  }

  /** sort.Strings */
  function Sort(s: seq<string>): seq<string> {
    if s == [] then [] else Insert(s[0], Sort(s[1..]))
  }

  lemma {:induction false} InsertHolds(x: string, s: seq<string>)
    ensures multiset(Insert(x, s)) == multiset(s) + multiset{x}
  {
    hide Less;
    if s != [] && Less(s[0], x) {
      InsertHolds(x, s[1..]);
      assert s == [s[0]] + s[1..];
    }
  }

  lemma {:induction false} InsertAscends(x: string, s: seq<string>)
    requires Ascending(s)
    ensures Ascending(Insert(x, s))
  {
    hide Less;
    if s == [] {
    } else if !Less(s[0], x) {
      forall j | 0 <= j < |s| ensures !Less(s[j], x) {
        LessTotal(s[0], s[j]);
        if Less(s[j], x) && s[0] != s[j] { LessTransitive(s[0], s[j], x); }
      }
    } else {
      InsertAscends(x, s[1..]);
      InsertHolds(x, s[1..]);
      LessAsymmetric(s[0], x);
      LessIrreflexive(s[0]);
      var r := Insert(x, s[1..]);
      forall j | 0 <= j < |r| ensures !Less(r[j], s[0]) {
        assert r[j] in multiset(r);
        assert r[j] == x || r[j] in s[1..];
      }
    }
  }

  lemma {:induction false} SortSorts(s: seq<string>)
    ensures Ascending(Sort(s)) && multiset(Sort(s)) == multiset(s)
  {
    if s != [] {
      SortSorts(s[1..]);
      InsertAscends(s[0], Sort(s[1..]));
      InsertHolds(s[0], Sort(s[1..]));
      assert s == [s[0]] + s[1..];
    }
  }

  /** Drops an element equal to the last one kept. */
  function Dedup(s: seq<string>): seq<string> {
    if s == [] then []
    else
      var kept, x := Dedup(s[..|s| - 1]), s[|s| - 1];
      if kept != [] && kept[|kept| - 1] == x then kept else kept + [x]
  }

  lemma {:induction false} DedupKeeps(s: seq<string>)
    ensures forall x :: x in Dedup(s) <==> x in s
    ensures |Dedup(s)| <= |s|
    ensures s != [] ==> Dedup(s) != [] && Dedup(s)[|Dedup(s)| - 1] == s[|s| - 1]
  {
    if s != [] {
      DedupKeeps(s[..|s| - 1]);
      assert s == s[..|s| - 1] + [s[|s| - 1]];
    }
  }

  /** Removing adjacent repetitions leaves a strictly ascending sequence exactly when the input ascends. */
  lemma {:induction false} DedupAscends(s: seq<string>)
    ensures StrictlyAscending(Dedup(s)) <==> Ascending(s)
  {
    hide Less;
    if s != [] {
      var t, x := s[..|s| - 1], s[|s| - 1];
      DedupAscends(t);
      DedupKeeps(t);
      var kept, all := Dedup(t), Dedup(s);
      assert forall i :: 0 <= i < |t| ==> t[i] == s[i];
      assert forall i :: 0 <= i < |kept| ==> all[i] == kept[i];
      LessIrreflexive(x);
      if Ascending(s) && all != kept {
        forall i | 0 <= i < |kept| ensures Less(kept[i], x) {
          var last := kept[|kept| - 1];
          assert last == s[|s| - 2];
          LessTotal(last, x);
          if i < |kept| - 1 { LessTransitive(kept[i], last, x); }
        }
      }
      if StrictlyAscending(all) {
        DedupKeeps(s);
        forall i | 0 <= i < |t| ensures !Less(x, t[i]) {
          assert t[i] in kept;
          var k :| 0 <= k < |kept| && kept[k] == t[i];
          if k < |all| - 1 { LessAsymmetric(all[k], all[|all| - 1]); }
        }
      }
    }
  }

  lemma StrictlyAscendingInjective(s: seq<string>, i: nat, j: nat)
    requires StrictlyAscending(s) && i < |s| && j < |s| && s[i] == s[j]
    ensures i == j
  {
    LessIrreflexive(s[i]);
  }

  /** normalizeDomainRule of every domain, empty results left out */
  function Normalized(domains: seq<string>): seq<string> {
    if domains == [] then []
    else
      var d := Normalize(domains[|domains| - 1]);
      Normalized(domains[..|domains| - 1]) + if d == "" then [] else [d]
  }

  lemma {:induction false} NormalizedHolds(domains: seq<string>, x: string)
    ensures x in Normalized(domains) <==> x != "" && exists d :: d in domains && Normalize(d) == x
  {
    hide Normalize;
    if domains != [] {
      var init, last := domains[..|domains| - 1], domains[|domains| - 1];
      NormalizedHolds(init, x);
      assert domains == init + [last];
      assert last in domains;
      if x != "" && exists d :: d in domains && Normalize(d) == x {
        var d :| d in domains && Normalize(d) == x;
        assert d in init || d == last;
      }
    }
  }

  // ---- sort.Search and the two nested binary searches ----

  function Search(lo: nat, hi: nat, f: nat -> bool): (r: nat)
    requires lo <= hi
    ensures lo <= r <= hi
    decreases hi - lo
  {
    if lo == hi then lo
    else
      var h := (lo + hi) / 2;
      if f(h) then Search(lo, h, f) else Search(h + 1, hi, f)
  }

  /** For a monotone test the search stops at the first place where it holds. */
  lemma {:induction false} SearchSplits(lo: nat, hi: nat, f: nat -> bool)
    requires lo <= hi
    requires forall i, j :: lo <= i < j < hi && f(i) ==> f(j)
    ensures forall k :: lo <= k < Search(lo, hi, f) ==> !f(k)
    ensures forall k :: Search(lo, hi, f) <= k < hi ==> f(k)
    decreases hi - lo
  {
    if lo < hi {
      var h := (lo + hi) / 2;
      if f(h) { SearchSplits(lo, h, f); } else { SearchSplits(h + 1, hi, f); }
    }
  }

  function SearchStrings(s: seq<string>, x: string): (i: nat)
    ensures i <= |s|
  {
    Search(0, |s|, (k: nat) => k < |s| && !Less(s[k], x))
  }

  function AtLeast(s: seq<Uint32>, x: nat): nat -> bool {
    (k: nat) => k < |s| && s[k] >= x
  }

  function SearchPositions(s: seq<Uint32>, x: nat): (j: nat)
    ensures j <= |s|
  {
    Search(0, |s|, AtLeast(s, x))
  }

  /** gravityContainsLocked */
  predicate GravityContains(gravity: seq<string>, domain: string) {
    var i := SearchStrings(gravity, domain);
    i < |gravity| && gravity[i] == domain
  }

  /** gravityIndexSetContainsLocked */
  predicate IndexSetContains(gravity: seq<string>, indexes: seq<Uint32>, name: string) {
    var i := SearchStrings(gravity, name);
    if i >= |gravity| || gravity[i] != name || i >= UINT32_SIZE then false
    else
      var j := SearchPositions(indexes, i);
      j < |indexes| && indexes[j] == i
  }

  /** The positions kept for one list. */
  function PositionsOf(gravity: seq<string>, domains: seq<string>): seq<Uint32> {
    if domains == [] then []
    else
      var d := domains[|domains| - 1];
      var i := SearchStrings(gravity, d);
      PositionsOf(gravity, domains[..|domains| - 1])
      + if i < |gravity| && gravity[i] == d && i < UINT32_SIZE then [i] else []
  }

  lemma SearchFinds(s: seq<string>, x: string)
    requires StrictlyAscending(s)
    ensures var i := SearchStrings(s, x);
      && (forall k :: 0 <= k < i ==> Less(s[k], x))
      && (forall k :: i <= k < |s| ==> !Less(s[k], x))
      && (x in s ==> i < |s| && s[i] == x)
  {
    var f := (k: nat) => k < |s| && !Less(s[k], x);
    forall i, j | 0 <= i < j < |s| && f(i) ensures f(j) {
      assert Less(s[i], s[j]);
      if Less(s[j], x) { LessTransitive(s[i], s[j], x); }
    }
    var i := SearchStrings(s, x);
    assert i == Search(0, |s|, f);
    SearchSplits(0, |s|, f);
    hide Search;
    forall k | 0 <= k < i ensures Less(s[k], x) { assert !f(k); }
    forall k | i <= k < |s| ensures !Less(s[k], x) { assert f(k); }
    LessIrreflexive(x);
  }

  lemma SearchFindsPosition(s: seq<Uint32>, x: nat)
    requires forall i, j :: 0 <= i < j < |s| ==> s[i] < s[j]
    ensures var j := SearchPositions(s, x); x in s <==> j < |s| && s[j] == x
  {
    var f := AtLeast(s, x);
    var j := SearchPositions(s, x);
    SearchSplits(0, |s|, f);
    hide Search;
    assert forall k :: 0 <= k < j ==> !f(k);
    assert forall k :: j <= k < |s| ==> f(k);
    if x in s {
      var k :| 0 <= k < |s| && s[k] == x;
      assert f(k);
      assert j <= k;
      assert f(j);
    }
  }

  lemma GravityContainsIsMembership(gravity: seq<string>, name: string)
    requires StrictlyAscending(gravity)
    ensures GravityContains(gravity, name) <==> name in gravity
  {
    SearchFinds(gravity, name);
  }

  /** A position is kept for a list exactly when the search for one of the list's domains lands on it. */
  lemma {:induction false} PositionsHold(gravity: seq<string>, domains: seq<string>, p: Uint32)
    ensures p in PositionsOf(gravity, domains) <==>
      p < |gravity| && exists d :: d in domains && SearchStrings(gravity, d) == p && gravity[p] == d
  {
    hide SearchStrings;
    if domains != [] {
      var init, last := domains[..|domains| - 1], domains[|domains| - 1];
      PositionsHold(gravity, init, p);
      assert domains == init + [last];
      assert last in domains;
      if p < |gravity| && exists d :: d in domains && SearchStrings(gravity, d) == p && gravity[p] == d {
        var d :| d in domains && SearchStrings(gravity, d) == p && gravity[p] == d;
        assert d in init || d == last;
      }
    }
  }

  lemma PositionsBelow(gravity: seq<string>, init: seq<string>, last: string, p: Uint32)
    requires StrictlyAscending(gravity) && StrictlyAscending(init + [last])
    requires p in PositionsOf(gravity, init)
    requires var q := SearchStrings(gravity, last); q < |gravity| && gravity[q] == last
    ensures p < SearchStrings(gravity, last)
  {
    hide Less, SearchStrings, PositionsOf;
    var q := SearchStrings(gravity, last);
    PositionsHold(gravity, init, p);
    var d :| d in init && SearchStrings(gravity, d) == p && gravity[p] == d;
    var m :| 0 <= m < |init| && init[m] == d;
    assert (init + [last])[m] == d && (init + [last])[|init|] == last;
    LessIrreflexive(d);
    LessAsymmetric(d, last);
  }

  lemma {:induction false} PositionsAscend(gravity: seq<string>, domains: seq<string>)
    requires StrictlyAscending(gravity) && StrictlyAscending(domains)
    ensures forall i, j :: 0 <= i < j < |PositionsOf(gravity, domains)| ==>
      PositionsOf(gravity, domains)[i] < PositionsOf(gravity, domains)[j]
  {
    hide Less, SearchStrings;
    if domains != [] {
      var init, last := domains[..|domains| - 1], domains[|domains| - 1];
      PositionsAscend(gravity, init);
      assert domains == init + [last];
      var before := PositionsOf(gravity, init);
      var q := SearchStrings(gravity, last);
      if q < |gravity| && gravity[q] == last && q < UINT32_SIZE {
        forall k | 0 <= k < |before| ensures before[k] < q {
          PositionsBelow(gravity, init, last, before[k]);
        }
      }
    }
  }

  /** No precondition at all: the double search never says yes wrongly. */
  lemma IndexNeverWronglyYes(gravity: seq<string>, list: seq<string>, name: string)
    requires IndexSetContains(gravity, PositionsOf(gravity, list), name)
    ensures name in list && name in gravity
  {
    var i := SearchStrings(gravity, name);
    var j := SearchPositions(PositionsOf(gravity, list), i);
    assert i in PositionsOf(gravity, list);
    PositionsHold(gravity, list, i);
  }

  /** For ascending lists the double search is membership of both, for every position a uint32 can hold. */
  lemma IndexIsMembership(gravity: seq<string>, list: seq<string>, name: string)
    requires StrictlyAscending(gravity) && StrictlyAscending(list)
    ensures IndexSetContains(gravity, PositionsOf(gravity, list), name)
      <==> name in list && name in gravity[..if |gravity| < UINT32_SIZE then |gravity| else UINT32_SIZE]
  {
    SearchFinds(gravity, name);
    var bound := if |gravity| < UINT32_SIZE then |gravity| else UINT32_SIZE;
    var i := SearchStrings(gravity, name);
    if IndexSetContains(gravity, PositionsOf(gravity, list), name) {
      IndexNeverWronglyYes(gravity, list, name);
      assert gravity[..bound][i] == name;
    }
    if name in list && name in gravity[..bound] {
      var k :| 0 <= k < bound && gravity[..bound][k] == name;
      assert gravity[k] == name;
      StrictlyAscendingInjective(gravity, i, k);
      PositionsHold(gravity, list, i);
      PositionsAscend(gravity, list);
      SearchFindsPosition(PositionsOf(gravity, list), i);
    }
  }

  // ---- merging ----

  /** mergeGravityLocked */
  function Merged(gravity: seq<string>, domains: seq<string>): seq<string> {
    if domains == [] then gravity else Dedup(Sort(gravity + Normalized(domains)))
  }

  /** Merging keeps gravity strictly ascending and makes it, as a set, the old gravity and the new domains. */
  lemma MergeIsSortedUnion(gravity: seq<string>, domains: seq<string>)
    requires StrictlyAscending(gravity)
    ensures StrictlyAscending(Merged(gravity, domains))
    ensures forall x :: x in Merged(gravity, domains) <==>
      x in gravity || (x != "" && exists d :: d in domains && Normalize(d) == x)
  {
    hide Less, Normalize, Sort, Dedup, Normalized;
    if domains != [] {
      var all := gravity + Normalized(domains);
      SortSorts(all);
      DedupAscends(Sort(all));
      DedupKeeps(Sort(all));
      forall x ensures x in Merged(gravity, domains) <==>
        x in gravity || (x != "" && exists d :: d in domains && Normalize(d) == x)
      {
        NormalizedHolds(domains, x);
        assert x in Sort(all) <==> x in multiset(Sort(all));
        assert x in all <==> x in multiset(all);
      }
    }
  }

  // ---- one list: sorted first, normalised while it is compacted ----

  /** The domains loadOneBlocklist keeps for a list. */
  function ListExact(raw: seq<string>): seq<string> {
    Dedup(Normalized(Sort(raw)))
  }

  lemma ListExactHolds(raw: seq<string>, x: string)
    ensures x in ListExact(raw) <==> x != "" && exists d :: d in raw && Normalize(d) == x
  {
    SortSorts(raw);
    DedupKeeps(Normalized(Sort(raw)));
    NormalizedHolds(Sort(raw), x);
    assert forall d :: d in raw <==> d in multiset(raw);
    assert forall d :: d in Sort(raw) <==> d in multiset(Sort(raw));
  }

  /** Two entries whose order normalising turns round. */
  ghost predicate Inverted(raw: seq<string>, a: string, b: string) {
    a in raw && b in raw && Less(a, b) && Normalize(b) != "" && Less(Normalize(b), Normalize(a))
  }

  lemma LastIsGreatest(init: seq<string>, last: string, a: string)
    requires Ascending(init + [last]) && a in init
    ensures !Less(last, a)
  {
    var k :| 0 <= k < |init| && init[k] == a;
    assert (init + [last])[k] == a && (init + [last])[|init|] == last;
  }

  lemma LastInverts(init: seq<string>, last: string)
    requires Ascending(init + [last]) && Normalize(last) != ""
    ensures (exists i :: 0 <= i < |Normalized(init)| && Less(Normalize(last), Normalized(init)[i]))
      <==> exists a :: Inverted(init + [last], a, last)
  {
    hide Less, Normalize;
    var n, d, s := Normalized(init), Normalize(last), init + [last];
    assert last in s;
    LessIrreflexive(d);
    LessIrreflexive(last);
    if i :| 0 <= i < |n| && Less(d, n[i]) {
      NormalizedHolds(init, n[i]);
      var a :| a in init && Normalize(a) == n[i];
      LastIsGreatest(init, last, a);
      LessTotal(a, last);
      assert Inverted(s, a, last);
    }
    if a :| Inverted(s, a, last) {
      assert a in init;
      NotLessThanEmpty(d);
      NormalizedHolds(init, Normalize(a));
      var i :| 0 <= i < |n| && n[i] == Normalize(a);
    }
  }

  lemma NotLessThanEmpty(d: string)
    ensures !Less(d, "")
  {
  }

  /** An inversion of the longer sequence is one of the shorter, or its second entry is the last. */
  lemma InversionSplits(init: seq<string>, last: string)
    requires Ascending(init + [last])
    ensures (exists a, b :: Inverted(init + [last], a, b))
      <==> (exists a, b :: Inverted(init, a, b)) || exists a :: Inverted(init + [last], a, last)
  {
    hide Less, Normalize;
    var s := init + [last];
    if a, b :| Inverted(init, a, b) {
      assert Inverted(s, a, b);
    }
    if a, b :| Inverted(s, a, b) {
      LessIrreflexive(last);
      if b in init {
        LastIsGreatest(init, last, b);
        if a in init { assert Inverted(init, a, b); }
      }
    }
  }

  lemma AscendingExtends(n: seq<string>, d: string)
    ensures Ascending(n + [d]) <==> Ascending(n) && !exists i :: 0 <= i < |n| && Less(d, n[i])
  {
    hide Less;
    var m := n + [d];
    assert forall i :: 0 <= i < |n| ==> m[i] == n[i];
    assert m[|n|] == d;
    if Ascending(m) {
      assert forall i :: 0 <= i < |n| ==> !Less(m[|n|], m[i]);
    }
  }

  lemma {:induction false} NormalizedAscends(s: seq<string>)
    requires Ascending(s)
    ensures Ascending(Normalized(s)) <==> !exists a, b :: Inverted(s, a, b)
  {
    hide Less, Normalize;
    if s != [] {
      var init, last := s[..|s| - 1], s[|s| - 1];
      NormalizedAscends(init);
      assert s == init + [last];
      InversionSplits(init, last);
      if Normalize(last) != "" {
        LastInverts(init, last);
        AscendingExtends(Normalized(init), Normalize(last));
      } else {
        assert Normalized(s) == Normalized(init);
      }
    }
  }

  /** What a load keeps for a list is strictly ascending exactly when normalising turns no two entries round. */
  lemma ListExactAscends(raw: seq<string>)
    ensures StrictlyAscending(ListExact(raw)) <==> !exists a, b :: Inverted(raw, a, b)
  {
    hide Less, Normalize;
    SortSorts(raw);
    DedupAscends(Normalized(Sort(raw)));
    NormalizedAscends(Sort(raw));
    assert forall d :: d in raw <==> d in multiset(raw);
    assert forall d :: d in Sort(raw) <==> d in multiset(Sort(raw));
    assert forall a, b :: Inverted(raw, a, b) <==> Inverted(Sort(raw), a, b);
  }

  /** Domains normalising leaves alone are never turned round. */
  lemma FixpointListsAscend(raw: seq<string>)
    requires forall d :: d in raw ==> Normalize(d) == d
    ensures StrictlyAscending(ListExact(raw))
  {
    ListExactAscends(raw);
    if a, b :| Inverted(raw, a, b) {
      LessAsymmetric(a, b);
    }
  }

  // ---- what turns entries round, for exact entries already lower-cased and trimmed ----

  predicate Tidy(d: string) {
    Lower(TrimSpace(d)) == d && !IsRegexRule(d)
  }

  /** b carries a trailing dot, and a continues b without its dot by a character below the dot. */
  ghost predicate DotClash(raw: seq<string>, a: string, b: string) {
    && a in raw && b in raw
    && |b| > 1 && b[|b| - 1] == '.'
    && |b| - 1 < |a| && a[..|b| - 1] == b[..|b| - 1] && a[|b| - 1] < '.'
  }

  lemma {:induction false} LessFromPrefix(c: string, r: string, t: string)
    requires Less(r, t)
    ensures Less(c + r, c + t)
  {
    if c == [] {
      assert c + r == r && c + t == t;
    } else {
      LessFromPrefix(c[1..], r, t);
      assert (c + r)[1..] == c[1..] + r && (c + t)[1..] == c[1..] + t;
    }
  }

  lemma {:induction false} BetweenDots(c: string, a: string)
    requires Less(c, a) && Less(a, c + ".")
    ensures |c| < |a| && a[..|c|] == c && a[|c|] < '.'
  {
    if c == [] {
      assert c + "." == ".";
    } else {
      assert (c + ".")[1..] == c[1..] + "." && (c + ".")[0] == c[0];
      BetweenDots(c[1..], a[1..]);
      assert a == [a[0]] + a[1..] && c == [c[0]] + c[1..];
      assert a[1..][|c| - 1] == a[|c|];
      assert a[..|c|] == [a[0]] + a[1..][..|c| - 1];
    }
  }

  lemma TrimDotNotGreater(a: string)
    ensures TrimDot(a) == a || Less(TrimDot(a), a)
  {
    if TrimDot(a) != a {
      var c := a[..|a| - 1];
      assert Less("", ".");
      LessFromPrefix(c, "", ".");
      assert c + "" == c && c + "." == a;
    }
  }

  lemma ClashOrder(c: string, r: string)
    requires r != [] && r[0] < '.'
    ensures Less(c + r, c + ".") && Less(c, TrimDot(c + r))
  {
    LessFromPrefix(c, r, ".");
    var t := TrimDot(c + r);
    assert (c + r)[|c|..] == r;
    assert (c + r)[|c + r| - 1] == r[|r| - 1];
    if |r| == 1 { assert t == c + r; }
    assert t == c + t[|c|..] && t[|c|..] != "";
    LessFromPrefix(c, "", t[|c|..]);
    assert c + "" == c;
  }

  lemma InvertedOrder(a: string, b: string)
    requires Less(a, b) && Less(TrimDot(b), TrimDot(a))
    ensures TrimDot(b) != b && Less(TrimDot(b), a)
  {
    hide Less;
    TrimDotNotGreater(a);
    if TrimDot(a) != a {
      LessTransitive(TrimDot(a), a, b);
      LessTransitive(TrimDot(b), TrimDot(a), a);
    }
    LessAsymmetric(TrimDot(a), b);
  }

  lemma TidyNormalizes(d: string)
    requires Tidy(d)
    ensures Normalize(d) == TrimDot(d)
  {
  }

  lemma ClashInverts(raw: seq<string>, a: string, b: string)
    requires a in raw && b in raw && Tidy(a) && Tidy(b)
    ensures DotClash(raw, a, b) <==> Inverted(raw, a, b)
  {
    hide Less, Normalize, Tidy;
    TidyNormalizes(a);
    TidyNormalizes(b);
    if DotClash(raw, a, b) {
      var c, r := b[..|b| - 1], a[|b| - 1..];
      assert a == c + r && b == c + ".";
      ClashOrder(c, r);
    }
    if Inverted(raw, a, b) {
      InvertedOrder(a, b);
      var c := b[..|b| - 1];
      assert b == c + ".";
      BetweenDots(c, a);
    }
  }

  /** For tidy entries the kept list is ascending exactly when no entry with a trailing dot meets an
      entry that continues it by a character below the dot ("x." and "x-", say). */
  lemma TidyListsAscend(raw: seq<string>)
    requires forall d :: d in raw ==> Tidy(d)
    ensures StrictlyAscending(ListExact(raw)) <==> !exists a, b :: DotClash(raw, a, b)
  {
    ListExactAscends(raw);
    forall a, b ensures DotClash(raw, a, b) <==> Inverted(raw, a, b) {
      if a in raw && b in raw { ClashInverts(raw, a, b); }
    }
  }

  const CLASHING: seq<string> := ["x-", "x."]

  lemma ClashingNames()
    ensures Less("x", "x-") && Less("x-", "x.")
    ensures StrictlyAscending(["x", "x-"])
  {
    assert "x-"[1..] == "-" && "x."[1..] == "." && "x"[1..] == "";
    assert ["x", "x-"][0] == "x" && ["x", "x-"][1] == "x-";
  }

  lemma SortOne(a: string)
    ensures Sort([a]) == [a]
  {
    assert [a][1..] == [];
  }

  lemma InsertOne(x: string, y: string)
    ensures Insert(x, [y]) == if Less(y, x) then [y, x] else [x, y]
  {
    hide Less;
    assert [y][1..] == [];
  }

  lemma SortTwo(x: string, y: string)
    ensures Sort([x, y]) == if Less(y, x) then [y, x] else [x, y]
  {
    hide Less, Insert;
    assert [x, y][1..] == [y];
    SortOne(y);
    InsertOne(x, y);
  }

  lemma SortPair(a: string, b: string)
    requires Less(a, b)
    ensures Sort([a, b]) == [a, b] && Sort([b, a]) == [a, b]
  {
    LessAsymmetric(a, b);
    hide Less, Sort;
    SortTwo(a, b);
    SortTwo(b, a);
  }

  lemma NormalizedClashing()
    ensures Normalized(CLASHING) == ["x-", "x"]
  {
    DottedLine();
    hide Normalize;
    NormalizedPair("x-", "x.");
  }

  lemma NormalizedPair(a: string, b: string)
    requires Normalize(a) != "" && Normalize(b) != ""
    ensures Normalized([a, b]) == [Normalize(a), Normalize(b)]
  {
    hide Normalize;
    assert [a, b][..1] == [a] && [a][..0] == [];
    assert Normalized([a]) == [Normalize(a)];
  }

  lemma ClashingPositions()
    ensures PositionsOf(["x", "x-"], ["x-", "x"]) == [1, 0]
    ensures SearchStrings(["x", "x-"], "x") == 0
  {
    var gravity, list := ["x", "x-"], ["x-", "x"];
    ClashingNames();
    LessIrreflexive("x");
    LessIrreflexive("x-");
    SearchFinds(gravity, "x");
    SearchFinds(gravity, "x-");
    assert gravity[0] == "x" && gravity[1] == "x-";
    StrictlyAscendingInjective(gravity, SearchStrings(gravity, "x"), 0);
    StrictlyAscendingInjective(gravity, SearchStrings(gravity, "x-"), 1);
    hide Less, SearchStrings;
    assert list[..1] == ["x-"] && ["x-"][..0] == [];
    assert PositionsOf(gravity, ["x-"]) == [1];
  }

  /** The clash is real: from the entries "x-" and "x." both names are on the list and in gravity, and yet
      the index denies "x". Reading a line normalises once already, so "x." is what the line "x.." leaves. */
  lemma ClashingListMisses()
    ensures "x" in ListExact(CLASHING) && "x" in Merged([], CLASHING)
    ensures !IndexSetContains(Merged([], CLASHING), PositionsOf(Merged([], CLASHING), ListExact(CLASHING)), "x")
  {
    hide Less, Normalize, PositionsOf, SearchStrings;
    NormalizedClashing();
    ClashingNames();
    SortPair("x-", "x.");
    SortPair("x", "x-");
    DedupPair("x-", "x");
    DedupPair("x", "x-");
    assert [] + ["x-", "x"] == ["x-", "x"];
    assert ListExact(CLASHING) == ["x-", "x"] && Merged([], CLASHING) == ["x", "x-"];
    ClashingPositions();
    var f := AtLeast([1, 0], 0);
    assert Search(0, 2, f) == Search(0, 1, f) == Search(0, 0, f) == 0;
  }

  lemma DottedLine()
    ensures Normalize("x-") == "x-" && Normalize("x..") == "x." && Normalize("x.") == "x"
  {
    NormalizeClean("x-");
    NormalizeClean("x.");
    NormalizeDots();
    hide Normalize;
    assert TrimDot("x-") == "x-" && TrimDot("x.") == "x";
  }

  lemma NormalizeDots()
    ensures Normalize("x..") == "x."
  {
    var d := "x..";
    assert TrimLeft(d) == d && TrimRight(d) == d;
    assert Lower(d) == d;
    NotAPrefix("regex:", d, 0);
    assert d[2..] == ".";
    assert TrimDot(d) == d[..2];
  }

  lemma NormalizeClean(d: string)
    requires d == "x-" || d == "x."
    ensures Normalize(d) == TrimDot(d)
  {
    assert TrimLeft(d) == d && TrimRight(d) == d;
    assert Lower(d) == d;
    assert !("regex:" <= d);
  }

  lemma DedupPair(a: string, b: string)
    requires a != b
    ensures Dedup([a, b]) == [a, b]
  {
    assert [a, b][..1] == [a] && [a][..0] == [];
    assert Dedup([a]) == [a];
  }

  /** After a merge and rebuild, the question "is this name on that remote list" is answered by the
      normalised entries of the list, whatever else gravity holds. */
  lemma LoadedListAnswers(before: seq<string>, domains: seq<string>, raw: seq<string>, name: string)
    requires StrictlyAscending(before)
    requires forall d :: d in raw ==> d in domains
    requires !exists a, b :: Inverted(raw, a, b)
    requires |Merged(before, domains)| <= UINT32_SIZE
    ensures var gravity := Merged(before, domains);
      IndexSetContains(gravity, PositionsOf(gravity, ListExact(raw)), name)
      <==> name != "" && exists d :: d in raw && Normalize(d) == name
  {
    hide IndexSetContains, PositionsOf, ListExact, Merged, Normalize;
    var gravity := Merged(before, domains);
    MergeIsSortedUnion(before, domains);
    ListExactAscends(raw);
    ListExactHolds(raw, name);
    IndexIsMembership(gravity, ListExact(raw), name);
    assert gravity[..|gravity|] == gravity;
  }

  // ---- when the index of a list answers right ----

  /** No two different entries normalise to the same domain. */
  ghost predicate Apart(raw: seq<string>) {
    forall a, b :: a in raw && b in raw && a != b && Normalize(a) == Normalize(b) ==> Normalize(a) == ""
  }

  lemma EqualEntriesMeet(init: seq<string>, last: string, k: nat)
    requires Ascending(init + [last]) && k < |init| && init[k] == last
    ensures init[|init| - 1] == last
  {
    var s := init + [last];
    assert s[k] == last && s[|init|] == last && s[|init| - 1] == init[|init| - 1];
    LessTotal(init[|init| - 1], last);
  }

  /** What repeats the normal form of an earlier entry repeats the last one kept. */
  lemma RepeatIsLast(init: seq<string>, last: string)
    requires Ascending(init + [last]) && Apart(init + [last])
    requires Normalize(last) != "" && Normalize(last) in Normalized(init)
    ensures var kept := Dedup(Normalized(init)); kept != [] && kept[|kept| - 1] == Normalize(last)
  {
    hide Less, Normalize, Dedup, Normalized, Ascending;
    var s, d := init + [last], Normalize(last);
    NormalizedHolds(init, d);
    var a :| a in init && Normalize(a) == d;
    assert a in s && last in s;
    var k :| 0 <= k < |init| && init[k] == a;
    EqualEntriesMeet(init, last, k);
    EndsWithNormal(init);
    DedupKeeps(Normalized(init));
  }

  lemma EndsWithNormal(init: seq<string>)
    requires init != [] && Normalize(init[|init| - 1]) != ""
    ensures var n := Normalized(init); n != [] && n[|n| - 1] == Normalize(init[|init| - 1])
  {
    hide Normalize;
  }

  lemma {:induction false} KeptWithoutRepeats(s: seq<string>)
    requires Ascending(s) && Apart(s)
    ensures NoRepeats(Dedup(Normalized(s)))
  {
    hide Less, Normalize, Dedup, Normalized;
    if s == [] {
      EmptyCompaction();
    } else {
      var init, last := s[..|s| - 1], s[|s| - 1];
      assert s == init + [last] && s[..|init| + 1] == s;
      KeptWithoutRepeats(init);
      CompactionStep(s, |init|);
      DedupKeeps(Normalized(init));
      if Normalize(last) in Normalized(init) && Normalize(last) != "" {
        RepeatIsLast(init, last);
      }
    }
  }

  ghost predicate Rising(s: seq<Uint32>, lo: nat, hi: nat)
    requires lo <= hi <= |s|
  {
    forall i, j :: lo <= i < j < hi ==> s[i] <= s[j]
  }

  ghost predicate AllFound(s: seq<Uint32>, lo: nat, hi: nat)
    requires lo <= hi <= |s|
  {
    forall p: nat :: lo <= p < hi ==> Search(lo, hi, AtLeast(s, s[p])) == p
  }

  lemma HalvesAreFound(s: seq<Uint32>, lo: nat, h: nat, hi: nat)
    requires lo < hi <= |s| && h == (lo + hi) / 2 && AllFound(s, lo, hi)
    ensures AllFound(s, lo, h) && AllFound(s, h + 1, hi)
    ensures forall p: nat :: lo <= p < hi ==> (p < h ==> s[p] <= s[h]) && (p > h ==> s[h] < s[p])
  {
    hide Search, AtLeast;
    forall p: nat | lo <= p < hi
      ensures p < h ==> Search(lo, h, AtLeast(s, s[p])) == p && s[p] <= s[h]
      ensures p > h ==> Search(h + 1, hi, AtLeast(s, s[p])) == p && s[h] < s[p]
    {
      FoundInHalf(s, lo, hi, p);
    }
  }

  lemma HalvesRise(s: seq<Uint32>, lo: nat, h: nat, hi: nat)
    requires lo <= h < hi <= |s| && Rising(s, lo, h) && Rising(s, h + 1, hi)
    requires forall p: nat :: lo <= p < hi ==> (p < h ==> s[p] <= s[h]) && (p > h ==> s[h] < s[p])
    ensures Rising(s, lo, hi)
  {
    forall i, j | lo <= i < j < hi ensures s[i] <= s[j] {
    }
  }

  /** A binary search that finds every element of distinct positions proves that they ascend. */
  lemma {:induction false} AllFoundAscend(s: seq<Uint32>, lo: nat, hi: nat)
    requires lo <= hi <= |s| && AllFound(s, lo, hi)
    ensures Rising(s, lo, hi)
    decreases hi - lo
  {
    if lo < hi {
      hide AllFound, Rising;
      var h := (lo + hi) / 2;
      HalvesAreFound(s, lo, h, hi);
      AllFoundAscend(s, lo, h);
      AllFoundAscend(s, h + 1, hi);
      HalvesRise(s, lo, h, hi);
    }
  }

  /** The search for an element goes to the half that holds it. */
  lemma FoundInHalf(s: seq<Uint32>, lo: nat, hi: nat, p: nat)
    requires lo <= p < hi <= |s| && Search(lo, hi, AtLeast(s, s[p])) == p
    ensures var h := (lo + hi) / 2;
      && (p < h ==> Search(lo, h, AtLeast(s, s[p])) == p && s[p] <= s[h])
      && (p > h ==> Search(h + 1, hi, AtLeast(s, s[p])) == p && s[h] < s[p])
  {
    hide AtLeast;
    AtLeastMeans(s, s[p], (lo + hi) / 2);
  }

  lemma AtLeastMeans(s: seq<Uint32>, x: nat, k: nat)
    requires k < |s|
    ensures AtLeast(s, x)(k) <==> s[k] >= x
  {
  }

  /** Domains that are all in gravity have their positions, in the order of the list. */
  lemma {:induction false} PositionsAlign(gravity: seq<string>, list: seq<string>)
    requires StrictlyAscending(gravity) && |gravity| <= UINT32_SIZE
    requires forall d :: d in list ==> d in gravity
    ensures |PositionsOf(gravity, list)| == |list|
    ensures forall k :: 0 <= k < |list| ==> IsPosition(gravity, list[k], PositionsOf(gravity, list)[k])
  {
    hide Less, SearchStrings, StrictlyAscending, PositionsOf;
    if list == [] {
      PositionsUnfold(gravity, list);
    } else {
      var init, last := list[..|list| - 1], list[|list| - 1];
      PositionsAlign(gravity, init);
      assert last in list;
      SearchFinds(gravity, last);
      PositionsUnfold(gravity, list);
    }
  }

  predicate IsPosition(gravity: seq<string>, d: string, p: Uint32) {
    p < |gravity| && gravity[p] == d
  }

  lemma PositionsUnfold(gravity: seq<string>, list: seq<string>)
    ensures PositionsOf(gravity, list) ==
      if list == [] then []
      else
        var d := list[|list| - 1];
        var i := SearchStrings(gravity, d);
        PositionsOf(gravity, list[..|list| - 1])
        + if i < |gravity| && gravity[i] == d && i < UINT32_SIZE then [i] else []
  {
    hide SearchStrings;
  }

  /** If the index of a list without repetitions finds all that is on it, the list ascends. */
  lemma FoundListAscends(gravity: seq<string>, list: seq<string>)
    requires StrictlyAscending(gravity) && |gravity| <= UINT32_SIZE && NoRepeats(list)
    requires forall d :: d in list ==> d in gravity
    requires forall d :: d in list ==> IndexSetContains(gravity, PositionsOf(gravity, list), d)
    ensures StrictlyAscending(list)
  {
    hide Less, SearchStrings, PositionsOf, AtLeast;
    var positions := PositionsOf(gravity, list);
    PositionsAlign(gravity, list);
    forall p: nat | p < |positions| ensures Search(0, |positions|, AtLeast(positions, positions[p])) == p {
      assert list[p] in list && IsPosition(gravity, list[p], positions[p]);
      SearchFinds(gravity, list[p]);
      StrictlyAscendingInjective(gravity, SearchStrings(gravity, list[p]), positions[p]);
      var j := SearchPositions(positions, positions[p]);
      assert positions[j] == positions[p] && IsPosition(gravity, list[j], positions[j]);
    }
    AllFoundAscend(positions, 0, |positions|);
    forall i, j | 0 <= i < j < |list| ensures Less(list[i], list[j]) {
      assert IsPosition(gravity, list[i], positions[i]) && IsPosition(gravity, list[j], positions[j]);
      assert positions[i] != positions[j];
    }
  }

  /** The index of the list answers for every name whether some entry normalises to it. */
  ghost predicate AnswersRight(gravity: seq<string>, raw: seq<string>) {
    forall name :: IndexSetContains(gravity, PositionsOf(gravity, ListExact(raw)), name) <==>
      name != "" && exists d :: d in raw && Normalize(d) == name
  }

  /** When no two different entries normalise alike, the index answers right for every name exactly when
      normalising turns no two entries round. */
  lemma IndexAnswersIff(before: seq<string>, domains: seq<string>, raw: seq<string>)
    requires StrictlyAscending(before) && Apart(raw)
    requires forall d :: d in raw ==> d in domains
    requires |Merged(before, domains)| <= UINT32_SIZE
    ensures AnswersRight(Merged(before, domains), raw) <==> !exists a, b :: Inverted(raw, a, b)
  {
    hide IndexSetContains, PositionsOf, Merged, Normalize, Less, Sort, Dedup, Normalized, Inverted, StrictlyAscending;
    var gravity, list := Merged(before, domains), ListExact(raw);
    MergeIsSortedUnion(before, domains);
    ListExactAscends(raw);
    forall name ensures name in list <==> name != "" && exists d :: d in raw && Normalize(d) == name {
      ListExactHolds(raw, name);
    }
    if !exists a, b :: Inverted(raw, a, b) {
      forall name {
        LoadedListAnswers(before, domains, raw, name);
      }
    } else if AnswersRight(gravity, raw) {
      SortSorts(raw);
      SortKeepsApart(raw);
      KeptWithoutRepeats(Sort(raw));
      forall d | d in list ensures d in gravity && IndexSetContains(gravity, PositionsOf(gravity, list), d) {
        ListExactHolds(raw, d);
      }
      FoundListAscends(gravity, list);
    }
  }

  lemma SortKeepsApart(raw: seq<string>)
    requires Apart(raw)
    ensures Apart(Sort(raw))
  {
    hide Less, Normalize;
    SortSorts(raw);
    assert forall d :: d in raw <==> d in multiset(raw);
    assert forall d :: d in Sort(raw) <==> d in multiset(Sort(raw));
  }

  const REPEATING: seq<string> := ["x", "x-", "x."]

  lemma SortAscending(a: string, b: string, c: string)
    requires Less(a, b) && Less(b, c)
    ensures Sort([a, b, c]) == [a, b, c]
  {
    LessAsymmetric(a, b);
    SortPair(b, c);
    hide Less;
    assert [a, b, c][1..] == [b, c];
  }

  lemma NormalizedThree(a: string, b: string, c: string)
    requires Normalize(a) != "" && Normalize(b) != "" && Normalize(c) != ""
    ensures Normalized([a, b, c]) == [Normalize(a), Normalize(b), Normalize(c)]
  {
    NormalizedPair(a, b);
    hide Normalize;
    assert [a, b, c][..2] == [a, b];
  }

  lemma RepeatingKept()
    ensures Sort(REPEATING) == REPEATING && Normalized(REPEATING) == ["x", "x-", "x"]
  {
    ClashingNames();
    DottedLine();
    NormalizeX();
    hide Less, Normalize, Sort, Normalized;
    SortAscending("x", "x-", "x.");
    NormalizedThree("x", "x-", "x.");
  }

  lemma NormalizeX()
    ensures Normalize("x") == "x"
  {
    assert TrimLeft("x") == "x" && TrimRight("x") == "x";
    assert Lower("x") == "x";
    NotAPrefix("regex:", "x", 0);
    NotAPrefix(".", "x", 0);
    assert "x"[0..] == "x";
  }

  lemma DedupThree(a: string, b: string)
    requires a != b
    ensures Dedup([a, b, a]) == [a, b, a] && Dedup([a, a, b]) == [a, b]
  {
    DedupPair(a, b);
    assert [a, b, a][..2] == [a, b] && [a, a, b][..2] == [a, a] && [a, a][..1] == [a] && [a][..0] == [];
    assert Dedup([a]) == [a] && Dedup([a, a]) == [a];
  }

  lemma SortThree(a: string, b: string)
    requires Less(a, b)
    ensures Sort([a, b, a]) == [a, a, b]
  {
    LessIrreflexive(a);
    SortPair(a, b);
    hide Less;
    assert [a, b, a][1..] == [b, a];
  }

  lemma RepeatingMerged()
    ensures ListExact(REPEATING) == ["x", "x-", "x"] && Merged([], REPEATING) == ["x", "x-"]
  {
    RepeatingKept();
    ClashingNames();
    hide Less, Normalize, Normalized, Sort, Dedup;
    DedupThree("x", "x-");
    SortThree("x", "x-");
    assert [] + ["x", "x-", "x"] == ["x", "x-", "x"];
  }

  lemma RepeatingPositions()
    ensures PositionsOf(["x", "x-"], ["x", "x-", "x"]) == [0, 1, 0]
    ensures SearchStrings(["x", "x-"], "x") == 0 && SearchStrings(["x", "x-"], "x-") == 1
  {
    var gravity, list := ["x", "x-"], ["x", "x-", "x"];
    ClashingNames();
    LessIrreflexive("x");
    LessIrreflexive("x-");
    SearchFinds(gravity, "x");
    SearchFinds(gravity, "x-");
    assert gravity[0] == "x" && gravity[1] == "x-";
    StrictlyAscendingInjective(gravity, SearchStrings(gravity, "x"), 0);
    StrictlyAscendingInjective(gravity, SearchStrings(gravity, "x-"), 1);
    hide Less, SearchStrings;
    assert list[..2] == ["x", "x-"] && ["x", "x-"][..1] == ["x"] && ["x"][..0] == [];
    assert PositionsOf(gravity, ["x"]) == [0] && PositionsOf(gravity, ["x", "x-"]) == [0, 1];
  }

  lemma RepeatingFound()
    ensures IndexSetContains(["x", "x-"], [0, 1, 0], "x") && IndexSetContains(["x", "x-"], [0, 1, 0], "x-")
  {
    RepeatingPositions();
    hide PositionsOf, SearchStrings;
    var found := [0, 1, 0];
    var f, g := AtLeast(found, 0), AtLeast(found, 1);
    assert Search(0, 3, f) == Search(0, 1, f) == Search(0, 0, f) == 0;
    assert Search(0, 3, g) == Search(0, 1, g) == Search(1, 1, g) == 1;
  }

  lemma RightIfAllFound(gravity: seq<string>, raw: seq<string>)
    requires forall d :: d in ListExact(raw) ==> IndexSetContains(gravity, PositionsOf(gravity, ListExact(raw)), d)
    ensures AnswersRight(gravity, raw)
  {
    hide Normalize, PositionsOf, ListExact, IndexSetContains;
    var list := ListExact(raw);
    forall name ensures IndexSetContains(gravity, PositionsOf(gravity, list), name) <==>
                          name != "" && exists d :: d in raw && Normalize(d) == name
    {
      ListExactHolds(raw, name);
      if IndexSetContains(gravity, PositionsOf(gravity, list), name) {
        IndexNeverWronglyYes(gravity, list, name);
      }
    }
  }

  lemma RepeatingInverted()
    ensures Inverted(REPEATING, "x-", "x.")
  {
    DottedLine();
    ClashingNames();
    hide Less, Normalize;
    assert REPEATING[1] == "x-" && REPEATING[2] == "x.";
  }

  /** That condition is needed: with "x" on the list as well the clash stays, and yet the index finds both. */
  lemma RepeatedClashAnswersRight()
    ensures Inverted(REPEATING, "x-", "x.") && AnswersRight(Merged([], REPEATING), REPEATING)
  {
    hide Less, Normalize, PositionsOf, SearchStrings, ListExact, Merged, IndexSetContains, Inverted, AnswersRight;
    RepeatingInverted();
    RepeatingMerged();
    RepeatingPositions();
    RepeatingFound();
    RightIfAllFound(Merged([], REPEATING), REPEATING);
  }

  // ---- the in-place loops ----

  class GravityIndex {
    var gravity: seq<string>
    var gravityByList: map<string, seq<Uint32>>

    constructor ()
      ensures gravity == [] && gravityByList == map[]
    {
      gravity, gravityByList := [], map[];
    }

    /** The part of resetBlocked that concerns gravity. */
    method Clear()
      modifies this
      ensures gravity == [] && gravityByList == map[]
    {
      gravity, gravityByList := [], map[];
    }

    /** mergeGravityLocked */
    method Merge(domains: seq<string>)
      modifies this`gravity
      ensures gravity == Merged(old(gravity), domains)
    {
      hide Normalize, Sort, Dedup;
      if domains == [] {
        return;
      }
      var all := gravity;
      for i := 0 to |domains|
        invariant all == gravity + Normalized(domains[..i])
      {
        var domain := Normalize(domains[i]);
        if domain != "" {
          all := all + [domain];
        }
        assert domains[..i + 1][..i] == domains[..i];
      }
      assert domains[..|domains|] == domains;
      var sorted := Sort(all);
      var buffer := new string[|sorted|](i requires 0 <= i < |sorted| => sorted[i]);
      assert buffer[..] == sorted;
      var n := CompactInPlace(buffer);
      gravity := buffer[..n];
    }

    /** The index of every list, in whatever order the map is walked. */
    method Rebuild(lists: map<string, seq<string>>)
      modifies this`gravityByList
      ensures gravityByList == Rebuilt(gravity, lists)
    {
      hide PositionsOf;
      gravityByList := map[];
      var rest := lists.Keys;
      while rest != {}
        invariant rest <= lists.Keys
        invariant forall key :: key in gravityByList <==>
          key in lists && key !in rest && PositionsOf(gravity, lists[key]) != []
        invariant forall key :: key in gravityByList ==> gravityByList[key] == PositionsOf(gravity, lists[key])
      {
        var key :| key in rest;
        var indexes := Positions(gravity, lists[key]);
        if |indexes| > 0 {
          gravityByList := gravityByList[key := indexes];
        }
        rest := rest - {key};
      }
    }
  }

  function Rebuilt(gravity: seq<string>, lists: map<string, seq<string>>): map<string, seq<Uint32>> {
    map key | key in lists && PositionsOf(gravity, lists[key]) != [] :: PositionsOf(gravity, lists[key])
  }

  method Positions(gravity: seq<string>, domains: seq<string>) returns (indexes: seq<Uint32>)
    ensures indexes == PositionsOf(gravity, domains)
  {
    hide SearchStrings;
    indexes := [];
    for k := 0 to |domains|
      invariant indexes == PositionsOf(gravity, domains[..k])
    {
      var i := SearchStrings(gravity, domains[k]);
      if i < |gravity| && gravity[i] == domains[k] && i < UINT32_SIZE {
        indexes := indexes + [i];
      }
      assert domains[..k + 1][..k] == domains[..k];
    }
    assert domains[..|domains|] == domains;
  }

  lemma DedupStep(was: seq<string>, i: nat)
    ensures Dedup(was[..0]) == []
    ensures i < |was| ==> var kept, x := Dedup(was[..i]), was[i];
      Dedup(was[..i + 1]) == if kept != [] && kept[|kept| - 1] == x then kept else kept + [x]
  {
    if i < |was| { assert was[..i + 1][..i] == was[..i]; }
  }

  method CompactInPlace(all: array<string>) returns (n: nat)
    modifies all
    ensures n <= all.Length && all[..n] == Dedup(old(all[..]))
  {
    hide Dedup;
    ghost var was := all[..];
    n := 0;
    DedupStep(was, 0);
    for i := 0 to all.Length
      invariant n <= i
      invariant all[..n] == Dedup(was[..i])
      invariant forall k :: i <= k < all.Length ==> all[k] == was[k]
    {
      var domain := all[i];
      DedupStep(was, i);
      if n == 0 || all[n - 1] != domain {
        all[n] := domain;
        n := n + 1;
      }
    }
    assert was[..|was|] == was;
  }

  lemma EmptyCompaction()
    ensures Dedup(Normalized([])) == []
  {
  }

  lemma CompactionStep(was: seq<string>, i: nat)
    requires i < |was|
    ensures var kept, d := Dedup(Normalized(was[..i])), Normalize(was[i]);
      Dedup(Normalized(was[..i + 1])) ==
        if d == "" || (kept != [] && kept[|kept| - 1] == d) then kept else kept + [d]
  {
    hide Normalize;
    var before, d := Normalized(was[..i]), Normalize(was[i]);
    assert was[..i + 1][..i] == was[..i];
    assert Normalized(was[..i + 1]) == before + if d == "" then [] else [d];
    if d == "" {
      assert before + [] == before;
    } else {
      assert (before + [d])[..|before|] == before;
    }
  }

  /** The compaction of loadOneBlocklist, which normalises as it goes. */
  method CompactListInPlace(list: array<string>) returns (n: nat)
    modifies list
    ensures n <= list.Length && list[..n] == Dedup(Normalized(old(list[..])))
  {
    hide Normalize, Dedup, Normalized;
    ghost var was := list[..];
    n := 0;
    EmptyCompaction();
    assert was[..0] == [];
    for i := 0 to list.Length
      invariant n <= i
      invariant list[..n] == Dedup(Normalized(was[..i]))
      invariant forall k :: i <= k < list.Length ==> list[k] == was[k]
    {
      var domain := Normalize(list[i]);
      CompactionStep(was, i);
      if domain != "" && (n == 0 || list[n - 1] != domain) {
        list[n] := domain;
        n := n + 1;
      }
    }
    assert was[..|was|] == was;
  }
}
