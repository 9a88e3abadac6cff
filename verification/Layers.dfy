/** What the block decision is: each layer on its own, all of them as one condition, and what adding a rule does. */
module Layers {
  import opened Addresses
  import opened Text
  import opened Rules
  import opened Gravity
  import opened Blocking
  import opened Decision

  // ---- the layers before the tables, one by one ----

  ghost predicate Matched(e: Engine, rules: seq<string>, name: string) {
    exists r :: r in rules && RuleMatches(e, r, name)
  }

  /** The profile, if there is one, does not turn blocking off. */
  predicate TurnedOn(chosen: Chosen) {
    chosen.profile.Some? ==> !chosen.profile.value.disabled && !chosen.profile.value.disableBlocking
  }

  ghost predicate AllowedByProfile(e: Engine, chosen: Chosen, name: string) {
    chosen.profile.Some? && Matched(e, chosen.profile.value.allowed, name)
  }

  ghost predicate BlockedByProfile(e: Engine, chosen: Chosen, name: string) {
    chosen.profile.Some? && Matched(e, chosen.profile.value.blocked, name)
  }

  /** One of the lists the profile names has it. */
  ghost predicate ListedByProfile(ix: Index, pol: Policy, chosen: Chosen, name: string) {
    chosen.profile.Some? && exists list :: NamesList(pol, chosen.profile.value, list) && OnList(ix, list, name)
  }

  predicate ScheduleHits(e: Engine, pol: Policy, name: string, k: nat) {
    && k < |pol.scheduled|
    && var r := pol.scheduled[k];
    && r.enabled && r.active && RuleMatches(e, r.domain, name)
    && (Lower(TrimSpace(r.action)) == "allow" || Lower(TrimSpace(r.action)) == "block")
  }

  /** Scheduled rule k is the first that has a say. */
  predicate FirstScheduled(e: Engine, pol: Policy, name: string, k: nat) {
    ScheduleHits(e, pol, name, k) && forall j :: 0 <= j < k ==> !ScheduleHits(e, pol, name, j)
  }

  /** No layer before the tables has a say. */
  ghost predicate Undecided(e: Engine, ix: Index, pol: Policy, chosen: Chosen, name: string) {
    && TurnedOn(chosen)
    && !AllowedByProfile(e, chosen, name) && !BlockedByProfile(e, chosen, name)
    && !ListedByProfile(ix, pol, chosen, name) && !Matched(e, pol.allowed, name)
    && forall k: nat :: !ScheduleHits(e, pol, name, k)
  }

  lemma MatchedIsAny(e: Engine, rules: seq<string>, name: string)
    ensures AnyMatches(e, rules, name) <==> Matched(e, rules, name)
  {
    hide RuleMatches;
    if AnyMatches(e, rules, name) {
      var k :| 0 <= k < |rules| && RuleMatches(e, rules[k], name);
      assert rules[k] in rules;
    }
  }

  lemma ListedIsContained(ix: Index, pol: Policy, chosen: Chosen, name: string)
    ensures ListedByProfile(ix, pol, chosen, name) <==>
      chosen.Limits() && ProfileListsContain(ix, pol, chosen.profile.value, name)
  {
    hide OnList, Names, TrimSpace, HasVia;
    if chosen.profile.Some? {
      ProfileListsByName(ix, pol, chosen.profile.value, name);
    }
  }

  lemma ScheduleSaysFirst(e: Engine, pol: Policy, name: string, k: nat)
    requires FirstScheduled(e, pol, name, k)
    ensures ScheduleSays(e, pol, name) ==
      Some(Verdict(Lower(TrimSpace(pol.scheduled[k].action)) == "block", "schedule:" + pol.scheduled[k].domain))
  {
    hide RuleMatches, TrimSpace, Lower;
    var hit := (r: ScheduledRule) => r.enabled && r.active && RuleMatches(e, r.domain, name)
      && Lower(TrimSpace(r.action)) in {"allow", "block"};
    forall j | 0 <= j < k ensures !hit(pol.scheduled[j]) {
      assert !ScheduleHits(e, pol, name, j);
    }
    FirstAt(pol.scheduled, hit, k);
  }

  lemma ScheduleSilent(e: Engine, pol: Policy, name: string)
    requires forall k: nat :: !ScheduleHits(e, pol, name, k)
    ensures ScheduleSays(e, pol, name) == None
  {
    hide RuleMatches, TrimSpace, Lower;
    var hit := (r: ScheduledRule) => r.enabled && r.active && RuleMatches(e, r.domain, name)
      && Lower(TrimSpace(r.action)) in {"allow", "block"};
    FirstHolds(pol.scheduled, hit);
    forall r | r in pol.scheduled ensures !hit(r) {
      var k :| 0 <= k < |pol.scheduled| && pol.scheduled[k] == r;
      assert !ScheduleHits(e, pol, name, k);
    }
  }

  lemma {:induction false} FirstScheduledExists(e: Engine, pol: Policy, name: string, k: nat) returns (first: nat)
    requires ScheduleHits(e, pol, name, k)
    ensures FirstScheduled(e, pol, name, first)
  {
    hide ScheduleHits;
    if j :| 0 <= j < k && ScheduleHits(e, pol, name, j) {
      first := FirstScheduledExists(e, pol, name, j);
    } else {
      first := k;
    }
  }

  /** A profile that is disabled, or disables blocking, lets every name through. */
  lemma ProfileTurnsOff(e: Engine, t: Tables, ix: Index, pol: Policy, chosen: Chosen, qname: string)
    requires chosen.profile.Some? && (chosen.profile.value.disabled || chosen.profile.value.disableBlocking)
    ensures Decide(e, t, ix, pol, chosen, qname) == Verdict(false, "")
  {
    hide AnyMatches, ProfileListsContain, ScheduleSays, TablesSay;
  }

  /** A rule the profile allows lets the name through, whatever is blocked anywhere. */
  lemma ProfileAllows(e: Engine, t: Tables, ix: Index, pol: Policy, chosen: Chosen, qname: string, rule: string)
    requires chosen.profile.Some? && rule in chosen.profile.value.allowed && RuleMatches(e, rule, QueryName(qname))
    ensures Decide(e, t, ix, pol, chosen, qname) == Verdict(false, "")
  {
    hide RuleMatches, AnyMatches, ProfileListsContain, ScheduleSays, TablesSay, QueryName;
    MatchedIsAny(e, chosen.profile.value.allowed, QueryName(qname));
  }

  /** Otherwise a rule the profile blocks decides, */
  lemma ProfileBlocks(e: Engine, t: Tables, ix: Index, pol: Policy, chosen: Chosen, qname: string, rule: string)
    requires chosen.profile.Some? && TurnedOn(chosen) && !AllowedByProfile(e, chosen, QueryName(qname))
    requires rule in chosen.profile.value.blocked && RuleMatches(e, rule, QueryName(qname))
    ensures Decide(e, t, ix, pol, chosen, qname) == Verdict(true, "profile:" + chosen.name)
  {
    hide RuleMatches, AnyMatches, ProfileListsContain, ScheduleSays, TablesSay, QueryName;
    MatchedIsAny(e, chosen.profile.value.allowed, QueryName(qname));
    MatchedIsAny(e, chosen.profile.value.blocked, QueryName(qname));
  }

  /** then the lists the profile names, */
  lemma ProfileListBlocks(e: Engine, t: Tables, ix: Index, pol: Policy, chosen: Chosen, qname: string, list: string)
    requires chosen.profile.Some? && TurnedOn(chosen) && !AllowedByProfile(e, chosen, QueryName(qname))
    requires !BlockedByProfile(e, chosen, QueryName(qname))
    requires NamesList(pol, chosen.profile.value, list) && OnList(ix, list, QueryName(qname))
    ensures Decide(e, t, ix, pol, chosen, qname) == Verdict(true, "profile-list:" + chosen.name)
  {
    hide RuleMatches, AnyMatches, ProfileListsContain, ScheduleSays, TablesSay, QueryName, NamesList, OnList;
    MatchedIsAny(e, chosen.profile.value.allowed, QueryName(qname));
    MatchedIsAny(e, chosen.profile.value.blocked, QueryName(qname));
    ListedIsContained(ix, pol, chosen, QueryName(qname));
  }

  /** then the allowed rules of everybody, */
  lemma AllowedForAll(e: Engine, t: Tables, ix: Index, pol: Policy, chosen: Chosen, qname: string, rule: string)
    requires !BlockedByProfile(e, chosen, QueryName(qname)) && !ListedByProfile(ix, pol, chosen, QueryName(qname))
    requires rule in pol.allowed && RuleMatches(e, rule, QueryName(qname))
    ensures Decide(e, t, ix, pol, chosen, qname) == Verdict(false, "")
  {
    hide RuleMatches, AnyMatches, ProfileListsContain, ScheduleSays, TablesSay, QueryName, ListedByProfile;
    if chosen.profile.Some? {
      MatchedIsAny(e, chosen.profile.value.blocked, QueryName(qname));
    }
    MatchedIsAny(e, pol.allowed, QueryName(qname));
    ListedIsContained(ix, pol, chosen, QueryName(qname));
  }

  /** then the first scheduled rule that is enabled, active, matches, and blocks or allows. */
  lemma ScheduleDecides(e: Engine, t: Tables, ix: Index, pol: Policy, chosen: Chosen, qname: string, k: nat)
    requires TurnedOn(chosen) && !AllowedByProfile(e, chosen, QueryName(qname))
    requires !BlockedByProfile(e, chosen, QueryName(qname)) && !ListedByProfile(ix, pol, chosen, QueryName(qname))
    requires !Matched(e, pol.allowed, QueryName(qname)) && FirstScheduled(e, pol, QueryName(qname), k)
    ensures Decide(e, t, ix, pol, chosen, qname) ==
      Verdict(Lower(TrimSpace(pol.scheduled[k].action)) == "block", "schedule:" + pol.scheduled[k].domain)
  {
    hide RuleMatches, AnyMatches, ProfileListsContain, ScheduleSays, TablesSay, QueryName, ListedByProfile, Matched,
         FirstScheduled;
    if chosen.profile.Some? {
      MatchedIsAny(e, chosen.profile.value.allowed, QueryName(qname));
      MatchedIsAny(e, chosen.profile.value.blocked, QueryName(qname));
    }
    MatchedIsAny(e, pol.allowed, QueryName(qname));
    ListedIsContained(ix, pol, chosen, QueryName(qname));
    ScheduleSaysFirst(e, pol, QueryName(qname), k);
  }

  lemma UndecidedGoesOn(e: Engine, t: Tables, ix: Index, pol: Policy, chosen: Chosen, qname: string)
    requires Undecided(e, ix, pol, chosen, QueryName(qname))
    ensures Decide(e, t, ix, pol, chosen, qname) == TablesSay(e, t, ix, pol, chosen, QueryName(qname))
  {
    hide RuleMatches, AnyMatches, ProfileListsContain, ScheduleSays, TablesSay, QueryName, ListedByProfile, Matched,
         ScheduleHits;
    if chosen.profile.Some? {
      MatchedIsAny(e, chosen.profile.value.allowed, QueryName(qname));
      MatchedIsAny(e, chosen.profile.value.blocked, QueryName(qname));
    }
    MatchedIsAny(e, pol.allowed, QueryName(qname));
    ListedIsContained(ix, pol, chosen, QueryName(qname));
    ScheduleSilent(e, pol, QueryName(qname));
  }

  /** The whole decision as one condition. */
  lemma BlockedIff(e: Engine, t: Tables, ix: Index, pol: Policy, chosen: Chosen, qname: string)
    ensures var name := QueryName(qname);
      Decide(e, t, ix, pol, chosen, qname).blocked <==>
        && TurnedOn(chosen) && !AllowedByProfile(e, chosen, name)
        && (|| BlockedByProfile(e, chosen, name)
            || ListedByProfile(ix, pol, chosen, name)
            || (&& !Matched(e, pol.allowed, name)
                && if exists k: nat :: ScheduleHits(e, pol, name, k)
                   then exists k: nat :: FirstScheduled(e, pol, name, k)
                          && Lower(TrimSpace(pol.scheduled[k].action)) == "block"
                   else TablesBlock(e, t, ix, pol, chosen, name)))
  {
    hide RuleMatches, Decide, TablesSay, TablesBlock, NamesList, OnList, QueryName, ScheduleHits, TrimSpace, Lower;
    var name := QueryName(qname);
    if !TurnedOn(chosen) {
      ProfileTurnsOff(e, t, ix, pol, chosen, qname);
    } else if AllowedByProfile(e, chosen, name) {
      var r :| r in chosen.profile.value.allowed && RuleMatches(e, r, name);
      ProfileAllows(e, t, ix, pol, chosen, qname, r);
    } else if BlockedByProfile(e, chosen, name) {
      var r :| r in chosen.profile.value.blocked && RuleMatches(e, r, name);
      ProfileBlocks(e, t, ix, pol, chosen, qname, r);
    } else if ListedByProfile(ix, pol, chosen, name) {
      var list :| NamesList(pol, chosen.profile.value, list) && OnList(ix, list, name);
      ProfileListBlocks(e, t, ix, pol, chosen, qname, list);
    } else if Matched(e, pol.allowed, name) {
      var r :| r in pol.allowed && RuleMatches(e, r, name);
      AllowedForAll(e, t, ix, pol, chosen, qname, r);
    } else if k: nat :| ScheduleHits(e, pol, name, k) {
      var first := FirstScheduledExists(e, pol, name, k);
      ScheduleDecides(e, t, ix, pol, chosen, qname, first);
    } else {
      UndecidedGoesOn(e, t, ix, pol, chosen, qname);
      TablesVerdict(e, t, ix, pol, chosen, name);
    }
  }

  // ---- the wildcard walk finds only what the pattern scan would find ----

  /** A name the rule matcher would leave alone. */
  ghost predicate CleanQuery(name: string) {
    CleanName(name) == name && NewlineFree(name)
  }

  lemma CleanParts(name: string)
    requires CleanName(name) == name
    ensures TrimSpace(name) == name && TrimDot(name) == name && Lower(name) == name
  {
    TrimSpaceShorter(name);
  }

  lemma WildcardShape(name: string, i: nat) returns (head: string, tail: string)
    requires i < |Split(name, ".")| - 1
    ensures name == head + "." + tail && Wildcards(name)[i] == "*." + tail
  {
    hide Split, Join;
    var parts := Split(name, ".");
    JoinOfSplit(name, ".");
    assert parts == parts[..i + 1] + parts[i + 1..];
    JoinAppend(parts[..i + 1], parts[i + 1..], ".");
    head, tail := Join(parts[..i + 1], "."), Join(parts[i + 1..], ".");
  }

  lemma SuffixWildcardIsClean(head: string, tail: string)
    requires CleanName(head + "." + tail) == head + "." + tail
    ensures Normalize("*." + tail) == "*." + tail && IsPatternRule("*." + tail) && !IsRegexRule("*." + tail)
  {
    var name, w := head + "." + tail, "*." + tail;
    CleanParts(name);
    TrimmedHasNoEdgeSpace(name);
    TrimmedHasNoEdgeSpace(w);
    assert tail != [];
    assert w[|w| - 1] == tail[|tail| - 1] == name[|name| - 1];
    assert w[|w| - 1..] == [w[|w| - 1]];
    assert TrimDot(w) == w;
    forall k | 0 <= k < |w| ensures LowerChar(w[k]) == w[k] {
      if k >= 2 {
        assert w[k] == name[|head| + 1 + (k - 2)];
        assert Lower(name)[|head| + 1 + (k - 2)] == name[|head| + 1 + (k - 2)];
      }
    }
    assert Lower(w) == w;
    assert w[0] == '*';
    assert !("regex:" <= w) by { NotAPrefix("regex:", w, 0); }
  }

  lemma {:induction false} SelfFilling(literals: seq<string>)
    requires literals != []
    ensures Weave(literals, seq(|literals| - 1, _ => "*")) == Join(literals, "*")
  {
    if |literals| > 1 {
      SelfFilling(literals[1..]);
      assert seq(|literals| - 1, _ => "*")[1..] == seq(|literals| - 2, _ => "*");
    }
  }

  lemma SuffixWildcardMatches(e: Engine, head: string, tail: string)
    requires CleanQuery(head + "." + tail)
    ensures RuleMatches(e, "*." + tail, head + "." + tail)
  {
    hide Split, Join, Weave, WildcardRulePattern, Normalize, IsPatternRule, IsRegexRule, Engine.MatchString, CleanName;
    var name, w, rest := head + "." + tail, "*." + tail, "." + tail;
    SuffixWildcardIsClean(head, tail);
    var literals := Split(rest, "*");
    JoinOfSplit(rest, "*");
    SelfFilling(literals);
    var fills := seq(|literals| - 1, _ => "*");
    assert IsFilling(rest, rest, fills);
    FillingStar(rest, head, rest, fills);
    assert "*" + rest == w && head + rest == name;
    assert IsFilling(w, name, [head] + fills);
    WildcardIsGlob(e, w, name);
    WildcardMeaning(e, w, name);
  }

  /** Whatever the suffix walk looks up among the rules, the pattern scan would match too. */
  lemma WalkAgreesWithScan(e: Engine, t: Tables, name: string, rule: string)
    requires InStep(t) && CleanQuery(name)
    requires rule in Wildcards(name) && rule in t.blocked
    ensures rule in t.pat && RuleMatches(e, rule, name)
  {
    hide RuleMatches, Normalize, IsPatternRule, IsRegexRule, NoRepeats, Split, Join, CleanName;
    var i :| 0 <= i < |Wildcards(name)| && Wildcards(name)[i] == rule;
    var head, tail := WildcardShape(name, i);
    SuffixWildcardIsClean(head, tail);
    SuffixWildcardMatches(e, head, tail);
  }

  /** For a client whose profile limits no blocklists, a clean name that passes the profile, allow and
      schedule layers is blocked exactly when it is literally a rule, is in gravity, or some pattern rule
      matches it. */
  lemma UnlimitedDecision(e: Engine, t: Tables, ix: Index, pol: Policy, chosen: Chosen, qname: string)
    requires InStep(t) && StrictlyAscending(ix.gravity) && !chosen.Limits()
    requires CleanQuery(QueryName(qname)) && Undecided(e, ix, pol, chosen, QueryName(qname))
    ensures var name := QueryName(qname);
      Decide(e, t, ix, pol, chosen, qname).blocked
      <==> || name in t.blocked
           || name in ix.gravity
           || exists r :: r in t.blocked && IsPatternRule(r) && RuleMatches(e, r, name)
  {
    hide Decide, RuleMatches, IsPatternRule, NoRepeats, GravityContains, Wildcards, TablesSay, QueryName, CleanQuery,
         Undecided;
    var name := QueryName(qname);
    UndecidedGoesOn(e, t, ix, pol, chosen, qname);
    TablesVerdict(e, t, ix, pol, chosen, name);
    GravityContainsIsMembership(ix.gravity, name);
    if r :| r in Wildcards(name) && r in t.blocked {
      WalkAgreesWithScan(e, t, name, r);
    }
  }

  // ---- what a query is blocked by ----

  lemma SameQueryName(qname: string)
    ensures QueryName(Lower(qname)) == QueryName(qname)
    ensures (qname == "" || qname[|qname| - 1] != '.') ==> QueryName(qname + ".") == QueryName(qname)
  {
    if qname == "" || qname[|qname| - 1] != '.' {
      assert (qname + ".")[..|qname|] == qname && (qname + ".")[|qname|..] == ".";
    }
    var lower := Lower(qname);
    if qname != "" {
      assert lower[|qname| - 1..] == [lower[|qname| - 1]] && qname[|qname| - 1..] == [qname[|qname| - 1]];
    }
    assert TrimDot(lower) == Lower(TrimDot(qname));
    assert Lower(Lower(TrimDot(qname))) == Lower(TrimDot(qname));
  }

  /** Case and one dot at the end of a query do not matter. */
  lemma CaseAndDotDoNotMatter(e: Engine, t: Tables, ix: Index, pol: Policy, chosen: Chosen, qname: string)
    ensures Decide(e, t, ix, pol, chosen, Lower(qname)) == Decide(e, t, ix, pol, chosen, qname)
    ensures (qname == "" || qname[|qname| - 1] != '.') ==>
      Decide(e, t, ix, pol, chosen, qname + ".") == Decide(e, t, ix, pol, chosen, qname)
  {
    hide EarlySays, TablesSay, QueryName, Lower;
    SameQueryName(qname);
  }

  /** A rule's own source decides for a name that is a rule, unless the profile leaves that source out; a rule
      without a source, and gravity, decide only without a limiting profile. */
  lemma LiteralSource(e: Engine, t: Tables, ix: Index, pol: Policy, chosen: Chosen, qname: string)
    requires Undecided(e, ix, pol, chosen, QueryName(qname))
    ensures var name, v := QueryName(qname), Decide(e, t, ix, pol, chosen, qname);
      && (name in t.src ==> v == if LeavesOut(pol, chosen, t.src[name]) then Verdict(false, "")
                                 else Verdict(true, t.src[name]))
      && (name !in t.src && name in t.blocked && chosen.Limits() ==> v == Verdict(false, ""))
      && (name !in t.src && name in t.blocked && !chosen.Limits() ==> v == Verdict(true, "manual"))
      && (name !in t.src && name !in t.blocked && !chosen.Limits() && GravityContains(ix.gravity, name) ==>
            v == Verdict(true, "gravity"))
  {
    hide Decide, Undecided, GravityContains, Disregarded, LeavesOut, WalkHit, ScanHit, QueryName, Counts;
    UndecidedGoesOn(e, t, ix, pol, chosen, qname);
    if QueryName(qname) in t.src {
      DisregardedIsLeftOut(pol, chosen, t.src[QueryName(qname)]);
    }
  }

  predicate Bears(list: ListSource, text: string) {
    Lower(text) in {Lower(list.name), Lower(list.source)}
  }

  /** The two texts are the same, or name one configured list, ignoring case. */
  predicate Together(pol: Policy, item: string, source: string) {
    Lower(item) == Lower(source) || exists list :: list in pol.lists && Bears(list, source) && Bears(list, item)
  }

  /** The client's profile names lists; the source is that of a configured list; and none of those the profile
      names is that list. */
  predicate LeavesOut(pol: Policy, chosen: Chosen, source: string) {
    && chosen.profile.Some? && |chosen.profile.value.blocklists| > 0
    && (exists list :: list in pol.lists && Bears(list, source))
    && forall item :: item in chosen.profile.value.blocklists ==> !Together(pol, TrimSpace(item), source)
  }

  lemma DisregardedIsLeftOut(pol: Policy, chosen: Chosen, source: string)
    ensures Disregarded(pol, chosen, source) <==> LeavesOut(pol, chosen, source)
  {
    hide TrimSpace, Lower, ProfileHasBlocklist;
    if SourceIsBlocklist(pol, source) {
      var m :| 0 <= m < |pol.lists| && Names(pol.lists[m], source);
      assert pol.lists[m] in pol.lists && Bears(pol.lists[m], source);
    }
    if chosen.profile.Some? {
      ProfileHasIff(pol, chosen.profile.value, source);
    }
  }

  lemma SharedIsTogether(pol: Policy, item: string, source: string)
    ensures Together(pol, item, source) <==>
      EqualFold(item, source)
      || exists m :: 0 <= m < |pol.lists| && Names(pol.lists[m], item) && Names(pol.lists[m], source)
  {
    hide Lower;
    if m :| 0 <= m < |pol.lists| && Names(pol.lists[m], item) && Names(pol.lists[m], source) {
      assert pol.lists[m] in pol.lists && Bears(pol.lists[m], source) && Bears(pol.lists[m], item);
    }
    if list :| list in pol.lists && Bears(list, source) && Bears(list, item) {
      var m :| 0 <= m < |pol.lists| && pol.lists[m] == list;
      assert Names(pol.lists[m], item);
    }
  }

  lemma ProfileHasIff(pol: Policy, prof: Profile, source: string)
    ensures ProfileHasBlocklist(pol, prof, source) <==>
      exists item :: item in prof.blocklists && Together(pol, TrimSpace(item), source)
  {
    hide TrimSpace, Lower, Together, EqualFold, Names;
    forall item ensures Together(pol, item, source) <==>
      EqualFold(item, source)
      || exists m :: 0 <= m < |pol.lists| && Names(pol.lists[m], item) && Names(pol.lists[m], source)
    {
      SharedIsTogether(pol, item, source);
    }
    forall k | 0 <= k < |prof.blocklists| ensures prof.blocklists[k] in prof.blocklists {
    }
  }

  lemma {:induction false} SplitAtDot(head: string, tail: string)
    ensures Split(head + "." + tail, ".") == Split(head, ".") + Split(tail, ".")
  {
    hide Split;
    if head == "" {
      SplitCut(tail, ".");
      assert head + "." + tail == "." + tail;
      assert Split("", ".") == [""] by { SplitUnfolds("", "."); }
    } else {
      var rest := head[1..] + "." + tail;
      assert head + "." + tail == [head[0]] + rest && head == [head[0]] + head[1..];
      SplitAtDot(head[1..], tail);
      if head[0] == '.' {
        SplitCut(rest, ".");
        SplitCut(head[1..], ".");
      } else {
        NotAPrefix(".", [head[0]] + rest, 0);
        NotAPrefix(".", [head[0]] + head[1..], 0);
        SplitSkip(head[0], rest, ".");
        SplitSkip(head[0], head[1..], ".");
      }
    }
  }

  /** The walk tries "*." before exactly the parts of the name that follow a dot, */
  lemma WildcardsAreSuffixes(name: string, wildcard: string)
    ensures wildcard in Wildcards(name) <==>
      exists head, tail :: name == head + "." + tail && wildcard == "*." + tail
  {
    hide Split, Join;
    if wildcard in Wildcards(name) {
      var i :| 0 <= i < |Wildcards(name)| && Wildcards(name)[i] == wildcard;
      var head, tail := WildcardShape(name, i);
    }
    if head, tail :| name == head + "." + tail && wildcard == "*." + tail {
      SplitAtDot(head, tail);
      JoinOfSplit(tail, ".");
      var i := |Split(head, ".")| - 1;
      assert Split(name, ".")[i + 1..] == Split(tail, ".");
      assert Wildcards(name)[i] == wildcard;
    }
  }

  /** the longest first. */
  lemma WildcardsShrink(name: string, i: nat, j: nat)
    requires i < j < |Wildcards(name)|
    ensures |Wildcards(name)[i]| > |Wildcards(name)[j]|
  {
    hide Split, Join;
    var parts := Split(name, ".");
    assert parts[i + 1..] == parts[i + 1..j + 1] + parts[j + 1..];
    JoinAppend(parts[i + 1..j + 1], parts[j + 1..], ".");
  }

  predicate CountsIn(t: Tables, pol: Policy, chosen: Chosen, rule: string) {
    rule in t.blocked && Counts(pol, chosen, SourceOf(t, rule))
  }

  /** Past all that, the longest counting wildcard of the name decides, */
  lemma WildcardSource(e: Engine, t: Tables, ix: Index, pol: Policy, chosen: Chosen, qname: string, head: string,
                       tail: string)
    requires var name := QueryName(qname);
      && Undecided(e, ix, pol, chosen, name) && name !in t.src && name !in t.blocked
      && (chosen.Limits() || !GravityContains(ix.gravity, name))
      && name == head + "." + tail && CountsIn(t, pol, chosen, "*." + tail)
      && forall h, l :: name == h + "." + l && |l| > |tail| ==> !CountsIn(t, pol, chosen, "*." + l)
    ensures var source := SourceOf(t, "*." + tail);
      Decide(e, t, ix, pol, chosen, qname) == Verdict(true, if source == "" then "wildcard" else source)
  {
    hide Decide, Undecided, GravityContains, Disregarded, ScanHit, QueryName, Counts, Wildcards;
    var name := QueryName(qname);
    UndecidedGoesOn(e, t, ix, pol, chosen, qname);
    WildcardsAreSuffixes(name, "*." + tail);
    var i :| 0 <= i < |Wildcards(name)| && Wildcards(name)[i] == "*." + tail;
    var ok := r => r in t.blocked && Counts(pol, chosen, SourceOf(t, r));
    forall j | 0 <= j < i ensures !ok(Wildcards(name)[j]) {
      WildcardsShrink(name, j, i);
      WildcardsAreSuffixes(name, Wildcards(name)[j]);
      var h, l :| name == h + "." + l && Wildcards(name)[j] == "*." + l;
      assert !CountsIn(t, pol, chosen, "*." + l);
    }
    FirstAt(Wildcards(name), ok, i);
  }

  /** and if there is none, the first counting pattern rule that matches. */
  lemma PatternSource(e: Engine, t: Tables, ix: Index, pol: Policy, chosen: Chosen, qname: string, k: nat)
    requires var name := QueryName(qname);
      && Undecided(e, ix, pol, chosen, name) && name !in t.src && name !in t.blocked
      && (chosen.Limits() || !GravityContains(ix.gravity, name))
      && (forall h, l :: name == h + "." + l ==> !CountsIn(t, pol, chosen, "*." + l))
      && k < |t.pat| && RuleMatches(e, t.pat[k], name) && Counts(pol, chosen, SourceOf(t, t.pat[k]))
      && forall j :: 0 <= j < k ==> !(RuleMatches(e, t.pat[j], name) && Counts(pol, chosen, SourceOf(t, t.pat[j])))
    ensures var source := SourceOf(t, t.pat[k]);
      Decide(e, t, ix, pol, chosen, qname) == Verdict(true, if source == "" then "regex" else source)
  {
    hide Decide, Undecided, GravityContains, Disregarded, QueryName, Counts, Wildcards, RuleMatches;
    var name := QueryName(qname);
    UndecidedGoesOn(e, t, ix, pol, chosen, qname);
    WalkHitHolds(t, pol, chosen, name);
    forall r | r in Wildcards(name) ensures !CountsIn(t, pol, chosen, r) {
      WildcardsAreSuffixes(name, r);
    }
    FirstAt(t.pat, r => RuleMatches(e, r, name) && Counts(pol, chosen, SourceOf(t, r)), k);
  }

  lemma LimitedCounts(t: Tables, pol: Policy, chosen: Chosen, rule: string)
    requires chosen.Limits()
    ensures Counts(pol, chosen, SourceOf(t, rule)) <==>
      rule in t.src && t.src[rule] != "" && !LeavesOut(pol, chosen, t.src[rule])
  {
    hide Disregarded, LeavesOut;
    DisregardedIsLeftOut(pol, chosen, SourceOf(t, rule));
  }

  /** For a client whose profile names blocklists, a clean name that passes the early layers is blocked exactly when
      it is a rule with a source the profile does not leave out; or is no rule, and some pattern rule matches that has
      such a source, and not the empty one. */
  lemma LimitedDecision(e: Engine, t: Tables, ix: Index, pol: Policy, chosen: Chosen, qname: string)
    requires InStep(t) && chosen.Limits()
    requires CleanQuery(QueryName(qname)) && Undecided(e, ix, pol, chosen, QueryName(qname))
    ensures var name := QueryName(qname);
      Decide(e, t, ix, pol, chosen, qname).blocked <==>
        if name in t.src then !LeavesOut(pol, chosen, t.src[name])
        else (
          && name !in t.blocked
          && exists r :: r in t.src && IsPatternRule(r) && RuleMatches(e, r, name)
               && t.src[r] != "" && !LeavesOut(pol, chosen, t.src[r]))
  {
    hide Decide, RuleMatches, IsPatternRule, NoRepeats, GravityContains, Wildcards, TablesSay, QueryName, CleanQuery,
         Undecided, Counts, Disregarded, LeavesOut;
    var name := QueryName(qname);
    UndecidedGoesOn(e, t, ix, pol, chosen, qname);
    TablesVerdict(e, t, ix, pol, chosen, name);
    if name in t.src {
      DisregardedIsLeftOut(pol, chosen, t.src[name]);
    }
    forall r ensures Counts(pol, chosen, SourceOf(t, r)) <==>
      r in t.src && t.src[r] != "" && !LeavesOut(pol, chosen, t.src[r])
    {
      LimitedCounts(t, pol, chosen, r);
    }
    if r :| r in Wildcards(name) && r in t.blocked && Counts(pol, chosen, SourceOf(t, r)) {
      WalkAgreesWithScan(e, t, name, r);
    }
  }

  // ---- adding rules ----

  /** For such a client, adding a rule never unblocks a name, whatever the rule and its source. */
  lemma AddingNeverUnblocks(e: Engine, t: Tables, ix: Index, pol: Policy, chosen: Chosen, qname: string,
                            rule: string, source: string)
    requires !chosen.Limits() && Decide(e, t, ix, pol, chosen, qname).blocked
    ensures Decide(e, Added(t, rule, source), ix, pol, chosen, qname).blocked
  {
    hide EarlySays, RuleMatches, IsPatternRule, GravityContains, Wildcards, TablesSay, QueryName, Normalize;
    TablesVerdict(e, t, ix, pol, chosen, QueryName(qname));
    TablesVerdict(e, Added(t, rule, source), ix, pol, chosen, QueryName(qname));
  }

  /** Under a limiting profile, adding with this source keeps every blocked name blocked. */
  ghost predicate SafeSource(e: Engine, ix: Index, pol: Policy, chosen: Chosen, source: string) {
    forall t: Tables, rule: string, name: string ::
      InStep(t) && TablesBlock(e, t, ix, pol, chosen, name)
      ==> TablesBlock(e, Added(t, rule, source), ix, pol, chosen, name)
  }

  function Longest(lists: seq<ListSource>): nat {
    if lists == [] then 0
    else Max(Max(|lists[0].name|, |lists[0].source|), Longest(lists[1..]))
  }

  function Max(a: nat, b: nat): nat {
    if a < b then b else a
  }

  lemma {:induction false} LongerThanAll(lists: seq<ListSource>, k: nat)
    requires k < |lists|
    ensures |lists[k].name| <= Longest(lists) && |lists[k].source| <= Longest(lists)
  {
    if k > 0 {
      LongerThanAll(lists[1..], k - 1);
    }
  }

  lemma UnlistedSource(pol: Policy) returns (source: string)
    ensures source != "" && !SourceIsBlocklist(pol, source)
  {
    source := seq(Longest(pol.lists) + 1, _ => 'x');
    forall k | 0 <= k < |pol.lists| ensures !Names(pol.lists[k], source) {
      LongerThanAll(pol.lists, k);
      assert |Lower(source)| == Longest(pol.lists) + 1;
    }
  }

  lemma CountingSourceIsSafe(e: Engine, ix: Index, pol: Policy, chosen: Chosen, source: string,
                             t: Tables, rule: string, name: string)
    requires chosen.Limits() && Counts(pol, chosen, source)
    requires TablesBlock(e, t, ix, pol, chosen, name)
    ensures TablesBlock(e, Added(t, rule, source), ix, pol, chosen, name)
  {
    hide RuleMatches, IsPatternRule, GravityContains, Wildcards, Normalize, SourceIsBlocklist, ProfileHasBlocklist;
    var t' := Added(t, rule, source);
    forall r | Counts(pol, chosen, SourceOf(t, r)) ensures Counts(pol, chosen, SourceOf(t', r)) {
    }
  }

  /** Tables holding the one rule "*". */
  function OnlyStar(source: string): Tables {
    Tables({"*"}, map["*" := source], ["*"])
  }

  lemma SingletonInStep(rule: string, source: string)
    requires IsPatternRule(rule) && rule != ""
    ensures InStep(Tables({rule}, map[rule := source], [rule]))
  {
    hide IsPatternRule;
    assert forall r :: r in [rule] <==> r == rule;
  }

  lemma SingletonScan(e: Engine, pol: Policy, chosen: Chosen, name: string, rule: string, source: string)
    requires RuleMatches(e, rule, name) && Counts(pol, chosen, source)
    ensures ScanBlocks(e, Tables({rule}, map[rule := source], [rule]), pol, chosen, name)
  {
    hide RuleMatches, Counts;
    var t := Tables({rule}, map[rule := source], [rule]);
    assert rule in t.pat && SourceOf(t, rule) == source;
  }

  lemma OnlyStarBlocks(e: Engine, ix: Index, pol: Policy, chosen: Chosen, good: string, name: string)
    requires Counts(pol, chosen, good) && name != "*" && RuleMatches(e, "*", name)
    ensures InStep(OnlyStar(good)) && TablesBlock(e, OnlyStar(good), ix, pol, chosen, name)
  {
    hide RuleMatches, WalkBlocks, ScanBlocks, InStep, IsPatternRule, Counts, Disregarded, Normalize, CleanName;
    CleanLiterals();
    SingletonInStep("*", good);
    SingletonScan(e, pol, chosen, name, "*", good);
  }

  /** A name that can be a rule of its own, and that a lone star matches. */
  ghost predicate Ordinary(name: string) {
    CleanQuery(name) && Normalize(name) == name && name != "" && name != "*"
  }

  /** A rule without a counting source, on a name that so far only "*" blocked, unblocks it. */
  lemma DisregardedSourceUnblocks(e: Engine, ix: Index, pol: Policy, chosen: Chosen, source: string, name: string)
    returns (t: Tables)
    requires chosen.Limits() && !Counts(pol, chosen, source) && Ordinary(name)
    ensures InStep(t) && TablesBlock(e, t, ix, pol, chosen, name)
    ensures !TablesBlock(e, Added(t, name, source), ix, pol, chosen, name)
  {
    hide RuleMatches, GravityContains, Wildcards, Normalize, IsPatternRule, SourceIsBlocklist, ProfileHasBlocklist,
         InStep, WalkBlocks, ScanBlocks, CleanQuery;
    var good := UnlistedSource(pol);
    t := OnlyStar(good);
    LoneStarMatches(e, name);
    OnlyStarBlocks(e, ix, pol, chosen, good, name);
    var after := Added(t, name, source);
    assert name in after.blocked && name != "*";
    assert after.src == if source != "" then t.src[name := source] else t.src;
  }

  lemma CleanLiterals()
    ensures Normalize("a") == "a" && !IsPatternRule("a") && Normalize("*") == "*" && IsPatternRule("*")
    ensures CleanName("a") == "a"
  {
    assert Lower("a") == "a" && Lower("*") == "*";
    assert TrimSpace("a") == "a" && TrimSpace("*") == "*";
    NotAPrefix("regex:", "a", 0);
    NotAPrefix("regex:", "*", 0);
  }

  lemma LoneStarMatches(e: Engine, name: string)
    requires CleanQuery(name) && name != ""
    ensures RuleMatches(e, "*", name)
  {
    CleanLiterals();
    hide Normalize, Split, Weave, WildcardRulePattern, CleanName, Engine.MatchString;
    LoneStarFilling(name, [name]);
    WildcardIsGlob(e, "*", name);
    WildcardMeaning(e, "*", name);
    NotAPrefix("regex:", "*", 0);
  }

  lemma AIsOrdinary()
    ensures Ordinary("a")
  {
    CleanLiterals();
  }

  /** For a client whose profile names blocklists, the tables never unblock a name for a rule added with a given
      source exactly when the source is non-empty and is not a blocklist the profile leaves out. */
  lemma LimitedAddingIsSafeIff(e: Engine, ix: Index, pol: Policy, chosen: Chosen, source: string)
    requires chosen.Limits()
    ensures SafeSource(e, ix, pol, chosen, source) <==>
      source != "" && (SourceIsBlocklist(pol, source) ==> ProfileHasBlocklist(pol, chosen.profile.value, source))
  {
    hide TablesBlock, SourceIsBlocklist, ProfileHasBlocklist, InStep, Added;
    if Counts(pol, chosen, source) {
      forall t: Tables, rule: string, name: string | InStep(t) && TablesBlock(e, t, ix, pol, chosen, name)
        ensures TablesBlock(e, Added(t, rule, source), ix, pol, chosen, name)
      {
        CountingSourceIsSafe(e, ix, pol, chosen, source, t, rule, name);
      }
    } else {
      AIsOrdinary();
      hide Ordinary;
      var t := DisregardedSourceUnblocks(e, ix, pol, chosen, source, "a");
    }
  }

  /** Under a limiting profile, adding with this source unblocks no name in the whole decision. */
  ghost predicate SafeForDecision(e: Engine, ix: Index, pol: Policy, chosen: Chosen, source: string) {
    forall t: Tables, rule: string, qname: string ::
      InStep(t) && Decide(e, t, ix, pol, chosen, qname).blocked
      ==> Decide(e, Added(t, rule, source), ix, pol, chosen, qname).blocked
  }

  lemma SafeSourceIsSafe(e: Engine, ix: Index, pol: Policy, chosen: Chosen, source: string)
    requires SafeSource(e, ix, pol, chosen, source)
    ensures SafeForDecision(e, ix, pol, chosen, source)
  {
    hide EarlySays, TablesSay, TablesBlock, InStep, Added, QueryName;
    forall t: Tables, rule: string, qname: string | InStep(t) && Decide(e, t, ix, pol, chosen, qname).blocked
      ensures Decide(e, Added(t, rule, source), ix, pol, chosen, qname).blocked
    {
      TablesVerdict(e, t, ix, pol, chosen, QueryName(qname));
      TablesVerdict(e, Added(t, rule, source), ix, pol, chosen, QueryName(qname));
    }
  }

  /** The same holds of the whole decision as soon as its early layers leave some ordinary name undecided. */
  lemma LimitedDecisionIsSafeIff(e: Engine, ix: Index, pol: Policy, chosen: Chosen, source: string, qname: string)
    requires chosen.Limits() && Ordinary(QueryName(qname)) && Undecided(e, ix, pol, chosen, QueryName(qname))
    ensures SafeForDecision(e, ix, pol, chosen, source) <==>
      source != "" && (SourceIsBlocklist(pol, source) ==> ProfileHasBlocklist(pol, chosen.profile.value, source))
  {
    hide TablesBlock, TablesSay, SourceIsBlocklist, ProfileHasBlocklist, InStep, Added, EarlySays, Ordinary, QueryName,
         SafeSource, Undecided;
    LimitedAddingIsSafeIff(e, ix, pol, chosen, source);
    if SafeSource(e, ix, pol, chosen, source) {
      SafeSourceIsSafe(e, ix, pol, chosen, source);
    } else {
      var name := QueryName(qname);
      var t := DisregardedSourceUnblocks(e, ix, pol, chosen, source, name);
      UndecidedGoesOn(e, t, ix, pol, chosen, qname);
      UndecidedGoesOn(e, Added(t, name, source), ix, pol, chosen, qname);
      TablesVerdict(e, t, ix, pol, chosen, name);
      TablesVerdict(e, Added(t, name, source), ix, pol, chosen, name);
      hide Decide;
      assert Decide(e, t, ix, pol, chosen, qname).blocked;
      assert !Decide(e, Added(t, name, source), ix, pol, chosen, qname).blocked;
    }
  }
}
