/** blockDecision: profile, allow, schedule, exact, gravity, wildcard-walk and pattern-scan layers. */
module Decision {
  import opened Addresses
  import opened Text
  import opened Rules
  import opened Gravity
  import opened Blocking

  datatype Profile = Profile(disableBlocking: bool, disabled: bool, allowed: seq<string>, blocked: seq<string>,
                             blocklists: seq<string>)

  datatype ListSource = ListSource(name: string, source: string)

  /** active is scheduledRuleActive's answer at the time of the query. */
  datatype ScheduledRule = ScheduledRule(enabled: bool, domain: string, action: string, active: bool)

  datatype Policy = Policy(profiles: map<string, Profile>, clientProfiles: map<string, string>, defaultProfile: string,
                           allowed: seq<string>, scheduled: seq<ScheduledRule>, lists: seq<ListSource>)

  datatype Index = Index(gravity: seq<string>, byList: map<string, seq<Uint32>>)

  datatype Verdict = Verdict(blocked: bool, source: string)

  const PASS := Verdict(false, "")

  predicate EqualFold(a: string, b: string) {
    Lower(a) == Lower(b)
  }

  predicate Names(list: ListSource, text: string) {
    EqualFold(list.name, text) || EqualFold(list.source, text)
  }

  predicate SourceIsBlocklist(pol: Policy, source: string) {
    exists k :: 0 <= k < |pol.lists| && Names(pol.lists[k], source)
  }

  predicate ProfileHasBlocklist(pol: Policy, prof: Profile, source: string) {
    exists k :: 0 <= k < |prof.blocklists| &&
      var item := TrimSpace(prof.blocklists[k]);
      EqualFold(item, source)
      || exists m :: 0 <= m < |pol.lists| && Names(pol.lists[m], item) && Names(pol.lists[m], source)
  }

  predicate OnList(ix: Index, list: string, name: string) {
    list in ix.byList && IndexSetContains(ix.gravity, ix.byList[list], name)
  }

  /** profileBlocklistContainsLocked */
  predicate ProfileListsContain(ix: Index, pol: Policy, prof: Profile, name: string) {
    exists k :: 0 <= k < |prof.blocklists| &&
      HasVia(ix, pol, TrimSpace(prof.blocklists[k]), name)
  }

  /** One entry of a profile, as a list's key and as a list's name or source. */
  predicate HasVia(ix: Index, pol: Policy, list: string, name: string) {
    && list != ""
    && (OnList(ix, list, name)
        || exists m :: 0 <= m < |pol.lists| && Names(pol.lists[m], list) && OnList(ix, pol.lists[m].source, name))
  }

  predicate AnyMatches(e: Engine, rules: seq<string>, name: string) {
    exists k :: 0 <= k < |rules| && RuleMatches(e, rules[k], name)
  }

  function First<T>(items: seq<T>, ok: T -> bool): Option<T> {
    if items == [] then None else if ok(items[0]) then Some(items[0]) else First(items[1..], ok)
  }

  // ---- the layers ----

  datatype Chosen = Chosen(name: string, profile: Option<Profile>)
  {
    predicate Limits() {
      profile.Some? && profile.value.blocklists != []
    }
  }

  function ScheduleSays(e: Engine, pol: Policy, name: string): Option<Verdict> {
    var hit := (r: ScheduledRule) => r.enabled && r.active && RuleMatches(e, r.domain, name)
      && Lower(TrimSpace(r.action)) in {"allow", "block"};
    match First(pol.scheduled, hit)
    case None => None
    case Some(r) => Some(Verdict(Lower(TrimSpace(r.action)) == "block", "schedule:" + r.domain))
  }

  /** What the layers before the rule tables decide. */
  function EarlySays(e: Engine, ix: Index, pol: Policy, chosen: Chosen, name: string): Option<Verdict> {
    if chosen.profile.Some? && (chosen.profile.value.disableBlocking || chosen.profile.value.disabled) then Some(PASS)
    else if chosen.profile.Some? && AnyMatches(e, chosen.profile.value.allowed, name) then Some(PASS)
    else if chosen.profile.Some? && AnyMatches(e, chosen.profile.value.blocked, name) then
      Some(Verdict(true, "profile:" + chosen.name))
    else if chosen.Limits() && ProfileListsContain(ix, pol, chosen.profile.value, name) then
      Some(Verdict(true, "profile-list:" + chosen.name))
    else if AnyMatches(e, pol.allowed, name) then Some(PASS)
    else ScheduleSays(e, pol, name)
  }

  /** A limiting profile disregards rules from a list it does not name. */
  predicate Disregarded(pol: Policy, chosen: Chosen, source: string) {
    chosen.Limits() && SourceIsBlocklist(pol, source) && !ProfileHasBlocklist(pol, chosen.profile.value, source)
  }

  function SourceOf(t: Tables, rule: string): string {
    if rule in t.src then t.src[rule] else ""
  }

  predicate Counts(pol: Policy, chosen: Chosen, source: string) {
    !Disregarded(pol, chosen, source) && !(chosen.Limits() && source == "")
  }

  /** "*." before every proper suffix of labels, longest suffix first */
  function Wildcards(name: string): (ws: seq<string>) {
    var parts := Split(name, ".");
    seq(|parts| - 1, i requires 0 <= i < |parts| - 1 => "*." + Join(parts[i + 1..], "."))
  }

  function RuleHit(t: Tables, rule: Option<string>, fallback: string): Verdict {
    match rule
    case None => PASS
    case Some(r) => Verdict(true, if SourceOf(t, r) == "" then fallback else SourceOf(t, r))
  }

  function WalkHit(t: Tables, pol: Policy, chosen: Chosen, name: string): Option<string> {
    First(Wildcards(name), r => r in t.blocked && Counts(pol, chosen, SourceOf(t, r)))
  }

  function ScanHit(e: Engine, t: Tables, pol: Policy, chosen: Chosen, name: string): Option<string> {
    First(t.pat, r => RuleMatches(e, r, name) && Counts(pol, chosen, SourceOf(t, r)))
  }

  /** What the rule tables and gravity decide. */
  function TablesSay(e: Engine, t: Tables, ix: Index, pol: Policy, chosen: Chosen, name: string): Verdict {
    if name in t.src then if Disregarded(pol, chosen, t.src[name]) then PASS else Verdict(true, t.src[name])
    else if name in t.blocked then if chosen.Limits() then PASS else Verdict(true, "manual")
    else if !chosen.Limits() && GravityContains(ix.gravity, name) then Verdict(true, "gravity")
    else if WalkHit(t, pol, chosen, name).Some? then RuleHit(t, WalkHit(t, pol, chosen, name), "wildcard")
    else RuleHit(t, ScanHit(e, t, pol, chosen, name), "regex")
  }

  function QueryName(qname: string): string {
    Lower(TrimDot(qname))
  }

  function Decide(e: Engine, t: Tables, ix: Index, pol: Policy, chosen: Chosen, qname: string): Verdict {
    var name := QueryName(qname);
    match EarlySays(e, ix, pol, chosen, name)
    case Some(v) => v
    case None => TablesSay(e, t, ix, pol, chosen, name)
  }

  // ---- first hits ----

  lemma {:induction false} FirstHolds<T>(items: seq<T>, ok: T -> bool)
    ensures First(items, ok).None? <==> forall x :: x in items ==> !ok(x)
    ensures First(items, ok).Some? ==> First(items, ok).value in items && ok(First(items, ok).value)
  {
    if items != [] {
      FirstHolds(items[1..], ok);
      assert items == [items[0]] + items[1..];
    }
  }

  lemma {:induction false} FirstAt<T>(items: seq<T>, ok: T -> bool, k: nat)
    requires k < |items| && ok(items[k])
    requires forall j :: 0 <= j < k ==> !ok(items[j])
    ensures First(items, ok) == Some(items[k])
  {
    if k > 0 {
      assert !ok(items[0]);
      assert forall j :: 0 <= j < |items| - 1 ==> items[1..][j] == items[j + 1];
      FirstAt(items[1..], ok, k - 1);
    }
  }

  lemma WalkHitHolds(t: Tables, pol: Policy, chosen: Chosen, name: string)
    ensures WalkHit(t, pol, chosen, name).Some?
      <==> exists r :: r in Wildcards(name) && r in t.blocked && Counts(pol, chosen, SourceOf(t, r))
  {
    FirstHolds(Wildcards(name), r => r in t.blocked && Counts(pol, chosen, SourceOf(t, r)));
  }

  lemma ScanHitHolds(e: Engine, t: Tables, pol: Policy, chosen: Chosen, name: string)
    ensures ScanHit(e, t, pol, chosen, name).Some?
      <==> exists r :: r in t.pat && RuleMatches(e, r, name) && Counts(pol, chosen, SourceOf(t, r))
  {
    FirstHolds(t.pat, r => RuleMatches(e, r, name) && Counts(pol, chosen, SourceOf(t, r)));
  }

  ghost predicate WalkBlocks(t: Tables, pol: Policy, chosen: Chosen, name: string) {
    exists r :: r in Wildcards(name) && r in t.blocked && Counts(pol, chosen, SourceOf(t, r))
  }

  ghost predicate ScanBlocks(e: Engine, t: Tables, pol: Policy, chosen: Chosen, name: string) {
    exists r :: r in t.pat && RuleMatches(e, r, name) && Counts(pol, chosen, SourceOf(t, r))
  }

  /** The tables' verdict as one condition. */
  ghost predicate TablesBlock(e: Engine, t: Tables, ix: Index, pol: Policy, chosen: Chosen, name: string) {
    if name in t.src then !Disregarded(pol, chosen, t.src[name])
    else if name in t.blocked then !chosen.Limits()
    else (
      || (!chosen.Limits() && GravityContains(ix.gravity, name))
      || WalkBlocks(t, pol, chosen, name)
      || ScanBlocks(e, t, pol, chosen, name))
  }

  lemma TablesVerdict(e: Engine, t: Tables, ix: Index, pol: Policy, chosen: Chosen, name: string)
    ensures TablesSay(e, t, ix, pol, chosen, name).blocked <==> TablesBlock(e, t, ix, pol, chosen, name)
  {
    hide Disregarded, GravityContains, Counts, RuleMatches, Wildcards, WalkHit, ScanHit, SourceOf;
    WalkHitHolds(t, pol, chosen, name);
    ScanHitHolds(e, t, pol, chosen, name);
  }

  /** With no rule anywhere nothing is blocked. */
  lemma NothingBlocks(e: Engine, chosen: Chosen, qname: string)
    requires chosen.profile.None?
    ensures !Decide(e, EMPTY_TABLES, Index([], map[]), Policy(map[], map[], "", [], [], []), chosen, qname).blocked
  {
    hide Wildcards, RuleMatches;
    TablesVerdict(e, EMPTY_TABLES, Index([], map[]), Policy(map[], map[], "", [], [], []), chosen, QueryName(qname));
  }

  // ---- a profile's lists, through the indexes rebuilt for them ----

  /** What the rebuilt index of a list says of a name. */
  lemma OnListIsMembership(gravity: seq<string>, lists: map<string, seq<string>>, list: string, name: string)
    requires StrictlyAscending(gravity) && |gravity| <= UINT32_SIZE
    requires list in lists ==> StrictlyAscending(lists[list])
    ensures OnList(Index(gravity, Rebuilt(gravity, lists)), list, name) <==>
      list in lists && name in lists[list] && name in gravity
  {
    hide Less, PositionsOf, SearchStrings;
    if list in lists {
      IndexIsMembership(gravity, lists[list], name);
      assert gravity[..|gravity|] == gravity;
    }
  }

  /** The profile names this list: by its key, or through a configured list of this source. */
  predicate NamesList(pol: Policy, prof: Profile, list: string) {
    exists k :: 0 <= k < |prof.blocklists| &&
      var item := TrimSpace(prof.blocklists[k]);
      && item != ""
      && (list == item
          || exists m :: 0 <= m < |pol.lists| && Names(pol.lists[m], item) && pol.lists[m].source == list)
  }

  /** A profile's lists hold a name exactly when one of the lists it names has it, and gravity does. */
  lemma ProfileListsAreMembership(gravity: seq<string>, lists: map<string, seq<string>>, pol: Policy, prof: Profile,
                                  name: string)
    requires StrictlyAscending(gravity) && |gravity| <= UINT32_SIZE
    requires forall list :: list in lists ==> StrictlyAscending(lists[list])
    ensures ProfileListsContain(Index(gravity, Rebuilt(gravity, lists)), pol, prof, name) <==>
      name in gravity && exists list :: list in lists && name in lists[list] && NamesList(pol, prof, list)
  {
    hide Less, StrictlyAscending, OnList, Rebuilt, Names, TrimSpace;
    var ix := Index(gravity, Rebuilt(gravity, lists));
    forall list ensures OnList(ix, list, name) <==> list in lists && name in lists[list] && name in gravity {
      OnListIsMembership(gravity, lists, list, name);
    }
    ProfileListsByName(ix, pol, prof, name);
  }

  lemma ProfileListsByName(ix: Index, pol: Policy, prof: Profile, name: string)
    ensures ProfileListsContain(ix, pol, prof, name) <==>
      exists list :: OnList(ix, list, name) && NamesList(pol, prof, list)
  {
    hide OnList, Names, TrimSpace;
    if ProfileListsContain(ix, pol, prof, name) {
      var k :| 0 <= k < |prof.blocklists| && HasVia(ix, pol, TrimSpace(prof.blocklists[k]), name);
      var item := TrimSpace(prof.blocklists[k]);
      if !OnList(ix, item, name) {
        var m :| 0 <= m < |pol.lists| && Names(pol.lists[m], item) && OnList(ix, pol.lists[m].source, name);
        assert NamesList(pol, prof, pol.lists[m].source);
      } else {
        assert NamesList(pol, prof, item);
      }
    }
  }

  // ---- the loops of the source, against the layers above ----

  method AnyRuleMatches(e: Engine, rules: seq<string>, name: string) returns (hit: bool)
    ensures hit == AnyMatches(e, rules, name)
  {
    hide RuleMatches;
    for i := 0 to |rules|
      invariant !exists k :: 0 <= k < i && RuleMatches(e, rules[k], name)
    {
      if RuleMatches(e, rules[i], name) {
        return true;
      }
    }
    hit := false;
  }

  method ListedSource(pol: Policy, source: string) returns (hit: bool)
    ensures hit == SourceIsBlocklist(pol, source)
  {
    hide Names;
    for i := 0 to |pol.lists|
      invariant !exists k :: 0 <= k < i && Names(pol.lists[k], source)
    {
      if Names(pol.lists[i], source) {
        return true;
      }
    }
    hit := false;
  }

  predicate SharesList(pol: Policy, item: string, source: string, upTo: nat)
    requires upTo <= |pol.lists|
  {
    exists m :: 0 <= m < upTo && Names(pol.lists[m], item) && Names(pol.lists[m], source)
  }

  method ProfileHasSource(pol: Policy, prof: Profile, source: string) returns (hit: bool)
    ensures hit == ProfileHasBlocklist(pol, prof, source)
  {
    hide Names, EqualFold;
    for i := 0 to |prof.blocklists|
      invariant forall k :: 0 <= k < i ==>
        !EqualFold(TrimSpace(prof.blocklists[k]), source)
        && !SharesList(pol, TrimSpace(prof.blocklists[k]), source, |pol.lists|)
    {
      var item := TrimSpace(prof.blocklists[i]);
      if EqualFold(item, source) {
        return true;
      }
      for j := 0 to |pol.lists|
        invariant !SharesList(pol, item, source, j)
      {
        if Names(pol.lists[j], item) && Names(pol.lists[j], source) {
          return true;
        }
      }
    }
    hit := false;
  }

  predicate OnNamedList(ix: Index, pol: Policy, list: string, name: string, upTo: nat)
    requires upTo <= |pol.lists|
  {
    exists m :: 0 <= m < upTo && Names(pol.lists[m], list) && OnList(ix, pol.lists[m].source, name)
  }

  method ProfileBlocklistContains(ix: Index, pol: Policy, prof: Profile, name: string) returns (hit: bool)
    ensures hit == ProfileListsContain(ix, pol, prof, name)
  {
    hide Names, OnList;
    for i := 0 to |prof.blocklists|
      invariant forall k :: 0 <= k < i ==>
        TrimSpace(prof.blocklists[k]) == ""
        || (!OnList(ix, TrimSpace(prof.blocklists[k]), name)
            && !OnNamedList(ix, pol, TrimSpace(prof.blocklists[k]), name, |pol.lists|))
    {
      var list := TrimSpace(prof.blocklists[i]);
      if list != "" {
        if OnList(ix, list, name) {
          return true;
        }
        for j := 0 to |pol.lists|
          invariant !OnNamedList(ix, pol, list, name, j)
        {
          if Names(pol.lists[j], list) && OnList(ix, pol.lists[j].source, name) {
            return true;
          }
        }
      }
    }
    hit := false;
  }

  method ScheduledDecision(e: Engine, pol: Policy, name: string) returns (says: Option<Verdict>)
    ensures says == ScheduleSays(e, pol, name)
  {
    hide RuleMatches;
    ghost var hit := (r: ScheduledRule) => r.enabled && r.active && RuleMatches(e, r.domain, name)
      && Lower(TrimSpace(r.action)) in {"allow", "block"};
    for i := 0 to |pol.scheduled|
      invariant First(pol.scheduled, hit) == First(pol.scheduled[i..], hit)
    {
      var rule := pol.scheduled[i];
      assert pol.scheduled[i..][1..] == pol.scheduled[i + 1..];
      if rule.enabled && rule.active && RuleMatches(e, rule.domain, name) {
        var action := Lower(TrimSpace(rule.action));
        if action == "allow" || action == "block" {
          return Some(Verdict(action == "block", "schedule:" + rule.domain));
        }
      }
    }
    says := None;
  }

  method RuleCounts(pol: Policy, chosen: Chosen, source: string) returns (counts: bool)
    ensures counts == Counts(pol, chosen, source)
  {
    if chosen.Limits() {
      var listed := ListedSource(pol, source);
      if listed {
        var has := ProfileHasSource(pol, chosen.profile.value, source);
        if !has {
          return false;
        }
      }
      if source == "" {
        return false;
      }
    }
    counts := true;
  }

  method WildcardWalk(t: Tables, pol: Policy, chosen: Chosen, name: string) returns (rule: Option<string>)
    ensures rule == WalkHit(t, pol, chosen, name)
  {
    hide Counts, Wildcards;
    var wilds := Wildcards(name);
    ghost var ok := r => r in t.blocked && Counts(pol, chosen, SourceOf(t, r));
    for i := 0 to |wilds|
      invariant First(wilds, ok) == First(wilds[i..], ok)
    {
      assert wilds[i..][1..] == wilds[i + 1..];
      if wilds[i] in t.blocked {
        var counts := RuleCounts(pol, chosen, SourceOf(t, wilds[i]));
        if counts {
          return Some(wilds[i]);
        }
      }
    }
    rule := None;
  }

  method PatternScan(e: Engine, t: Tables, pol: Policy, chosen: Chosen, name: string) returns (rule: Option<string>)
    ensures rule == ScanHit(e, t, pol, chosen, name)
  {
    hide Counts, RuleMatches;
    ghost var ok := r => RuleMatches(e, r, name) && Counts(pol, chosen, SourceOf(t, r));
    for i := 0 to |t.pat|
      invariant First(t.pat, ok) == First(t.pat[i..], ok)
    {
      assert t.pat[i..][1..] == t.pat[i + 1..];
      if RuleMatches(e, t.pat[i], name) {
        var counts := RuleCounts(pol, chosen, SourceOf(t, t.pat[i]));
        if counts {
          return Some(t.pat[i]);
        }
      }
    }
    rule := None;
  }

  method EarlyLayers(e: Engine, ix: Index, pol: Policy, chosen: Chosen, name: string) returns (says: Option<Verdict>)
    ensures says == EarlySays(e, ix, pol, chosen, name)
  {
    hide AnyMatches, ProfileListsContain, ScheduleSays;
    if chosen.profile.Some? {
      var profile := chosen.profile.value;
      if profile.disableBlocking || profile.disabled {
        return Some(PASS);
      }
      var hit := AnyRuleMatches(e, profile.allowed, name);
      if hit {
        return Some(PASS);
      }
      hit := AnyRuleMatches(e, profile.blocked, name);
      if hit {
        return Some(Verdict(true, "profile:" + chosen.name));
      }
      if |profile.blocklists| > 0 {
        hit := ProfileBlocklistContains(ix, pol, profile, name);
        if hit {
          return Some(Verdict(true, "profile-list:" + chosen.name));
        }
      }
    }
    var allowed := AnyRuleMatches(e, pol.allowed, name);
    if allowed {
      return Some(PASS);
    }
    says := ScheduledDecision(e, pol, name);
  }

  /** blockDecision for the profile chosen for the client */
  method BlockDecision(e: Engine, t: Tables, ix: Index, pol: Policy, chosen: Chosen, qname: string)
    returns (blocked: bool, source: string)
    ensures Verdict(blocked, source) == Decide(e, t, ix, pol, chosen, qname)
  {
    hide EarlySays, RuleMatches, Counts, Wildcards, WalkHit, ScanHit, GravityContains, SourceIsBlocklist,
         ProfileHasBlocklist;
    var name := QueryName(qname);
    var early := EarlyLayers(e, ix, pol, chosen, name);
    if early.Some? {
      return early.value.blocked, early.value.source;
    }
    if name in t.src {
      if chosen.Limits() {
        var listed := ListedSource(pol, t.src[name]);
        if listed {
          var has := ProfileHasSource(pol, chosen.profile.value, t.src[name]);
          if !has {
            return false, "";
          }
        }
      }
      return true, t.src[name];
    }
    if name in t.blocked {
      if chosen.Limits() {
        return false, "";
      }
      return true, "manual";
    }
    if !chosen.Limits() && GravityContains(ix.gravity, name) {
      return true, "gravity";
    }
    var wild := WildcardWalk(t, pol, chosen, name);
    if wild.Some? {
      return true, if SourceOf(t, wild.value) == "" then "wildcard" else SourceOf(t, wild.value);
    }
    var pattern := PatternScan(e, t, pol, chosen, name);
    if pattern.Some? {
      return true, if SourceOf(t, pattern.value) == "" then "regex" else SourceOf(t, pattern.value);
    }
    return false, "";
  }

  // ---- which profile a client gets ----

  /** The profile name the client table gives: its own entry, else any network entry that holds it. */
  ghost predicate TableGives(pol: Policy, parser: Parser, ip: string, name: string) {
    var exact := if ip != "" && ip in pol.clientProfiles then TrimSpace(pol.clientProfiles[ip]) else "";
    var nets := if ip == "" then {}
                else set rule | rule in pol.clientProfiles && '/' in rule && ItemHolds(parser, ip, rule);
    if exact != "" then name == exact
    else if nets == {} then name == ""
    else exists rule :: rule in nets && name == TrimSpace(pol.clientProfiles[rule])
  }

  ghost predicate MayChoose(pol: Policy, parser: Parser, ip: string, chosen: Chosen) {
    && chosen.profile == (if chosen.name in pol.profiles then Some(pol.profiles[chosen.name]) else None)
    && exists given :: TableGives(pol, parser, ip, given) && chosen.name ==
         if given != "" then given
         else if TrimSpace(pol.defaultProfile) != "" then TrimSpace(pol.defaultProfile)
         else "default"
  }

  /** The client's own entry decides, if it names a profile; */
  lemma OwnEntryDecides(pol: Policy, parser: Parser, ip: string, chosen: Chosen)
    requires MayChoose(pol, parser, ip, chosen)
    requires ip != "" && ip in pol.clientProfiles && TrimSpace(pol.clientProfiles[ip]) != ""
    ensures chosen.name == TrimSpace(pol.clientProfiles[ip])
    ensures chosen.profile.Some? <==> chosen.name in pol.profiles
    ensures chosen.profile.Some? ==> chosen.profile.value == pol.profiles[chosen.name]
  {
    hide TrimSpace, ItemHolds;
  }

  /** otherwise it is that of some network that holds the client, or else the default. */
  lemma NetworkOrDefaultDecides(pol: Policy, parser: Parser, ip: string, chosen: Chosen)
    requires MayChoose(pol, parser, ip, chosen)
    requires ip == "" || ip !in pol.clientProfiles || TrimSpace(pol.clientProfiles[ip]) == ""
    ensures var fallback := if TrimSpace(pol.defaultProfile) == "" then "default" else TrimSpace(pol.defaultProfile);
      if ip == "" || forall net :: net in pol.clientProfiles && '/' in net ==> !ItemHolds(parser, ip, net)
      then chosen.name == fallback
      else exists net :: net in pol.clientProfiles && '/' in net && ItemHolds(parser, ip, net)
             && chosen.name == if TrimSpace(pol.clientProfiles[net]) != "" then TrimSpace(pol.clientProfiles[net])
                               else fallback
  {
    hide TrimSpace, ItemHolds;
  }

  /** profileForClientLocked; network entries are tried in any order */
  method ProfileForClient(pol: Policy, parser: Parser, ip: string) returns (chosen: Chosen)
    ensures MayChoose(pol, parser, ip, chosen)
  {
    hide TrimSpace, ItemHolds;
    var name := "";
    if ip != "" {
      if ip in pol.clientProfiles && TrimSpace(pol.clientProfiles[ip]) != "" {
        name := TrimSpace(pol.clientProfiles[ip]);
      }
      if name == "" {
        var rest := pol.clientProfiles.Keys;
        while rest != {}
          invariant rest <= pol.clientProfiles.Keys
          invariant forall rule :: rule in pol.clientProfiles && rule !in rest ==>
            !('/' in rule && ItemHolds(parser, ip, rule))
        {
          var rule :| rule in rest;
          if '/' in rule && ItemHolds(parser, ip, rule) {
            name := TrimSpace(pol.clientProfiles[rule]);
            break;
          }
          rest := rest - {rule};
        }
      }
    }
    assert TableGives(pol, parser, ip, name);
    if name == "" {
      name := TrimSpace(pol.defaultProfile);
    }
    if name == "" {
      name := "default";
    }
    chosen := Chosen(name, if name in pol.profiles then Some(pol.profiles[name]) else None);
  }
}
