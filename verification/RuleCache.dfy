/** The bounded cache of compiled rules and its two-lock lookup. A compiled regex is identified by its text. */
module RuleCache {
  import opened Text
  import opened Rules

  const MAX_RULE_CACHE := 4096

  type Table = map<string, string>

  /** Every entry is what compiling its key afresh gives, and the table is within its bound. */
  ghost predicate Sound(engine: Engine, table: Table) {
    && |table| <= MAX_RULE_CACHE
    && forall rule :: rule in table ==> CompileDomainRule(engine, rule) == Compiled(table[rule])
  }

  function Stored(table: Table, rule: string, text: string): Table {
    if |table| < MAX_RULE_CACHE then table[rule := text] else table
  }

  class Matcher {
    const engine: Engine
    var ruleCache: Table

    constructor (engine: Engine)
      ensures this.engine == engine && ruleCache == map[] && Sound(engine, ruleCache)
    {
      this.engine := engine;
      ruleCache := map[];
    }

    /** DNSLeaf.domainRuleMatches, one caller at a time */
    method DomainRuleMatches(rule: string, name: string) returns (ok: bool)
      requires Sound(engine, ruleCache)
      modifies this
      ensures Sound(engine, ruleCache)
      ensures ok == RuleMatches(engine, rule, name)
      ensures forall r :: r in old(ruleCache) ==> r in ruleCache && ruleCache[r] == old(ruleCache)[r]
      ensures var r := Normalize(rule);
        var stores := r != "" && CleanName(name) != "" && IsPatternRule(r) && CompileDomainRule(engine, r).Compiled?
          && |old(ruleCache)| < 4096;
        forall k :: k in ruleCache <==> k in old(ruleCache) || (stores && k == r)
    {
      hide Normalize, CleanName, CompileDomainRule, IsPatternRule, Engine.MatchString;
      var r, n := Normalize(rule), CleanName(name);
      if r == "" || n == "" {
        return false;
      }
      if !IsPatternRule(r) {
        return r == n;
      }
      var text;
      if r in ruleCache {
        text := ruleCache[r];
      } else {
        var compiled := CompileDomainRule(engine, r);
        if !compiled.Compiled? {
          return false;
        }
        if |ruleCache| < MAX_RULE_CACHE {
          ruleCache := ruleCache[r := compiled.text];
        }
        text := compiled.text;
      }
      ok := engine.MatchString(text, n);
    }
  }

  // ---- any number of callers, interleaved at the two lock regions ----

  datatype Phase =
    | Missed(rule: string, name: string)                 // read lock released, nothing found
    | Answered(rule: string, name: string, ok: bool)

  datatype State = State(table: Table, calls: map<nat, Phase>)

  /** A new call: the guards, then the lookup under the read lock. */
  ghost predicate Lookup(engine: Engine, s: State, t: State, id: nat, rule: string, name: string) {
    var r, n := Normalize(rule), CleanName(name);
    && id !in s.calls
    && t.table == s.table
    && t.calls == s.calls[id :=
      if r == "" || n == "" then Answered(rule, name, false)
      else if !IsPatternRule(r) then Answered(rule, name, r == n)
      else if r in s.table then Answered(rule, name, engine.MatchString(s.table[r], n))
      else Missed(rule, name)]
  }

  /** A call that missed: compile, then store under the write lock and match. */
  ghost predicate Fill(engine: Engine, s: State, t: State, id: nat) {
    && id in s.calls && s.calls[id].Missed?
    && var Missed(rule, name) := s.calls[id];
    && var r := Normalize(rule);
    && match CompileDomainRule(engine, r)
       case Compiled(text) =>
         && t.table == Stored(s.table, r, text)
         && t.calls == s.calls[id := Answered(rule, name, engine.MatchString(text, CleanName(name)))]
       case _ =>
         && t.table == s.table
         && t.calls == s.calls[id := Answered(rule, name, false)]
  }

  ghost predicate Step(engine: Engine, s: State, t: State) {
    || (exists id, rule, name :: Lookup(engine, s, t, id, rule, name))
    || (exists id :: Fill(engine, s, t, id))
  }

  ghost predicate IsRun(engine: Engine, run: seq<State>) {
    && run != []
    && run[0] == State(map[], map[])
    && forall i :: 0 <= i < |run| - 1 ==> Step(engine, run[i], run[i + 1])
  }

  ghost predicate Inv(engine: Engine, s: State) {
    && Sound(engine, s.table)
    && forall id :: id in s.calls ==>
      match s.calls[id]
      case Missed(rule, name) => Normalize(rule) != "" && CleanName(name) != "" && IsPatternRule(Normalize(rule))
      case Answered(rule, name, ok) => ok == RuleMatches(engine, rule, name)
  }

  lemma StepKeepsInv(engine: Engine, s: State, t: State)
    requires Inv(engine, s) && Step(engine, s, t)
    ensures Inv(engine, t)
  {
    hide Normalize, CleanName, CompileDomainRule, IsPatternRule, Engine.MatchString;
    if id, rule, name :| Lookup(engine, s, t, id, rule, name) {
    } else {
      var id :| Fill(engine, s, t, id);
    }
  }

  /** In every reachable state and interleaving the bound holds, each entry equals a fresh compile of
      its key, and each answer given is that of the uncached compile-and-match. */
  lemma {:induction false} CachedAnswersAreUncachedAnswers(engine: Engine, run: seq<State>)
    requires IsRun(engine, run)
    ensures var s := run[|run| - 1];
      && Sound(engine, s.table) && |s.table| <= 4096
      && (forall id :: id in s.calls && s.calls[id].Answered? ==>
           s.calls[id].ok == RuleMatches(engine, s.calls[id].rule, s.calls[id].name))
    ensures Inv(engine, run[|run| - 1])
  {
    if |run| > 1 {
      CachedAnswersAreUncachedAnswers(engine, run[..|run| - 1]);
      assert run[|run| - 2 + 1] == run[|run| - 1];
      StepKeepsInv(engine, run[|run| - 2], run[|run| - 1]);
    }
  }
}
