/** The three rule tables of manual, local and pattern rules, kept in step. */
module Blocking {
  import opened Text
  import opened Rules
  import opened Gravity

  // ---- the three rule tables, which must stay in step ----

  datatype Tables = Tables(blocked: set<string>, src: map<string, string>, pat: seq<string>)

  const EMPTY_TABLES := Tables({}, map[], [])

  function Added(t: Tables, rule: string, source: string): Tables {
    var r := Normalize(rule);
    if r == "" then t
    else Tables(
      t.blocked + {r},
      if source != "" then t.src[r := source] else t.src,
      if IsPatternRule(r) && r !in t.blocked then t.pat + [r] else t.pat)
  }

  function Removed(t: Tables, rule: string): Tables {
    var r := Normalize(rule);
    Tables(t.blocked - {r}, t.src - {r}, Without(t.pat, r))
  }

  ghost predicate InStep(t: Tables) {
    && (forall r :: r in t.src ==> r in t.blocked)
    && NoRepeats(t.pat)
    && (forall r :: r in t.pat <==> r in t.blocked && IsPatternRule(r))
    && "" !in t.blocked
  }

  lemma {:induction false} WithoutHolds(pats: seq<string>, rule: string)
    ensures forall r :: r in Without(pats, rule) <==> r in pats && r != rule
  {
    if pats != [] {
      WithoutHolds(pats[..|pats| - 1], rule);
      assert pats == pats[..|pats| - 1] + [pats[|pats| - 1]];
    }
  }

  lemma EmptyHasNoRepeats()
    ensures NoRepeats<string>([])
  {
  }

  lemma AppendWithoutRepeat(s: seq<string>, x: string)
    requires NoRepeats(s) && x !in s
    ensures NoRepeats(s + [x])
  {
  }

  lemma {:induction false} WithoutHasNoRepeats(pats: seq<string>, rule: string)
    requires NoRepeats(pats)
    ensures NoRepeats(Without(pats, rule))
  {
    if pats != [] {
      var init, last := pats[..|pats| - 1], pats[|pats| - 1];
      assert NoRepeats(init) by { assert forall i :: 0 <= i < |init| ==> init[i] == pats[i]; }
      WithoutHasNoRepeats(init, rule);
      WithoutHolds(init, rule);
      assert last !in init;
      if last != rule {
        AppendWithoutRepeat(Without(init, rule), last);
      } else {
        assert Without(pats, rule) == Without(init, rule);
      }
    }
  }

  datatype TableOp = Add(rule: string, source: string) | Remove(rule: string) | Reset

  function Apply(t: Tables, op: TableOp): Tables {
    match op
    case Add(rule, source) => Added(t, rule, source)
    case Remove(rule) => Removed(t, rule)
    case Reset => EMPTY_TABLES
  }

  function ApplyAll(ops: seq<TableOp>): Tables {
    if ops == [] then EMPTY_TABLES else Apply(ApplyAll(ops[..|ops| - 1]), ops[|ops| - 1])
  }

  lemma ApplyKeepsInStep(t: Tables, op: TableOp)
    requires InStep(t)
    ensures InStep(Apply(t, op))
  {
    hide Normalize, IsPatternRule, NoRepeats, Without;
    if op.Remove? {
      WithoutHolds(t.pat, Normalize(op.rule));
      WithoutHasNoRepeats(t.pat, Normalize(op.rule));
    } else if op.Add? {
      var r := Normalize(op.rule);
      if r !in t.blocked {
        assert r !in t.pat;
        AppendWithoutRepeat(t.pat, r);
      }
    } else {
      assert NoRepeats<string>([]) by { EmptyHasNoRepeats(); }
    }
  }

  /** In every state reached by adding, removing and resetting, the pattern list is duplicate-free and
      holds exactly the pattern rules of blocked, and only blocked rules carry a source. */
  lemma {:induction false} TablesStayInStep(ops: seq<TableOp>)
    ensures InStep(ApplyAll(ops))
  {
    if ops != [] {
      TablesStayInStep(ops[..|ops| - 1]);
      ApplyKeepsInStep(ApplyAll(ops[..|ops| - 1]), ops[|ops| - 1]);
    }
  }

  /** Removing undoes adding a rule the tables did not hold. */
  lemma RemoveUndoesAdd(t: Tables, rule: string, source: string)
    requires InStep(t) && Normalize(rule) !in t.blocked
    ensures Removed(Added(t, rule, source), rule) == t
  {
    hide Normalize, IsPatternRule, NoRepeats, Without;
    var r := Normalize(rule);
    assert r !in t.pat && r !in t.src;
    WithoutAbsent(t.pat, r);
    WithoutLast(t.pat, r);
    hide InStep;
    assert t.blocked + {r} - {r} == t.blocked == t.blocked - {r};
    assert t.src[r := source] - {r} == t.src == t.src - {r};
  }

  lemma WithoutLast(pats: seq<string>, rule: string)
    requires Without(pats, rule) == pats
    ensures Without(pats + [rule], rule) == pats
  {
    assert (pats + [rule])[..|pats|] == pats;
  }

  lemma {:induction false} WithoutAbsent(pats: seq<string>, rule: string)
    requires rule !in pats
    ensures Without(pats, rule) == pats
  {
    if pats != [] {
      WithoutAbsent(pats[..|pats| - 1], rule);
    }
  }

  class RuleTables {
    var blocked: set<string>
    var blockedSrc: map<string, string>
    var blockedPat: seq<string>
    /** Gravity and its indexes, under the same lock. */
    const index: GravityIndex

    function Value(): Tables
      reads this
    {
      Tables(blocked, blockedSrc, blockedPat)
    }

    constructor (index: GravityIndex)
      ensures Value() == EMPTY_TABLES && this.index == index
    {
      blocked, blockedSrc, blockedPat := {}, map[], [];
      this.index := index;
    }

    /** resetBlocked */
    method ResetBlocked()
      modifies this, index
      ensures Value() == EMPTY_TABLES && index.gravity == [] && index.gravityByList == map[]
    {
      blocked, blockedSrc, blockedPat := {}, map[], [];
      index.Clear();
    }

    /** addBlockedRuleLocked */
    method AddBlockedRule(rule: string, source: string) returns (added: bool)
      modifies this
      ensures Value() == Added(old(Value()), rule, source)
      ensures added == (Normalize(rule) != "" && Normalize(rule) !in old(blocked))
    {
      var r := Normalize(rule);
      if r == "" {
        return false;
      }
      added := r !in blocked;
      blocked := blocked + {r};
      if source != "" {
        blockedSrc := blockedSrc[r := source];
      }
      if IsPatternRule(r) && added {
        blockedPat := blockedPat + [r];
      }
    }

    /** removeBlockedRuleLocked; the pattern list is filtered in place */
    method RemoveBlockedRule(rule: string)
      modifies this
      ensures Value() == Removed(old(Value()), rule)
    {
      var r := Normalize(rule);
      blocked := blocked - {r};
      blockedSrc := blockedSrc - {r};
      var next, n := blockedPat, 0;
      for i := 0 to |blockedPat|
        invariant 0 <= n <= i && |next| == |blockedPat|
        invariant next[..n] == Without(blockedPat[..i], r)
        invariant forall k :: i <= k < |next| ==> next[k] == blockedPat[k]
      {
        var pat := next[i];
        assert blockedPat[..i + 1][..i] == blockedPat[..i];
        if pat != r {
          next := next[n := pat];
          n := n + 1;
        }
      }
      assert blockedPat[..|blockedPat|] == blockedPat;
      blockedPat := next[..n];
    }

    /** initBlocked */
    method InitBlocked(rules: seq<string>)
      modifies this
      ensures Value() == AddedAll(old(Value()), rules, "config")
    {
      for i := 0 to |rules|
        invariant Value() == AddedAll(old(Value()), rules[..i], "config")
      {
        var _ := AddBlockedRule(rules[i], "config");
        assert rules[..i + 1][..i] == rules[..i];
      }
      assert rules[..|rules|] == rules;
    }
  }

  function AddedAll(t: Tables, rules: seq<string>, source: string): Tables {
    if rules == [] then t
    else Added(AddedAll(t, rules[..|rules| - 1], source), rules[|rules| - 1], source)
  }

  /** Adding rules in turn adds exactly what they normalise to, each with the source. */
  lemma {:induction false} AddedAllHolds(t: Tables, rules: seq<string>, source: string, x: string)
    requires source != ""
    ensures var after := AddedAll(t, rules, source);
      && (x in after.blocked <==> x in t.blocked || (x != "" && exists r :: r in rules && Normalize(r) == x))
      && (x != "" && (exists r :: r in rules && Normalize(r) == x) ==> x in after.src && after.src[x] == source)
  {
    hide Normalize, IsPatternRule;
    if rules != [] {
      var init, last := rules[..|rules| - 1], rules[|rules| - 1];
      AddedAllHolds(t, init, source, x);
      assert rules == init + [last];
      assert forall r :: r in rules <==> r in init || r == last;
    }
  }
}
