/** Domain rules: normalisation, the wildcard-to-regex rendering and what a rule matches. */
module Rules {
  import opened Text

  /** normalizeDomainRule */
  function Normalize(rule: string): string {
    var r := Lower(TrimSpace(rule));
    if r == "" || IsRegexRule(r) then r else TrimDot(r)
  }

  predicate IsRegexRule(rule: string) {
    "regex:" <= rule || (|rule| > 2 && rule[0] == '/' && rule[|rule| - 1] == '/')
  }

  predicate IsPatternRule(rule: string) {
    IsRegexRule(rule) || '*' in rule
  }

  function RegexRulePattern(rule: string): string
    requires IsRegexRule(rule)
  {
    if "regex:" <= rule then TrimSpace(rule[6..]) else rule[1..|rule| - 1]
  }

  // ---- the regex text generated for a wildcard ----

  /** The characters regexp.QuoteMeta escapes. */
  predicate IsMeta(c: char) {
    c in "\\.+*?()|[]{}^$"
  }

  function QuoteChar(c: char): string {
    if IsMeta(c) then ['\\', c] else [c]
  }

  function QuoteMeta(s: string): string {
    if s == [] then "" else QuoteChar(s[0]) + QuoteMeta(s[1..])
  }

  /** Just these fourteen characters are escaped. */
  lemma Quoted(c: char)
    ensures QuoteMeta([c]) ==
      if c in {'\\', '.', '+', '*', '?', '(', ')', '|', '[', ']', '{', '}', '^', '$'} then ['\\', c] else [c]
  {
    assert [c][1..] == [];
  }

  function WildcardRulePattern(rule: string): string {
    "^" + Join(Split(QuoteMeta(rule), "\\*"), ".*") + "$"
  }

  // ---- a concrete meaning for anchored regexes made of literals and ".*" ----

  datatype Token = Literal(c: char) | AnyRun

  /** Reads regex text; None when it uses more of the syntax than literals, escapes and ".*". */
  function Tokens(text: string): Option<seq<Token>> {
    if text == [] then Some([])
    else if text[0] == '\\' then
      if |text| < 2 || !IsMeta(text[1]) then None
      else match Tokens(text[2..]) case None => None case Some(ts) => Some([Literal(text[1])] + ts)
    else if |text| >= 2 && text[..2] == ".*" then
      match Tokens(text[2..]) case None => None case Some(ts) => Some([AnyRun] + ts)
    else if IsMeta(text[0]) then None
    else match Tokens(text[1..]) case None => None case Some(ts) => Some([Literal(text[0])] + ts)
  }

  function ParseAnchored(text: string): Option<seq<Token>> {
    if |text| >= 2 && text[0] == '^' && text[|text| - 1] == '$' then Tokens(text[1..|text| - 1]) else None
  }

  predicate NewlineFree(s: string) {
    '\n' !in s
  }

  /** Anchored matching; '.' does not match a newline. */
  predicate MatchTokens(ts: seq<Token>, s: string) {
    if ts == [] then s == []
    else match ts[0]
      case Literal(c) => s != [] && s[0] == c && MatchTokens(ts[1..], s[1..])
      case AnyRun => exists k :: 0 <= k <= |s| && NewlineFree(s[..k]) && MatchTokens(ts[1..], s[k..])
  }

  /** regexp.Compile and MatchString for text outside the fragment above. */
  datatype Engine = Engine(compiles: string -> bool, matches: (string, string) -> bool)
  {
    predicate Compiles(text: string) {
      ParseAnchored(text).Some? || compiles(text)
    }

    predicate MatchString(text: string, name: string) {
      match ParseAnchored(text)
      case Some(ts) => MatchTokens(ts, name)
      case None => matches(text, name)
    }
  }

  // ---- what a wildcard means ----

  function Weave(literals: seq<string>, fills: seq<string>): string
    requires |literals| == |fills| + 1
  {
    literals[0] + if fills == [] then "" else fills[0] + Weave(literals[1..], fills[1..])
  }

  /** name is rule with each star replaced by the string of the same position in fills. */
  ghost predicate IsFilling(rule: string, name: string, fills: seq<string>) {
    |Split(rule, "*")| == |fills| + 1 && name == Weave(Split(rule, "*"), fills)
  }

  ghost predicate Glob(rule: string, name: string) {
    exists fills :: IsFilling(rule, name, fills)
  }

  // ---- quoting, splitting on the escaped star and joining renders character by character ----

  function RenderChar(c: char): string {
    if c == '*' then ".*" else QuoteChar(c)
  }

  function Render(rule: string): string {
    if rule == [] then "" else RenderChar(rule[0]) + Render(rule[1..])
  }

  function TokensOf(rule: string): seq<Token> {
    if rule == [] then []
    else [if rule[0] == '*' then AnyRun else Literal(rule[0])] + TokensOf(rule[1..])
  }

  lemma NotAPrefix(sep: string, t: string, i: nat)
    requires i < |sep| && (i < |t| ==> t[i] != sep[i])
    ensures !(sep <= t)
  {
  }

  lemma RenderStar(q: string)
    ensures Join(Split("\\*" + q, "\\*"), ".*") == ".*" + Join(Split(q, "\\*"), ".*")
  {
    SplitCut(q, "\\*");
    JoinAppend([""], Split(q, "\\*"), ".*");
    assert "" + ".*" == ".*";
  }

  lemma RenderPlain(c: char, q: string)
    requires c != '\\' || q == [] || q[0] != '*'
    ensures Join(Split([c] + q, "\\*"), ".*") == [c] + Join(Split(q, "\\*"), ".*")
  {
    NotAPrefix("\\*", [c] + q, if c != '\\' then 0 else 1);
    SplitSkip(c, q, "\\*");
  }

  lemma RenderEscaped(c: char, q: string)
    requires IsMeta(c) && c != '*' && (q == [] || q[0] != '*')
    ensures Join(Split(['\\', c] + q, "\\*"), ".*") == ['\\', c] + Join(Split(q, "\\*"), ".*")
  {
    hide Join, Split;
    assert ['\\', c] + q == ['\\'] + ([c] + q);
    RenderPlain(c, q);
    RenderPlain('\\', [c] + q);
    var rest := Join(Split(q, "\\*"), ".*");
    assert ['\\'] + ([c] + rest) == ['\\', c] + rest;
  }

  lemma RenderUnit(c: char, q: string)
    requires q == [] || q[0] != '*'
    ensures Join(Split(QuoteChar(c) + q, "\\*"), ".*") == RenderChar(c) + Join(Split(q, "\\*"), ".*")
  {
    hide Join, Split;
    if c == '*' {
      RenderStar(q);
    } else if IsMeta(c) {
      RenderEscaped(c, q);
    } else {
      RenderPlain(c, q);
    }
  }

  lemma {:induction false} RenderQuoted(rule: string)
    ensures Join(Split(QuoteMeta(rule), "\\*"), ".*") == Render(rule)
  {
    if rule == [] {
      assert Split("", "\\*") == [""];
    } else {
      RenderQuoted(rule[1..]);
      RenderUnit(rule[0], QuoteMeta(rule[1..]));
    }
  }

  lemma {:induction false} TokensOfRender(rule: string)
    ensures Tokens(Render(rule)) == Some(TokensOf(rule))
  {
    if rule == [] {
    } else {
      TokensOfRender(rule[1..]);
      var text, rest := Render(rule), Render(rule[1..]);
      if rule[0] == '*' {
        assert text[2..] == rest && text[..2] == ".*";
      } else if IsMeta(rule[0]) {
        assert text[0] == '\\' && text[1] == rule[0] && text[2..] == rest;
      } else {
        assert text[0] == rule[0] && text[1..] == rest;
      }
    }
  }

  /** Every wildcard compiles, and to exactly its own tokens. */
  lemma PatternParses(rule: string)
    ensures ParseAnchored(WildcardRulePattern(rule)) == Some(TokensOf(rule))
  {
    RenderQuoted(rule);
    TokensOfRender(rule);
    var text := WildcardRulePattern(rule);
    assert text[1..|text| - 1] == Render(rule);
  }

  lemma FillingStar(rule: string, fill: string, name: string, fills: seq<string>)
    ensures IsFilling("*" + rule, fill + name, [fill] + fills) <==> IsFilling(rule, name, fills)
  {
    SplitCut(rule, "*");
    var ls, fs := Split(rule, "*"), [fill] + fills;
    assert ([""] + ls)[1..] == ls && fs[1..] == fills;
    if |ls| == |fills| + 1 {
      assert Weave([""] + ls, fs) == fill + Weave(ls, fills);
      assert (fill + name)[|fill|..] == name && (fill + Weave(ls, fills))[|fill|..] == Weave(ls, fills);
    }
  }

  lemma FillingLiteral(c: char, rule: string, name: string, fills: seq<string>)
    requires c != '*'
    ensures IsFilling([c] + rule, [c] + name, fills) <==> IsFilling(rule, name, fills)
    ensures IsFilling([c] + rule, name, fills) ==> name != [] && name[0] == c
  {
    NotAPrefix("*", [c] + rule, 0);
    SplitSkip(c, rule, "*");
    var ls := Split(rule, "*");
    if |ls| == |fills| + 1 {
      assert ([c] + name)[1..] == name && ([c] + Weave(ls, fills))[1..] == Weave(ls, fills);
    }
  }

  lemma {:induction false} FillingOfMatch(rule: string, name: string) returns (fills: seq<string>)
    requires MatchTokens(TokensOf(rule), name)
    ensures IsFilling(rule, name, fills)
    ensures forall f :: f in fills ==> NewlineFree(f)
  {
    if rule == [] {
      fills := [];
    } else {
      hide Split, Weave;
      var ts := TokensOf(rule);
      assert ts[1..] == TokensOf(rule[1..]);
      if rule[0] == '*' {
        var k :| 0 <= k <= |name| && NewlineFree(name[..k]) && MatchTokens(ts[1..], name[k..]);
        var rest := FillingOfMatch(rule[1..], name[k..]);
        FillingStar(rule[1..], name[..k], name[k..], rest);
        assert rule == "*" + rule[1..] && name == name[..k] + name[k..];
        fills := [name[..k]] + rest;
      } else {
        fills := FillingOfMatch(rule[1..], name[1..]);
        FillingLiteral(rule[0], rule[1..], name[1..], fills);
        assert rule == [rule[0]] + rule[1..] && name == [name[0]] + name[1..];
      }
    }
  }

  lemma {:induction false} MatchOfFilling(rule: string, name: string, fills: seq<string>)
    requires IsFilling(rule, name, fills)
    requires forall f :: f in fills ==> NewlineFree(f)
    ensures MatchTokens(TokensOf(rule), name)
  {
    if rule == [] {
    } else {
      var ts := TokensOf(rule);
      assert ts[1..] == TokensOf(rule[1..]);
      if rule[0] == '*' {
        assert rule == "*" + rule[1..];
        SplitCut(rule[1..], "*");
        var k := |fills[0]|;
        assert k <= |name| && name[..k] == fills[0];
        assert fills == [fills[0]] + fills[1..] && name == name[..k] + name[k..];
        FillingStar(rule[1..], fills[0], name[k..], fills[1..]);
        MatchOfFilling(rule[1..], name[k..], fills[1..]);
      } else {
        assert rule == [rule[0]] + rule[1..];
        FillingLiteral(rule[0], rule[1..], name, fills);
        assert name == [rule[0]] + name[1..];
        FillingLiteral(rule[0], rule[1..], name[1..], fills);
        MatchOfFilling(rule[1..], name[1..], fills);
      }
    }
  }

  /** The regex text of a wildcard accepts a name exactly when the stars of the rule can be filled
      with newline-free strings; all other characters of the rule stand for themselves. */
  lemma WildcardMeaning(engine: Engine, rule: string, name: string)
    ensures engine.Compiles(WildcardRulePattern(rule))
    ensures engine.MatchString(WildcardRulePattern(rule), name)
      <==> exists fills :: IsFilling(rule, name, fills) && forall f :: f in fills ==> NewlineFree(f)
  {
    PatternParses(rule);
    if MatchTokens(TokensOf(rule), name) {
      var fills := FillingOfMatch(rule, name);
    }
    if fills :| IsFilling(rule, name, fills) && forall f :: f in fills ==> NewlineFree(f) {
      MatchOfFilling(rule, name, fills);
    }
  }

  lemma {:induction false} FillsAreParts(literals: seq<string>, fills: seq<string>, c: char)
    requires |literals| == |fills| + 1
    requires c !in Weave(literals, fills)
    ensures forall f :: f in fills ==> c !in f
  {
    if fills != [] {
      var rest := Weave(literals[1..], fills[1..]);
      assert Weave(literals, fills) == literals[0] + (fills[0] + rest);
      FillsAreParts(literals[1..], fills[1..], c);
    }
  }

  /** On newline-free names the compiled wildcard is the glob. */
  lemma WildcardIsGlob(engine: Engine, rule: string, name: string)
    requires NewlineFree(name)
    ensures engine.MatchString(WildcardRulePattern(rule), name) <==> Glob(rule, name)
  {
    WildcardMeaning(engine, rule, name);
    if fills :| IsFilling(rule, name, fills) {
      FillsAreParts(Split(rule, "*"), fills, '\n');
    }
  }

  lemma LoneStarFilling(name: string, fills: seq<string>)
    ensures IsFilling("*", name, fills) <==> fills == [name]
  {
    SplitCut("", "*");
    assert "*" + "" == "*" && Split("", "*") == [""];
    assert Split("*", "*") == ["", ""];
    if |fills| == 1 {
      assert fills == [fills[0]] && ["", ""][1..] == [""] && fills[1..] == [];
      assert Weave([""], []) == "";
      assert Weave(["", ""], fills) == fills[0];
    }
  }

  /** The restriction is needed: the star of a glob also stands for a newline. */
  lemma NewlineNotMatched(engine: Engine)
    ensures Glob("*", "\n") && !engine.MatchString(WildcardRulePattern("*"), "\n")
  {
    hide Split, Weave, IsFilling, WildcardRulePattern;
    WildcardMeaning(engine, "*", "\n");
    forall fills ensures IsFilling("*", "\n", fills) <==> fills == ["\n"] {
      LoneStarFilling("\n", fills);
    }
    assert IsFilling("*", "\n", ["\n"]);
    assert "\n" in ["\n"] && !NewlineFree("\n");
  }

  // ---- compiling and matching a rule ----

  /** (regex, error) of compileDomainRule */
  datatype CompileResult = NotAPattern | Invalid | Compiled(text: string)

  function CompileDomainRule(engine: Engine, rule: string): CompileResult {
    var r := Normalize(rule);
    if !IsPatternRule(r) then NotAPattern
    else
      var text := if IsRegexRule(r) then RegexRulePattern(r) else WildcardRulePattern(r);
      if engine.Compiles(text) then Compiled(text) else Invalid
  }

  function CleanName(name: string): string {
    Lower(TrimDot(TrimSpace(name)))
  }

  /** DNSLeaf.domainRuleMatches without its cache: an invalid pattern matches nothing. */
  predicate RuleMatches(engine: Engine, rule: string, name: string) {
    var r, n := Normalize(rule), CleanName(name);
    if r == "" || n == "" then false
    else if !IsPatternRule(r) then r == n
    else match CompileDomainRule(engine, r)
      case Compiled(text) => engine.MatchString(text, n)
      case _ => false
  }

  // ---- what a rule means ----

  lemma {:induction false} TrimmedEdges(s: string)
    ensures TrimSpace(s) == "" || (!IsSpace(TrimSpace(s)[0]) && !IsSpace(TrimSpace(s)[|TrimSpace(s)| - 1]))
  {
    TrimLeftEdge(s);
    TrimRightEdges(TrimLeft(s));
  }

  lemma {:induction false} TrimLeftEdge(s: string)
    ensures TrimLeft(s) == "" || !IsSpace(TrimLeft(s)[0])
  {
    if s != [] && IsSpace(s[0]) {
      TrimLeftEdge(s[1..]);
    }
  }

  lemma {:induction false} TrimRightEdges(s: string)
    requires s == "" || !IsSpace(s[0])
    ensures TrimRight(s) == "" || (!IsSpace(TrimRight(s)[0]) && !IsSpace(TrimRight(s)[|TrimRight(s)| - 1]))
  {
    if s != [] && IsSpace(s[|s| - 1]) {
      TrimRightEdges(s[..|s| - 1]);
    }
  }

  /** A rule written as a regex: "regex:" and the text, or the text between slashes. */
  predicate IsWritten(rule: string, text: string) {
    rule == "regex:" + text || (text != "" && rule == "/" + text + "/")
  }

  lemma IsRegexIff(rule: string)
    ensures IsRegexRule(rule) <==> exists text :: IsWritten(rule, text)
  {
    if "regex:" <= rule {
      assert rule == "regex:" + rule[6..];
      assert IsWritten(rule, rule[6..]);
    } else if IsRegexRule(rule) {
      assert rule == "/" + rule[1..|rule| - 1] + "/";
      assert IsWritten(rule, rule[1..|rule| - 1]);
    }
  }

  /** A rule is trimmed and lower-cased; then a regex stays as it is, and any other rule loses one dot at its end. */
  lemma NormalizeMeans(rule: string)
    ensures var r := Lower(TrimSpace(rule));
      && (forall text :: IsWritten(r, text) ==> Normalize(rule) == r)
      && ((forall text :: !IsWritten(r, text)) ==>
            && (forall host :: r == host + "." ==> Normalize(rule) == host)
            && (r == "" || r[|r| - 1] != '.' ==> Normalize(rule) == r))
  {
    var r := Lower(TrimSpace(rule));
    IsRegexIff(r);
    if forall text :: !IsWritten(r, text) {
      forall host | r == host + "." ensures Normalize(rule) == host {
        assert r[|host|..] == "." && r[..|host|] == host;
      }
      if r != "" {
        assert r[|r| - 1..] == [r[|r| - 1]];
      }
    }
  }

  lemma RegexIsNormal(rule: string)
    requires IsRegexRule(Normalize(rule))
    ensures Normalize(Normalize(rule)) == Normalize(rule)
  {
    var t, r := Lower(TrimSpace(rule)), Normalize(rule);
    TrimmedEdges(rule);
    if t == "" || IsRegexRule(t) {
      assert r == t;
    } else {
      assert r == TrimDot(t) && r <= t;
      assert !("regex:" <= r);
      assert r[|r| - 1] == '/';
    }
    assert !IsSpace(r[0]) && !IsSpace(r[|r| - 1]);
    TrimmedHasNoEdgeSpace(r);
    hide TrimSpace;
    assert forall i :: 0 <= i < |r| ==> r[i] == t[i] && Lower(t)[i] == t[i];
    assert Lower(r) == r;
  }

  lemma {:induction false} TrimLeftKeepsStar(s: string)
    ensures '*' in TrimLeft(s) <==> '*' in s
  {
    if s != [] && IsSpace(s[0]) {
      assert s == [s[0]] + s[1..];
      TrimLeftKeepsStar(s[1..]);
    }
  }

  lemma {:induction false} TrimRightKeepsStar(s: string)
    ensures '*' in TrimRight(s) <==> '*' in s
  {
    if s != [] && IsSpace(s[|s| - 1]) {
      assert s == s[..|s| - 1] + [s[|s| - 1]];
      TrimRightKeepsStar(s[..|s| - 1]);
    }
  }

  lemma StarStays(rule: string)
    requires '*' in rule
    ensures '*' in Normalize(rule)
  {
    hide TrimLeft, TrimRight, IsRegexRule;
    TrimLeftKeepsStar(rule);
    TrimRightKeepsStar(TrimLeft(rule));
    var t := TrimSpace(rule);
    var i :| 0 <= i < |t| && t[i] == '*';
    assert Lower(t)[i] == '*';
    if HasSuffix(Lower(t), ".") {
      assert Lower(t)[|t| - 1..] == ".";
      assert Lower(t)[|t| - 1] == '.';
      assert TrimDot(Lower(t))[i] == '*';
    }
  }

  lemma WrittenText(rule: string, text: string)
    requires IsWritten(rule, text)
    ensures IsRegexRule(rule)
    ensures RegexRulePattern(rule) == if rule == "regex:" + text then TrimSpace(text) else text
  {
    hide TrimSpace;
    if rule == "regex:" + text {
      assert rule[6..] == text;
    } else {
      assert rule[0] == '/' && !("regex:" <= rule);
      assert rule[1..|rule| - 1] == text;
    }
  }

  lemma RuleIsItself(engine: Engine, rule: string, name: string)
    requires var r := Normalize(rule); '*' !in r && forall t :: !IsWritten(r, t)
    ensures RuleMatches(engine, rule, name) <==> CleanName(name) != "" && CleanName(name) == Normalize(rule)
  {
    hide Normalize, CleanName, CompileDomainRule, IsWritten;
    IsRegexIff(Normalize(rule));
  }

  /** Nothing matches an empty rule or name. A rule without a star, not written as a regex, matches just the name it
      is. Any other is normalised a second time: then a regex matches if its text compiles and the engine finds it,
      and a wildcard if its stars can be filled. The name is trimmed, lower-cased, and loses one dot. */
  lemma RuleMeaning(engine: Engine, rule: string, name: string, text: string)
    ensures var r, n := Normalize(rule), Lower(TrimDot(TrimSpace(name)));
      var p, matches := Normalize(r), RuleMatches(engine, rule, name);
      var pattern := '*' in r || exists t :: IsWritten(r, t);
      && (r == "" || n == "" ==> !matches)
      && (!pattern ==> (matches <==> n != "" && n == r))
      && (n != "" && pattern && p == "regex:" + text ==>
            (matches <==> engine.Compiles(TrimSpace(text)) && engine.MatchString(TrimSpace(text), n)))
      && (n != "" && pattern && text != "" && p == "/" + text + "/" ==>
            (matches <==> engine.Compiles(text) && engine.MatchString(text, n)))
      && (n != "" && pattern && (forall t :: !IsWritten(p, t)) ==>
            (matches <==> exists fills :: IsFilling(p, n, fills) && forall f :: f in fills ==> NewlineFree(f)))
  {
    hide Normalize, TrimSpace, TrimDot, WildcardRulePattern, Engine.MatchString, Engine.Compiles, RegexRulePattern,
         IsWritten, IsFilling;
    var r, n := Normalize(rule), CleanName(name);
    var p := Normalize(r);
    IsRegexIff(r);
    IsRegexIff(p);
    if '*' in r {
      StarStays(r);
    }
    if IsRegexRule(r) {
      RegexIsNormal(rule);
    }
    if IsWritten(p, text) {
      WrittenText(p, text);
    }
    WildcardMeaning(engine, p, n);
    WrittenAsRegex(text);
    if text != "" {
      WrittenInSlashes(text);
    }
  }

  lemma WrittenAsRegex(text: string)
    ensures IsWritten("regex:" + text, text)
  {
  }

  lemma WrittenInSlashes(text: string)
    requires text != ""
    ensures IsWritten("/" + text + "/", text)
  {
  }
}
