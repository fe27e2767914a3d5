/** What a parse means in terms of the token sequence.

    A successful parse is characterised exactly: the groups are well formed, the consumed
    tokens spell their lines one by one (directive, colon, value), and parsing stopped at a
    token that can neither continue the last group nor start a new one. Errors are
    characterised too: they point at a real token, or come from text that ends mid-line. */
module ParserProperties {
  import opened Tokenizer
  import opened Parser
  import TokenizerProperties

  /** One `directive: value` line as the tokens spell it. */
  datatype Line = Line(directive: TokenType, value: string)

  /** The keyword each rule kind is read from. */
  function Directive(kind: RuleKind): (t: TokenType)
    ensures IsRuleType(t)
  {
    match kind
    case AllowRule => Allow
    case DisallowRule => Disallow
    case CrawlDelayRule => CrawlDelay
    case SitemapRule => Sitemap
  }

  function AgentLines(agents: seq<string>): seq<Line> {
    seq(|agents|, k requires 0 <= k < |agents| => Line(UserAgent, agents[k]))
  }

  function RuleLines(rules: seq<Rule>): seq<Line> {
    seq(|rules|, k requires 0 <= k < |rules| => Line(Directive(rules[k].kind), rules[k].value))
  }

  function ConfigLines(config: Config): seq<Line> {
    AgentLines(config.userAgents) + RuleLines(config.rules)
  }

  function BodyLines(body: seq<Config>): seq<Line> {
    if body == [] then [] else ConfigLines(body[0]) + BodyLines(body[1..])
  }

  /** The three tokens from `p` on are the line's directive, a colon and its value. */
  ghost predicate SpellsLine(toks: seq<Token>, p: nat, line: Line) {
    && p + 3 <= |toks|
    && toks[p].tokenType == line.directive
    && toks[p + 1].tokenType == Colon
    && toks[p + 2].tokenType == Value
    && toks[p + 2].value == line.value
  }

  /** The tokens from `i` on spell `lines`, three tokens per line. */
  ghost predicate Spells(toks: seq<Token>, i: nat, lines: seq<Line>) {
    && i + 3 * |lines| <= |toks|
    && forall k :: 0 <= k < |lines| ==> SpellsLine(toks, i + 3 * k, lines[k])
  }

  /** Every group names at least one user agent, and every group but the last has a rule
      (a group without rules swallows the user agents that follow it). */
  ghost predicate Canonical(body: seq<Config>) {
    && (forall k :: 0 <= k < |body| ==> |body[k].userAgents| > 0)
    && (forall k :: 0 <= k < |body| - 1 ==> |body[k].rules| > 0)
  }

  /** The token at `n`, if any, ends the group list: it is not a user agent, and once a group
      has been read it is not a rule either. */
  ghost predicate StopsAt(toks: seq<Token>, n: nat, body: seq<Config>) {
    || n == |toks|
    || (n < |toks| && toks[n].tokenType != UserAgent && (body == [] || !IsRuleType(toks[n].tokenType)))
  }

  // ---------------------------------------------------------------------------
  // Spelling sequences of lines

  lemma SpellsAppend(toks: seq<Token>, i: nat, a: seq<Line>, b: seq<Line>)
    ensures Spells(toks, i, a + b) <==> Spells(toks, i, a) && Spells(toks, i + 3 * |a|, b)
  {
    if Spells(toks, i, a) && Spells(toks, i + 3 * |a|, b) {
      forall k | 0 <= k < |a + b| ensures SpellsLine(toks, i + 3 * k, (a + b)[k]) {
        if k >= |a| {
          assert (a + b)[k] == b[k - |a|];
          assert i + 3 * k == (i + 3 * |a|) + 3 * (k - |a|);
        }
      }
    }
    if Spells(toks, i, a + b) {
      forall k | 0 <= k < |a| ensures SpellsLine(toks, i + 3 * k, a[k]) {
        assert (a + b)[|a| - |a| + k] == a[k];
      }
      forall k | 0 <= k < |b| ensures SpellsLine(toks, (i + 3 * |a|) + 3 * k, b[k]) {
        assert (a + b)[|a| + k] == b[k];
        assert (i + 3 * |a|) + 3 * k == i + 3 * (|a| + k);
      }
    }
  }

  lemma SpellsOne(toks: seq<Token>, i: nat, line: Line, rest: seq<Line>)
    ensures Spells(toks, i, [line] + rest) <==> SpellsLine(toks, i, line) && Spells(toks, i + 3, rest)
  {
    SpellsAppend(toks, i, [line], rest);
    assert [line][0] == line;
  }

  // ---------------------------------------------------------------------------
  // Each grammar level, characterised

  /** `eat(directive)`, `eat(":")`, `eat("VALUE")` succeed exactly on a spelled line. */
  lemma LineAtSpells(toks: seq<Token>, i: nat, directive: TokenType, value: string, n: nat)
    requires i <= |toks|
    ensures LineAt(toks, i, directive) == Ok(Parsed(value, n)) <==>
      n == i + 3 && SpellsLine(toks, i, Line(directive, value))
  {
  }

  /** `createRule` succeeds exactly on a spelled rule line, with the kind of its keyword. */
  lemma RuleAtSpells(toks: seq<Token>, i: nat, rule: Rule, n: nat)
    requires i <= |toks|
    ensures RuleAt(toks, i) == Ok(Parsed(rule, n)) <==>
      n == i + 3 && SpellsLine(toks, i, Line(Directive(rule.kind), rule.value))
  {
    if i < |toks| {
      var t := toks[i].tokenType;
      LineAtSpells(toks, i, t, rule.value, n);
    }
  }

  lemma {:induction false} UserAgentsSpell(toks: seq<Token>, i: nat, agents: seq<string>, n: nat)
    requires i <= |toks|
    decreases agents
    ensures UserAgentsAt(toks, i) == Ok(Parsed(agents, n)) <==>
      && Spells(toks, i, AgentLines(agents))
      && n == i + 3 * |agents|
      && (n == |toks| || toks[n].tokenType != UserAgent)
  {
    if agents == [] {
      assert AgentLines(agents) == [];
    } else {
      var line := Line(UserAgent, agents[0]);
      assert AgentLines(agents) == [line] + AgentLines(agents[1..]);
      SpellsOne(toks, i, line, AgentLines(agents[1..]));
      assert agents == [agents[0]] + agents[1..];
      LineAtSpells(toks, i, UserAgent, agents[0], i + 3);
      if i + 3 <= |toks| {
        UserAgentsSpell(toks, i + 3, agents[1..], n);
      }
    }
  }

  lemma {:induction false} RulesSpell(toks: seq<Token>, i: nat, rules: seq<Rule>, n: nat)
    requires i <= |toks|
    decreases rules
    ensures RulesAt(toks, i) == Ok(Parsed(rules, n)) <==>
      && Spells(toks, i, RuleLines(rules))
      && n == i + 3 * |rules|
      && (n == |toks| || !IsRuleType(toks[n].tokenType))
  {
    if rules == [] {
      assert RuleLines(rules) == [];
    } else {
      var line := Line(Directive(rules[0].kind), rules[0].value);
      assert RuleLines(rules) == [line] + RuleLines(rules[1..]);
      SpellsOne(toks, i, line, RuleLines(rules[1..]));
      assert rules == [rules[0]] + rules[1..];
      RuleAtSpells(toks, i, rules[0], i + 3);
      if i + 3 <= |toks| {
        RulesSpell(toks, i + 3, rules[1..], n);
      }
    }
  }

  /** `createConfig` reads its user agents, then its rules from where they end. */
  lemma ConfigAtSplit(toks: seq<Token>, i: nat, config: Config, n: nat)
    requires i <= |toks|
    ensures ConfigAt(toks, i) == Ok(Parsed(config, n)) <==>
      var m := i + 3 * |config.userAgents|;
      && m <= |toks|
      && UserAgentsAt(toks, i) == Ok(Parsed(config.userAgents, m))
      && RulesAt(toks, m) == Ok(Parsed(config.rules, n))
  {
    var m := i + 3 * |config.userAgents|;
    if ConfigAt(toks, i) == Ok(Parsed(config, n)) {
      ConfigAtParts(toks, i, config, n);
    }
    if m <= |toks| && UserAgentsAt(toks, i) == Ok(Parsed(config.userAgents, m))
      && RulesAt(toks, m) == Ok(Parsed(config.rules, n))
    {
      assert ConfigAt(toks, i) == Ok(Parsed(Config(config.userAgents, config.rules), n));
    }
  }

  lemma ConfigAtParts(toks: seq<Token>, i: nat, config: Config, n: nat)
    requires i <= |toks| && ConfigAt(toks, i) == Ok(Parsed(config, n))
    ensures var m := i + 3 * |config.userAgents|;
      && m <= |toks|
      && UserAgentsAt(toks, i) == Ok(Parsed(config.userAgents, m))
      && RulesAt(toks, m) == Ok(Parsed(config.rules, n))
  {
  }

  /** `createConfig` succeeds exactly when the tokens spell the group's lines and the token
      after them is not a rule, nor a user agent when the group has no rules. */
  lemma ConfigSpells(toks: seq<Token>, i: nat, config: Config, n: nat)
    requires i <= |toks|
    ensures ConfigAt(toks, i) == Ok(Parsed(config, n)) <==> SpellsGroup(toks, i, config, n)
  {
    if ConfigAt(toks, i) == Ok(Parsed(config, n)) {
      ConfigSpellsSound(toks, i, config, n);
    }
    if SpellsGroup(toks, i, config, n) {
      ConfigSpellsComplete(toks, i, config, n);
    }
  }

  /** The tokens from `i` spell the group's lines up to `n`, and the token at `n` can continue
      neither its rules nor, when it has none, its user agents. */
  ghost predicate SpellsGroup(toks: seq<Token>, i: nat, config: Config, n: nat) {
    && Spells(toks, i, ConfigLines(config))
    && n == i + 3 * |ConfigLines(config)|
    && (config.rules == [] ==> n == |toks| || toks[n].tokenType != UserAgent)
    && (n == |toks| || !IsRuleType(toks[n].tokenType))
  }

  lemma ConfigSpellsSound(toks: seq<Token>, i: nat, config: Config, n: nat)
    requires i <= |toks| && ConfigAt(toks, i) == Ok(Parsed(config, n))
    ensures SpellsGroup(toks, i, config, n)
  {
    var agents := AgentLines(config.userAgents);
    var rules := RuleLines(config.rules);
    var m := i + 3 * |config.userAgents|;
    ConfigAtParts(toks, i, config, n);
    assert Spells(toks, i, agents) && (m == |toks| || toks[m].tokenType != UserAgent) by {
      UserAgentsSpell(toks, i, config.userAgents, m);
    }
    assert Spells(toks, m, rules) && n == m + 3 * |rules| && (n == |toks| || !IsRuleType(toks[n].tokenType)) by {
      RulesSpell(toks, m, config.rules, n);
    }
    SpellsAppend(toks, i, agents, rules);
  }

  lemma ConfigSpellsComplete(toks: seq<Token>, i: nat, config: Config, n: nat)
    requires i <= |toks| && SpellsGroup(toks, i, config, n)
    ensures ConfigAt(toks, i) == Ok(Parsed(config, n))
  {
    var agents := AgentLines(config.userAgents);
    var rules := RuleLines(config.rules);
    var m := i + 3 * |config.userAgents|;
    SpellsAppend(toks, i, agents, rules);
    assert m <= |toks| && Spells(toks, m, rules);
    if config.rules != [] {
      RuleStartsNoGroup(toks, m, config.rules);
    }
    UserAgentsSpell(toks, i, config.userAgents, m);
    RulesSpell(toks, m, config.rules, n);
    ConfigAtSplit(toks, i, config, n);
  }

  /** A spelled rule line does not begin with a user agent. */
  lemma RuleStartsNoGroup(toks: seq<Token>, m: nat, rules: seq<Rule>)
    requires rules != [] && Spells(toks, m, RuleLines(rules))
    ensures m < |toks| && IsRuleType(toks[m].tokenType) && toks[m].tokenType != UserAgent
  {
    assert SpellsLine(toks, m + 3 * 0, RuleLines(rules)[0]);
  }

  /** `createConfigList` read its first group at a user agent, then the other groups from
      where that one ends. */
  lemma ConfigsAtFirst(toks: seq<Token>, i: nat, body: seq<Config>, n: nat)
    requires i <= |toks| && body != [] && ConfigsAt(toks, i) == Ok(Parsed(body, n))
    ensures var m := i + 3 * |ConfigLines(body[0])|;
      && i < |toks| && toks[i].tokenType == UserAgent
      && m <= |toks|
      && ConfigAt(toks, i) == Ok(Parsed(body[0], m))
      && ConfigsAt(toks, m) == Ok(Parsed(body[1..], n))
  {
    assert i < |toks| && toks[i].tokenType == UserAgent;
    var c := ConfigAt(toks, i).value;
    var cs := ConfigsAt(toks, c.next).value;
    assert [c.value] + cs.value == body;
    assert c.value == body[0] && cs.value == body[1..];
    assert |ConfigLines(body[0])| == |body[0].userAgents| + |body[0].rules|;
  }

  /** Conversely, a group at a user agent followed by more groups is read as one list. */
  lemma ConfigsAtCons(toks: seq<Token>, i: nat, body: seq<Config>, m: nat, n: nat)
    requires i < |toks| && toks[i].tokenType == UserAgent && body != []
    requires ConfigAt(toks, i) == Ok(Parsed(body[0], m))
    requires m <= |toks| && ConfigsAt(toks, m) == Ok(Parsed(body[1..], n))
    ensures ConfigsAt(toks, i) == Ok(Parsed(body, n))
  {
    assert ConfigsAt(toks, i) == Ok(Parsed([body[0]] + body[1..], n));
    assert [body[0]] + body[1..] == body;
  }

  lemma CanonicalCons(body: seq<Config>)
    requires body != []
    ensures Canonical(body) <==>
      && |body[0].userAgents| > 0
      && (|body| > 1 ==> |body[0].rules| > 0)
      && Canonical(body[1..])
  {
    var rest := body[1..];
    if |body[0].userAgents| > 0 && (|body| > 1 ==> |body[0].rules| > 0) && Canonical(rest) {
      forall k | 0 <= k < |body| ensures |body[k].userAgents| > 0 {
        if k > 0 { assert body[k] == rest[k - 1]; }
      }
      forall k | 0 <= k < |body| - 1 ensures |body[k].rules| > 0 {
        if k > 0 { assert body[k] == rest[k - 1]; }
      }
    }
    if Canonical(body) {
      forall k | 0 <= k < |rest| ensures |rest[k].userAgents| > 0 {
        assert rest[k] == body[k + 1];
      }
      forall k | 0 <= k < |rest| - 1 ensures |rest[k].rules| > 0 {
        assert rest[k] == body[k + 1];
      }
    }
  }

  /** A spelled well-formed group list starts with a user agent. */
  lemma GroupsStartWithAgent(toks: seq<Token>, i: nat, body: seq<Config>)
    requires body != [] && Canonical(body) && Spells(toks, i, BodyLines(body))
    ensures i < |toks| && toks[i].tokenType == UserAgent
  {
    assert |body[0].userAgents| > 0;
    assert BodyLines(body)[0] == Line(UserAgent, body[0].userAgents[0]);
    assert SpellsLine(toks, i + 3 * 0, BodyLines(body)[0]);
  }

  /** The inductive step of `ConfigsSound`: a group read at `i` in front of a sound rest. */
  lemma ConfigsSoundStep(toks: seq<Token>, i: nat, config: Config, rest: seq<Config>, m: nat, n: nat)
    requires i < |toks| && toks[i].tokenType == UserAgent
    requires m <= |toks| && ConfigAt(toks, i) == Ok(Parsed(config, m))
    requires Canonical(rest) && Spells(toks, m, BodyLines(rest)) && n == m + 3 * |BodyLines(rest)|
    requires StopsAt(toks, n, rest)
    ensures Canonical([config] + rest)
    ensures Spells(toks, i, BodyLines([config] + rest)) && n == i + 3 * |BodyLines([config] + rest)|
    ensures StopsAt(toks, n, [config] + rest)
  {
    var body := [config] + rest;
    assert body[0] == config && body[1..] == rest;
    assert Spells(toks, i, ConfigLines(config)) && m == i + 3 * |ConfigLines(config)|
      && (config.rules == [] ==> m == |toks| || toks[m].tokenType != UserAgent)
      && (m == |toks| || !IsRuleType(toks[m].tokenType)) by {
      ConfigSpells(toks, i, config, m);
    }
    assert |config.userAgents| > 0 by {
      ConfigAtSplit(toks, i, config, m);
    }
    assert Canonical(body) by {
      if rest != [] {
        GroupsStartWithAgent(toks, m, rest);
      }
      CanonicalCons(body);
    }
    assert Spells(toks, i, BodyLines(body)) && n == i + 3 * |BodyLines(body)| by {
      assert BodyLines(body) == ConfigLines(config) + BodyLines(rest);
      SpellsAppend(toks, i, ConfigLines(config), BodyLines(rest));
    }
  }

  /** Soundness half of `ConfigsSpell`. */
  lemma {:induction false} ConfigsSound(toks: seq<Token>, i: nat, body: seq<Config>, n: nat)
    requires i <= |toks| && ConfigsAt(toks, i) == Ok(Parsed(body, n))
    decreases body
    ensures Canonical(body)
    ensures Spells(toks, i, BodyLines(body)) && n == i + 3 * |BodyLines(body)|
    ensures StopsAt(toks, n, body)
  {
    if body != [] {
      var config, rest := body[0], body[1..];
      var m := i + 3 * |ConfigLines(config)|;
      assert i < |toks| && toks[i].tokenType == UserAgent
        && ConfigAt(toks, i) == Ok(Parsed(config, m)) && m <= |toks|
        && ConfigsAt(toks, m) == Ok(Parsed(rest, n)) by {
        ConfigsAtFirst(toks, i, body, n);
      }
      ConfigsSound(toks, m, rest, n);
      ConfigsSoundStep(toks, i, config, rest, m, n);
      assert [config] + rest == body;
    }
  }

  /** Completeness half of `ConfigsSpell`. */
  lemma {:induction false} ConfigsComplete(toks: seq<Token>, i: nat, body: seq<Config>, n: nat)
    requires i <= |toks| && Canonical(body)
    requires Spells(toks, i, BodyLines(body)) && n == i + 3 * |BodyLines(body)|
    requires StopsAt(toks, n, body)
    decreases body
    ensures ConfigsAt(toks, i) == Ok(Parsed(body, n))
  {
    if body != [] {
      var config, rest := body[0], body[1..];
      var m := i + 3 * |ConfigLines(config)|;
      assert i < |toks| && toks[i].tokenType == UserAgent by {
        GroupsStartWithAgent(toks, i, body);
      }
      assert BodyLines(body) == ConfigLines(config) + BodyLines(rest);
      assert Spells(toks, i, ConfigLines(config)) && Spells(toks, m, BodyLines(rest)) by {
        SpellsAppend(toks, i, ConfigLines(config), BodyLines(rest));
      }
      assert (|body| > 1 ==> |config.rules| > 0) && Canonical(rest) by {
        CanonicalCons(body);
      }
      assert ConfigAt(toks, i) == Ok(Parsed(config, m)) by {
        if rest != [] {
          GroupsStartWithAgent(toks, m, rest);
        }
        ConfigSpellsComplete(toks, i, config, m);
      }
      ConfigsComplete(toks, m, rest, n);
      ConfigsAtCons(toks, i, body, m, n);
    }
  }

  /** `createConfigList`, characterised: see the module comment. */
  lemma ConfigsSpell(toks: seq<Token>, i: nat, body: seq<Config>, n: nat)
    requires i <= |toks|
    ensures ConfigsAt(toks, i) == Ok(Parsed(body, n)) <==>
      && Canonical(body)
      && Spells(toks, i, BodyLines(body))
      && n == i + 3 * |BodyLines(body)|
      && StopsAt(toks, n, body)
  {
    if ConfigsAt(toks, i) == Ok(Parsed(body, n)) {
      ConfigsSound(toks, i, body, n);
    }
    if Canonical(body) && Spells(toks, i, BodyLines(body)) && n == i + 3 * |BodyLines(body)| && StopsAt(toks, n, body) {
      ConfigsComplete(toks, i, body, n);
    }
  }

  /** A parse succeeds with `robots` exactly when the tokens spell its lines from the first
      token on, its groups are well formed, and the token after them ends the group list. */
  lemma ParseCharacterised(toks: seq<Token>, robots: RobotsTxt)
    ensures ParseTokens(toks) == Ok(robots) <==>
      && Canonical(robots.body)
      && Spells(toks, 0, BodyLines(robots.body))
      && StopsAt(toks, 3 * |BodyLines(robots.body)|, robots.body)
  {
    ConfigsSpell(toks, 0, robots.body, 3 * |BodyLines(robots.body)|);
    if ParseTokens(toks) == Ok(robots) {
      var r := ConfigsAt(toks, 0);
      ConfigsSpell(toks, 0, robots.body, r.value.next);
    }
  }

  /** Every group of a parsed file names at least one user agent. */
  lemma ParsedGroupsHaveAgents(toks: seq<Token>, robots: RobotsTxt)
    requires ParseTokens(toks) == Ok(robots)
    ensures forall k :: 0 <= k < |robots.body| ==> |robots.body[k].userAgents| > 0
  {
    ParseCharacterised(toks, robots);
  }

  /** In the lines of a list of groups, a user-agent line right after a rule line is the first
      line of a group other than the first: the lines of groups `..g` end just before it.
      (Within a group every user-agent line comes before every rule line.) */
  lemma {:induction false} RuleThenAgentStartsGroup(body: seq<Config>, j: nat) returns (g: nat)
    requires j + 1 < |BodyLines(body)|
    requires IsRuleType(BodyLines(body)[j].directive) && BodyLines(body)[j + 1].directive == UserAgent
    decreases body
    ensures 0 < g < |body| && |BodyLines(body[..g])| == j + 1
  {
    var config, rest := body[0], body[1..];
    var lines := ConfigLines(config);
    assert BodyLines(body) == lines + BodyLines(rest);
    if j + 1 < |lines| {
      assert false;
    } else if j + 1 == |lines| {
      g := 1;
      assert body[..1] == [config] && [config][1..] == [];
      assert BodyLines(body[..1]) == lines + BodyLines([]);
    } else {
      assert BodyLines(rest)[j - |lines|] == BodyLines(body)[j];
      assert BodyLines(rest)[j + 1 - |lines|] == BodyLines(body)[j + 1];
      var h := RuleThenAgentStartsGroup(rest, j - |lines|);
      g := h + 1;
      assert body[..g][0] == config && body[..g][1..] == rest[..h];
      assert BodyLines(body[..g]) == lines + BodyLines(rest[..h]);
    }
  }

  /** A user agent read after a rule opens a new group: the group list splits just before the
      user-agent line, so no rule of one group is followed by user agents of the same group. */
  lemma ParsedAgentAfterRuleStartsGroup(toks: seq<Token>, robots: RobotsTxt, j: nat) returns (g: nat)
    requires ParseTokens(toks) == Ok(robots) && j + 1 < |BodyLines(robots.body)|
    requires 3 * j + 3 < |toks| && IsRuleType(toks[3 * j].tokenType) && toks[3 * j + 3].tokenType == UserAgent
    ensures 0 < g < |robots.body| && 3 * |BodyLines(robots.body[..g])| == 3 * j + 3
  {
    var lines := BodyLines(robots.body);
    ParseCharacterised(toks, robots);
    assert SpellsLine(toks, 0 + 3 * j, lines[j]);
    assert SpellsLine(toks, 0 + 3 * (j + 1), lines[j + 1]);
    g := RuleThenAgentStartsGroup(robots.body, j);
  }

  /** A successful parse consumes three tokens per user agent and per rule. */
  lemma {:induction false} ConsumedTokens(toks: seq<Token>, i: nat)
    requires i <= |toks| && ConfigsAt(toks, i).Ok?
    decreases |toks| - i
    ensures var p := ConfigsAt(toks, i).value; p.next == i + 3 * |BodyLines(p.value)|
  {
    if i < |toks| && toks[i].tokenType == UserAgent {
      var config := ConfigAt(toks, i).value;
      ConsumedTokens(toks, config.next);
      var body := ConfigsAt(toks, i).value.value;
      assert body[1..] == ConfigsAt(toks, config.next).value.value;
      assert |BodyLines(body)| == |ConfigLines(body[0])| + |BodyLines(body[1..])|;
    }
  }

  // ---------------------------------------------------------------------------
  // Errors

  /** An error the parser can report, given where the group list started: a mismatch names
      a colon or a value that was expected and the type and position of a real token; the end
      of input is met only in the middle of a line; and `createRule`'s default never fires. */
  ghost predicate Genuine(toks: seq<Token>, i: nat, e: ParseError) {
    match e
    case UnexpectedEOF =>
      i < |toks| && toks[|toks| - 1].tokenType != Value
    case Expected(expected, found, position) =>
      && (expected == Colon || expected == Value)
      && expected != found
      && exists k :: i <= k < |toks| && toks[k].tokenType == found && toks[k].position == position
    case ExpectedRule(_) => false
  }

  lemma GenuineFrom(toks: seq<Token>, i: nat, j: nat, e: ParseError)
    requires i <= j && Genuine(toks, j, e)
    ensures Genuine(toks, i, e)
  {
    if e.Expected? {
      var k :| j <= k < |toks| && toks[k].tokenType == e.found && toks[k].position == e.position;
      assert i <= k;
    }
  }

  lemma LineErrors(toks: seq<Token>, i: nat, directive: TokenType)
    requires i < |toks| && toks[i].tokenType == directive && directive != Value
    requires LineAt(toks, i, directive).Err?
    ensures Genuine(toks, i, LineAt(toks, i, directive).error)
  {
    var e := LineAt(toks, i, directive).error;
    if i + 1 == |toks| {
      assert e == UnexpectedEOF;
    } else if toks[i + 1].tokenType != Colon {
      assert toks[i + 1].tokenType == e.found;
    } else if i + 2 == |toks| {
      assert e == UnexpectedEOF;
    } else {
      assert toks[i + 2].tokenType == e.found;
    }
  }

  lemma {:induction false} UserAgentsErrors(toks: seq<Token>, i: nat)
    requires i <= |toks| && UserAgentsAt(toks, i).Err?
    decreases |toks| - i
    ensures Genuine(toks, i, UserAgentsAt(toks, i).error)
  {
    var line := LineAt(toks, i, UserAgent);
    if line.Err? {
      LineErrors(toks, i, UserAgent);
    } else {
      UserAgentsErrors(toks, i + 3);
      GenuineFrom(toks, i, i + 3, UserAgentsAt(toks, i).error);
    }
  }

  /** `createRule` only runs on a rule keyword, so its default branch is unreachable. */
  lemma RuleErrors(toks: seq<Token>, i: nat)
    requires i < |toks| && IsRuleType(toks[i].tokenType) && RuleAt(toks, i).Err?
    ensures Genuine(toks, i, RuleAt(toks, i).error)
  {
    LineErrors(toks, i, toks[i].tokenType);
  }

  lemma {:induction false} RulesErrors(toks: seq<Token>, i: nat)
    requires i <= |toks| && RulesAt(toks, i).Err?
    decreases |toks| - i
    ensures Genuine(toks, i, RulesAt(toks, i).error)
  {
    var e := RulesAt(toks, i).error;
    assert i < |toks| && IsRuleType(toks[i].tokenType);
    if RuleAt(toks, i).Err? {
      assert e == RuleAt(toks, i).error;
      RuleErrors(toks, i);
    } else {
      assert RulesAt(toks, i + 3).Err? && e == RulesAt(toks, i + 3).error;
      RulesErrors(toks, i + 3);
      GenuineFrom(toks, i, i + 3, e);
    }
  }

  lemma {:induction false} ConfigsErrors(toks: seq<Token>, i: nat)
    requires i <= |toks| && ConfigsAt(toks, i).Err?
    decreases |toks| - i
    ensures Genuine(toks, i, ConfigsAt(toks, i).error)
  {
    var agents := UserAgentsAt(toks, i);
    if agents.Err? {
      UserAgentsErrors(toks, i);
    } else {
      var m := agents.value.next;
      if RulesAt(toks, m).Err? {
        RulesErrors(toks, m);
        GenuineFrom(toks, i, m, RulesAt(toks, m).error);
      } else {
        var n := RulesAt(toks, m).value.next;
        ConfigsErrors(toks, n);
        GenuineFrom(toks, i, n, ConfigsAt(toks, i).error);
      }
    }
  }

  /** Whatever error `parse` reports is genuine in the sense of `Genuine`. */
  lemma ParseErrors(toks: seq<Token>)
    requires ParseTokens(toks).Err?
    ensures Genuine(toks, 0, ParseTokens(toks).error)
  {
    ConfigsErrors(toks, 0);
  }

  // ---------------------------------------------------------------------------
  // Particular inputs

  /** Text without a token, empty or blank, is an empty file rather than an error. */
  lemma BlankParsesEmpty(txt: string)
    requires Blank(txt, 0, |txt|)
    ensures ParseTokens(Tokens(txt)) == Ok(RobotsTxt([]))
  {
    TokenizerProperties.BlankIffNoTokens(txt);
  }

  /** Parsing stops without an error at a first token that is not a user agent, and
      everything after it is ignored. */
  lemma NoAgentFirstParsesEmpty(toks: seq<Token>)
    requires toks != [] && toks[0].tokenType != UserAgent
    ensures ParseTokens(toks) == Ok(RobotsTxt([]))
  {
  }

  /** `Allow: /` with no group before it gives an empty file. */
  lemma AllowAloneParsesEmpty(txt: string)
    requires txt == "Allow: /"
    ensures ParseTokens(Tokens(txt)) == Ok(RobotsTxt([]))
  {
    assert FoldedAt(KeywordOf(Allow), txt, 0);
    TokenizerProperties.KeywordToken(txt, 0, Allow);
    assert txt[0..][..5] == "Allow";
    TokenizerProperties.TokensFromStep(txt, 0, Token(Allow, "Allow", 0), 5);
    NoAgentFirstParsesEmpty(Tokens(txt));
  }

  /** `User-Agent` alone runs out of tokens where the colon should be. */
  lemma UserAgentAloneIsEOF(txt: string)
    requires txt == "User-Agent"
    ensures ParseTokens(Tokens(txt)) == Err(UnexpectedEOF)
  {
    assert FoldedAt(KeywordOf(UserAgent), txt, 0);
    TokenizerProperties.KeywordToken(txt, 0, UserAgent);
    assert txt[0..][..10] == "User-Agent";
    TokenizerProperties.TokensFromStep(txt, 0, Token(UserAgent, "User-Agent", 0), 10);
    assert Tokens(txt) == [Token(UserAgent, "User-Agent", 0)];
  }

  /** A user agent after a rule opens a second group: the tokens of
      `User-agent: a` `Allow: /` `User-agent: b` `Disallow: /x`. */
  lemma UserAgentAfterRuleStartsGroup(toks: seq<Token>)
    requires |toks| == 12
    requires toks[0].tokenType == UserAgent && toks[3].tokenType == Allow
    requires toks[6].tokenType == UserAgent && toks[9].tokenType == Disallow
    requires forall k :: 0 <= k < 4 ==> toks[3 * k + 1].tokenType == Colon && toks[3 * k + 2].tokenType == Value
    requires toks[2].value == "a" && toks[5].value == "/" && toks[8].value == "b" && toks[11].value == "/x"
    ensures ParseTokens(toks) == Ok(RobotsTxt([
      Config(["a"], [Rule(AllowRule, "/")]),
      Config(["b"], [Rule(DisallowRule, "/x")])]))
  {
    var robots := RobotsTxt([
      Config(["a"], [Rule(AllowRule, "/")]),
      Config(["b"], [Rule(DisallowRule, "/x")])]);
    var lines := BodyLines(robots.body);
    assert lines == [Line(UserAgent, "a"), Line(Allow, "/"), Line(UserAgent, "b"), Line(Disallow, "/x")];
    forall k | 0 <= k < 4 ensures SpellsLine(toks, 3 * k, lines[k]) {
      assert toks[3 * k + 1].tokenType == Colon && toks[3 * k + 2].tokenType == Value;
    }
    ParseCharacterised(toks, robots);
  }
}
