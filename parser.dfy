/** The robots.txt parser: recursive descent over a one-token lookahead.

    Each grammar level appears twice. A function over the token sequence and the index of
    the current token (`UserAgentsAt`, `RulesAt`, `ConfigAt`, ...) says what the level
    yields and where it leaves the lookahead; a method over a `Lookahead` object runs the
    loops of the source and is proved to agree with that function. A thrown error is an
    `Err` result, which every caller passes on untouched. */
module Parser {
  import opened Tokenizer

  datatype RuleKind = AllowRule | DisallowRule | CrawlDelayRule | SitemapRule

  datatype Rule = Rule(kind: RuleKind, value: string)

  /** A group: the user agents it names and the rules that follow them. */
  datatype Config = Config(userAgents: seq<string>, rules: seq<Rule>)

  datatype RobotsTxt = RobotsTxt(body: seq<Config>)

  /** The three errors the parser throws: `current` on an exhausted lookahead, `eat` on a
      token of the wrong type, and the `default` branch of `createRule`. */
  datatype ParseError =
    | UnexpectedEOF
    | Expected(expected: TokenType, found: TokenType, position: nat)
    | ExpectedRule(position: nat)

  datatype Result<+T> = Ok(value: T) | Err(error: ParseError) {
    predicate IsFailure() { Err? }
    function PropagateFailure<U>(): Result<U>
      requires Err?
    {
      Err(error)
    }
    function Extract(): T
      requires Ok?
    {
      value
    }
  }

  /** A value read from the tokens, and the index of the token that is current afterwards. */
  datatype Parsed<+T> = Parsed(value: T, next: nat)

  /** The `ruleTypes` list of `createConfig`: directive keywords other than `user-agent`. */
  predicate IsRuleType(t: TokenType): (b: bool)
    ensures b <==> IsKeywordType(t) && t != UserAgent
  {
    t == Allow || t == Disallow || t == CrawlDelay || t == Sitemap
  }

  // ---------------------------------------------------------------------------
  // What each grammar level reads, as functions of the tokens and the current index
  // (the index `|toks|` stands for the exhausted lookahead, whose `token` is null).

  /** `eat`: the current token if it has type `t`, which then advances the lookahead by one;
      otherwise an error naming what was expected and what was found. */
  function EatAt(toks: seq<Token>, i: nat, t: TokenType): (r: Result<Parsed<Token>>)
    requires i <= |toks|
    ensures r.Ok? <==> i < |toks| && toks[i].tokenType == t
    ensures r.Ok? ==> r.value == Parsed(toks[i], i + 1)
    ensures r.Err? && i < |toks| ==> r.error == Expected(t, toks[i].tokenType, toks[i].position)
    ensures r.Err? && i == |toks| ==> r.error == UnexpectedEOF
  {
    if i == |toks| then Err(UnexpectedEOF)
    else if toks[i].tokenType != t then Err(Expected(t, toks[i].tokenType, toks[i].position))
    else Ok(Parsed(toks[i], i + 1))
  }

  /** The three `eat` calls every line makes: the directive, a colon, a value. The result is
      the value's text. */
  function LineAt(toks: seq<Token>, i: nat, directive: TokenType): (r: Result<Parsed<string>>)
    requires i <= |toks|
    ensures r.Ok? ==> r.value.next == i + 3 <= |toks|
  {
    var keyword :- EatAt(toks, i, directive);
    var colon :- EatAt(toks, keyword.next, Colon);
    var value :- EatAt(toks, colon.next, Value);
    Ok(Parsed(value.value.value, value.next))
  }

  /** The user-agent loop of `createConfig`. */
  function UserAgentsAt(toks: seq<Token>, i: nat): (r: Result<Parsed<seq<string>>>)
    requires i <= |toks|
    decreases |toks| - i
    ensures r.Ok? ==> r.value.next == i + 3 * |r.value.value| <= |toks|
    ensures r.Ok? && i < |toks| && toks[i].tokenType == UserAgent ==> |r.value.value| > 0
  {
    if i < |toks| && toks[i].tokenType == UserAgent then
      var agent :- LineAt(toks, i, UserAgent);
      var agents :- UserAgentsAt(toks, agent.next);
      Ok(Parsed([agent.value] + agents.value, agents.next))
    else
      Ok(Parsed([], i))
  }

  /** A line of the given directive, read as a rule of the given kind. */
  function RuleLineAt(toks: seq<Token>, i: nat, directive: TokenType, kind: RuleKind): (r: Result<Parsed<Rule>>)
    requires i <= |toks|
    ensures r.Ok? ==> r.value.next == i + 3 <= |toks| && r.value.value.kind == kind
  {
    var line :- LineAt(toks, i, directive);
    Ok(Parsed(Rule(kind, line.value), line.next))
  }

  /** `createRule`: dispatch on the current token's type. */
  function RuleAt(toks: seq<Token>, i: nat): (r: Result<Parsed<Rule>>)
    requires i <= |toks|
    ensures r.Ok? ==> r.value.next == i + 3 <= |toks|
  {
    if i == |toks| then Err(UnexpectedEOF)
    else
      match toks[i].tokenType
      case Allow => RuleLineAt(toks, i, Allow, AllowRule)
      case Disallow => RuleLineAt(toks, i, Disallow, DisallowRule)
      case CrawlDelay => RuleLineAt(toks, i, CrawlDelay, CrawlDelayRule)
      case Sitemap => RuleLineAt(toks, i, Sitemap, SitemapRule)
      case _ => Err(ExpectedRule(toks[i].position))
  }

  /** The rule loop of `createConfig`. */
  function RulesAt(toks: seq<Token>, i: nat): (r: Result<Parsed<seq<Rule>>>)
    requires i <= |toks|
    decreases |toks| - i
    ensures r.Ok? ==> r.value.next == i + 3 * |r.value.value| <= |toks|
  {
    if i < |toks| && IsRuleType(toks[i].tokenType) then
      var rule :- RuleAt(toks, i);
      var rules :- RulesAt(toks, rule.next);
      Ok(Parsed([rule.value] + rules.value, rules.next))
    else
      Ok(Parsed([], i))
  }

  /** `createConfig`: the user agents, then the rules. */
  function ConfigAt(toks: seq<Token>, i: nat): (r: Result<Parsed<Config>>)
    requires i <= |toks|
    ensures r.Ok? ==> r.value.next == i + 3 * (|r.value.value.userAgents| + |r.value.value.rules|) <= |toks|
  {
    var agents :- UserAgentsAt(toks, i);
    var rules :- RulesAt(toks, agents.next);
    Ok(Parsed(Config(agents.value, rules.value), rules.next))
  }

  /** `createConfigList`: groups for as long as the current token is a user agent. */
  function ConfigsAt(toks: seq<Token>, i: nat): (r: Result<Parsed<seq<Config>>>)
    requires i <= |toks|
    decreases |toks| - i
    ensures r.Ok? ==> i <= r.value.next <= |toks|
  {
    if i < |toks| && toks[i].tokenType == UserAgent then
      var config :- ConfigAt(toks, i);
      var configs :- ConfigsAt(toks, config.next);
      Ok(Parsed([config.value] + configs.value, configs.next))
    else
      Ok(Parsed([], i))
  }

  /** `createRobotsTxt` */
  function RobotsTxtAt(toks: seq<Token>, i: nat): (r: Result<Parsed<RobotsTxt>>)
    requires i <= |toks|
    ensures r.Ok? ==> i <= r.value.next <= |toks|
  {
    var body :- ConfigsAt(toks, i);
    Ok(Parsed(RobotsTxt(body.value), body.next))
  }

  /** What `parse` returns for a token sequence: whatever follows the last group is ignored.
      Without tokens the lookahead is primed to null, which is an empty file, not an error. */
  function ParseTokens(toks: seq<Token>): (r: Result<RobotsTxt>)
    ensures toks == [] ==> r == Ok(RobotsTxt([]))
  {
    var robots :- RobotsTxtAt(toks, 0);
    Ok(robots.value)
  }

  /** `r` is what a method returned and `index` where it left the lookahead, `spec` what the
      function of that grammar level reads: the values agree, and on success so does the index. */
  ghost predicate Produced<T>(r: Result<T>, spec: Result<Parsed<T>>, index: nat) {
    match spec
    case Ok(p) => r == Ok(p.value) && index == p.next
    case Err(e) => r == Err(e)
  }

  /** A loop that has already collected `done` reads `done` followed by what the rest yields. */
  function Prepend<T>(done: seq<T>, rest: Result<Parsed<seq<T>>>): Result<Parsed<seq<T>>> {
    match rest
    case Ok(p) => Ok(Parsed(done + p.value, p.next))
    case Err(e) => Err(e)
  }

  // ---------------------------------------------------------------------------
  // The lookahead and the parsing methods

  /** `createLookahead`: a buffered current token over the tokens of the text. `index` is the
      position of the buffered token in `tokens`; `index == |tokens|` is the null token of an
      exhausted iterator. */
  class Lookahead {
    const tokens: seq<Token>
    var index: nat

    ghost predicate Valid()
      reads this
    {
      index <= |tokens|
    }

    /** Pulls the tokens of `txt` and primes the buffer with the first of them; an empty
        sequence leaves the buffer null without any error. */
    constructor (txt: string)
      ensures Valid() && tokens == Tokens(txt) && index == 0
    {
      var all := Tokenize(txt);
      tokens := all;
      index := 0;
    }

    /** `hasMore`: true exactly when `current` would not throw. */
    predicate HasMore(): (b: bool)
      reads this
      requires Valid()
      ensures b <==> Current().Ok?
    {
      index < |tokens|
    }

    /** `current`: the buffered token, or Unexpected EOF once the iterator is done. */
    function Current(): (r: Result<Token>)
      reads this
      requires Valid()
      ensures r.Ok? <==> index < |tokens|
      ensures r.Ok? ==> r.value == tokens[index]
      ensures r.Err? ==> r.error == UnexpectedEOF
    {
      if index < |tokens| then Ok(tokens[index]) else Err(UnexpectedEOF)
    }

    /** `findNext`: moves the buffer to the following token; a done iterator stays done. */
    method FindNext() returns (token: Option<Token>)
      requires Valid()
      modifies this
      ensures Valid()
      ensures index == if old(index) < |tokens| then old(index) + 1 else old(index)
      ensures token.Some? <==> HasMore()
      ensures token.Some? ==> token.value == tokens[index]
    {
      if index < |tokens| {
        index := index + 1;
      }
      token := if index < |tokens| then Some(tokens[index]) else None;
    }
  }

  /** `eat` */
  method Eat(t: TokenType, lookahead: Lookahead) returns (r: Result<Token>)
    requires lookahead.Valid()
    modifies lookahead
    ensures lookahead.Valid()
    ensures Produced(r, EatAt(lookahead.tokens, old(lookahead.index), t), lookahead.index)
    ensures r.Err? ==> lookahead.index == old(lookahead.index)
  {
    var token :- lookahead.Current();
    if token.tokenType != t {
      return Err(Expected(t, token.tokenType, token.position));
    }
    var _ := lookahead.FindNext();
    return Ok(token);
  }

  /** The `eat(directive)`, `eat(":")`, `eat("VALUE")` sequence shared by every line. */
  method EatLine(directive: TokenType, lookahead: Lookahead) returns (r: Result<string>)
    requires lookahead.Valid()
    modifies lookahead
    ensures lookahead.Valid()
    ensures Produced(r, LineAt(lookahead.tokens, old(lookahead.index), directive), lookahead.index)
  {
    var _ :- Eat(directive, lookahead);
    var _ :- Eat(Colon, lookahead);
    var token :- Eat(Value, lookahead);
    return Ok(token.value);
  }

  /** `createRule` */
  method CreateRule(lookahead: Lookahead) returns (r: Result<Rule>)
    requires lookahead.Valid()
    modifies lookahead
    ensures lookahead.Valid()
    ensures Produced(r, RuleAt(lookahead.tokens, old(lookahead.index)), lookahead.index)
  {
    var token :- lookahead.Current();
    var kind;
    match token.tokenType {
      case Allow => kind := AllowRule;
      case Disallow => kind := DisallowRule;
      case CrawlDelay => kind := CrawlDelayRule;
      case Sitemap => kind := SitemapRule;
      case _ => return Err(ExpectedRule(token.position));
    }
    var value :- EatLine(token.tokenType, lookahead);
    return Ok(Rule(kind, value));
  }

  /** `createConfig` */
  method CreateConfig(lookahead: Lookahead) returns (r: Result<Config>)
    requires lookahead.Valid()
    modifies lookahead
    ensures lookahead.Valid()
    ensures Produced(r, ConfigAt(lookahead.tokens, old(lookahead.index)), lookahead.index)
  {
    var toks := lookahead.tokens;
    var start := lookahead.index;
    var userAgents := [];
    PrependNothing(UserAgentsAt(toks, start));
    while lookahead.HasMore() && lookahead.Current().value.tokenType == UserAgent
      invariant lookahead.Valid() && start <= lookahead.index
      invariant Prepend(userAgents, UserAgentsAt(toks, lookahead.index)) == UserAgentsAt(toks, start)
      decreases |toks| - lookahead.index
    {
      var here := lookahead.index;
      var value :- EatLine(UserAgent, lookahead);
      assert UserAgentsAt(toks, here) == Prepend([value], UserAgentsAt(toks, lookahead.index));
      PrependTwice(userAgents, [value], UserAgentsAt(toks, lookahead.index));
      userAgents := userAgents + [value];
    }
    var middle := lookahead.index;
    assert userAgents + [] == userAgents;
    var rules := [];
    PrependNothing(RulesAt(toks, middle));
    while lookahead.HasMore() && IsRuleType(lookahead.Current().value.tokenType)
      invariant lookahead.Valid() && middle <= lookahead.index
      invariant Prepend(rules, RulesAt(toks, lookahead.index)) == RulesAt(toks, middle)
      decreases |toks| - lookahead.index
    {
      var here := lookahead.index;
      var rule :- CreateRule(lookahead);
      assert RulesAt(toks, here) == Prepend([rule], RulesAt(toks, lookahead.index));
      PrependTwice(rules, [rule], RulesAt(toks, lookahead.index));
      rules := rules + [rule];
    }
    assert rules + [] == rules;
    return Ok(Config(userAgents, rules));
  }

  /** `createConfigList` */
  method CreateConfigList(lookahead: Lookahead) returns (r: Result<seq<Config>>)
    requires lookahead.Valid()
    modifies lookahead
    ensures lookahead.Valid()
    ensures Produced(r, ConfigsAt(lookahead.tokens, old(lookahead.index)), lookahead.index)
  {
    var toks := lookahead.tokens;
    var start := lookahead.index;
    var configs := [];
    PrependNothing(ConfigsAt(toks, start));
    while lookahead.HasMore() && lookahead.Current().value.tokenType == UserAgent
      invariant lookahead.Valid() && start <= lookahead.index
      invariant Prepend(configs, ConfigsAt(toks, lookahead.index)) == ConfigsAt(toks, start)
      decreases |toks| - lookahead.index
    {
      var here := lookahead.index;
      var config :- CreateConfig(lookahead);
      assert ConfigsAt(toks, here) == Prepend([config], ConfigsAt(toks, lookahead.index));
      PrependTwice(configs, [config], ConfigsAt(toks, lookahead.index));
      configs := configs + [config];
    }
    assert configs + [] == configs;
    return Ok(configs);
  }

  /** `createRobotsTxt` */
  method CreateRobotsTxt(lookahead: Lookahead) returns (r: Result<RobotsTxt>)
    requires lookahead.Valid()
    modifies lookahead
    ensures lookahead.Valid()
    ensures Produced(r, RobotsTxtAt(lookahead.tokens, old(lookahead.index)), lookahead.index)
  {
    var body :- CreateConfigList(lookahead);
    return Ok(RobotsTxt(body));
  }

  /** `parse`: the tree of the text, or the first error met. */
  method Parse(txt: string) returns (r: Result<RobotsTxt>)
    ensures r == ParseTokens(Tokens(txt))
  {
    var lookahead := new Lookahead(txt);
    r := CreateRobotsTxt(lookahead);
  }

  lemma PrependNothing<T>(rest: Result<Parsed<seq<T>>>)
    ensures Prepend([], rest) == rest
  {
    if rest.Ok? {
      assert [] + rest.value.value == rest.value.value;
    }
  }

  lemma PrependTwice<T>(a: seq<T>, b: seq<T>, rest: Result<Parsed<seq<T>>>)
    ensures Prepend(a, Prepend(b, rest)) == Prepend(a + b, rest)
  {
    if rest.Ok? {
      assert a + (b + rest.value.value) == (a + b) + rest.value.value;
    }
  }
}
