# robots-parser, modelled in Dafny

The repository reads `robots.txt` files in two stages.

- **Tokenizer** (`src/tokenizer.ts`). A cursor walks the text and tries an ordered table of ten
  rules at each position; the first rule that matches wins. A whitespace match is skipped and
  matching starts over after it. Every other match becomes a token carrying its type, its text
  verbatim and the offset where it starts. `tokenize` collects the tokens eagerly and
  `generateTokens` yields them one at a time.
- **Parser** (`src/parser.ts`). A recursive-descent parser over a one-token lookahead. It builds
  a `RobotsTxt` made of groups (`Config`), each with its user agents and its rules (`Allow`,
  `Disallow`, `Crawl-Delay`, `Sitemap`). It stops, without an error, at the first line whose
  first token is neither a user agent nor (inside a group) a rule keyword, and ignores everything
  after it: `User-agent: a` followed by `foo: bar` parses to one group, and `Allow: /` alone to an
  empty file. It throws only when a line its loops entered lacks its `:` or its value.

The Dafny project follows that split.

- `tokenizer.dfy` (module `Tokenizer`):
  - the rule table as `Spec(i)`;
  - each pattern as a function returning the length of its match at an offset (`MatchLength`);
  - `match`, the `for` loop of `next` (`FirstMatch`) and `next` itself as functions;
  - `tokenize` as a method with the source's `while` loop;
  - `generateTokens` as the class `TokenGenerator`, whose `NextToken` is one pull on the
    generator.
- `tokenizer_properties.dfy` (module `TokenizerProperties`) proves what the tokens are:
  - which rule wins for which text;
  - that the tokens tile the input, with only whitespace between them;
  - that their values, put together, are the input with its whitespace removed.
- `parser.dfy` (module `Parser`) covers each grammar level twice.
  - A function of the token sequence and the current index (`UserAgentsAt`, `RulesAt`,
    `ConfigAt`, `ConfigsAt`, ...) says what the level reads and where it leaves the lookahead.
  - A method over the `Lookahead` class runs the source's loops and is proved to agree with
    that function.
  - A thrown error is an `Err` value of the `Result` datatype.
- `parser_properties.dfy` (module `ParserProperties`) characterises parsing in both directions
  and proves that every reported error is genuine.
  - A parse succeeds with a given tree exactly when three conditions hold. First, the tokens
    spell the tree's lines (directive, colon, value). Second, every group has a user agent and
    every group but the last has a rule. Third, the token after the last line can neither
    continue the last group nor start a new one.

Notes on how the model reads the source:

- Each pattern is anchored with `^` and runs on `txt.slice(cursor)`. The model reads the same
  characters in place, from offset `cursor` of the whole text. The token's value is the matched
  prefix of that window, `txt[cursor..][..n]`.
- JavaScript's `\s` is modelled as the exact set of ECMAScript WhiteSpace and LineTerminator code
  points. The `i` flag without `u` folds non-ASCII letters too, but never folds a non-ASCII
  character onto an ASCII letter, so against the table's keywords, which are all ASCII, it
  amounts to comparing through ASCII lower-casing (`LowerAscii`).
- The URL pattern (`src/tokenizer.ts:31`) has an optional `www.`, host, dot, top-level domain and
  word boundary. The model keeps that part as a bounded existential (`HasAuthority`). Every
  character that part can read is also a path character. So whichever split the regex engine
  chooses, the final greedy `[path]*` ends where the run of path characters after the scheme
  ends, and `UrlLength` states the match length that way.
- `next` skips whitespace by recursing on itself. Its progress (the token it returns is not
  empty and the returned cursor lies just past it) is part of the contract of `Tokenizer.Next`.
- The parser's lookahead holds the token sequence and the index of the buffered token. The index
  `|tokens|` stands for the `null` token of an exhausted iterator.
  - The source feeds the lookahead lazily from `generateTokens`. The model feeds it the eager
    token list instead.
  - `TokenizeMatchesGenerator` proves that both entry points yield the same tokens, positions
    included.

## Model

| member | source | states |
|---|---|---|
| Tokenizer.Spec | src/tokenizer.ts:22-37 | the rule table: only the first rule has the skipped `NULL` type, and rules 1 to 5 are the keywords, each spelt as its own directive (`FirstMatchIsFirst` and the lemmas on which rule wins state what the order means) |
| Tokenizer.SchemeLength | src/tokenizer.ts:31 | the `https?:\/\/` prefix: 7 exactly when the text at the offset starts with `http://`, 8 exactly when it starts with `https://`, 0 otherwise |
| Tokenizer.HasAuthority | src/tokenizer.ts:31 | when the `(www\.)?[host]{1,256}\.[tld]{1,6}\b` part can match, at least three characters follow the scheme, all of them URL characters |
| Tokenizer.RunLength | src/tokenizer.ts:23 | a greedy `+`/`*` repetition: the run stays within the text and the character after it, if any, is outside the class |
| Tokenizer.UrlLength | src/tokenizer.ts:31 | a URL match is longer than its `http://` or `https://` scheme and lies within the text |
| Tokenizer.MatchLength | src/tokenizer.ts:22-37 | a rule's pattern, when it matches, matches a non-empty prefix of the remaining text |
| Tokenizer.Match | src/tokenizer.ts:96-115 | `match` gives a token of the rule's type, positioned at the cursor, whose value is non-empty and lies within the text |
| Tokenizer.FirstMatch | src/tokenizer.ts:77-91 | the `for` loop's match, when there is one, starts at the cursor, is non-empty and lies within the text |
| Tokenizer.Next | src/tokenizer.ts:76-94 | what `next` returns is never of the `NULL` type, is not empty, starts at or after the cursor, and comes with the cursor just past it, within the text, so the loops of `tokenize` and `generateTokens` terminate; `NextEmits`, `NextNoneIffBlank` and the lemmas on which rule wins state the rest |
| Tokenizer.NextSkips | src/tokenizer.ts:83-85 | a whitespace match is dropped and `next` starts over just after it |
| Tokenizer.NextTakes | src/tokenizer.ts:87-90 | any other match is returned, with the cursor just after its value |
| Tokenizer.TokensFrom | src/tokenizer.ts:43-51 | the tokens the loop collects from a cursor: at most one per remaining character, none before the cursor, none of the `NULL` type (`TokensFromLaid` states the tiling) |
| Tokenizer.Tokens | src/tokenizer.ts:39-54 | the token sequence of the text: at most one token per character, none of the `NULL` type (`TokensTileInput` and `TokensSpellStrippedInput` state what it is) |
| Tokenizer.Tokenize | src/tokenizer.ts:39-54 | the `while` loop collects exactly the token sequence of the text |
| Tokenizer.TokenGenerator.constructor | src/tokenizer.ts:56-59 | a fresh generator starts at offset 0 with nothing yielded |
| Tokenizer.TokenGenerator.NextToken | src/tokenizer.ts:60-68 | one pull yields the next token still to come and appends it to what was yielded, or reports done exactly when no token is left |
| Tokenizer.GenerateAll | src/tokenizer.ts:56-69 | draining the generator yields exactly the token sequence of the text |
| Tokenizer.TokenizeMatchesGenerator | src/tokenizer.ts:39-69 | `tokenize` and a drained `generateTokens` give the same tokens, element by element, positions included |
| TokenizerProperties.RunInClass | src/tokenizer.ts:34 | every character of a greedy run is in the class |
| TokenizerProperties.UrlShape | src/tokenizer.ts:31 | a URL match starts with `http://` or `https://`, is made of URL characters, and ends where the URL characters end |
| TokenizerProperties.MatchLengthShaped | src/tokenizer.ts:22-37 | what a rule's pattern matches has that pattern's shape: whitespace, the keyword in any letter case, a URL, a run without `:` and whitespace, or the literal |
| TokenizerProperties.MatchShaped | src/tokenizer.ts:96-114 | a rule's token value is the slice of the text at the cursor and has the rule's shape |
| TokenizerProperties.SomeRuleMatches | src/tokenizer.ts:22-37 | wherever text is left, some rule matches: a character is whitespace, `:`, or starts a generic value |
| TokenizerProperties.RuleGivesLexeme | src/tokenizer.ts:24-36 | every rule but the whitespace one yields text its type admits (keyword, URL or bare value, colon) |
| TokenizerProperties.NextNoneIffBlank | src/tokenizer.ts:76-94 | `next` returns null exactly when only whitespace is left from the cursor on |
| TokenizerProperties.NextEmits | src/tokenizer.ts:76-94 | what `next` returns: only whitespace skipped before the token, a non-empty verbatim slice of the text, never of the whitespace type, of a shape its type admits, with the cursor just after it |
| TokenizerProperties.EmittedPastBlank | src/tokenizer.ts:83-85 | whitespace skipped before a returned token keeps the result a valid emission from the earlier cursor |
| TokenizerProperties.SkippedRunIsBlank | src/tokenizer.ts:23 | the skipped run is all whitespace |
| TokenizerProperties.TokensFromLaid | src/tokenizer.ts:43-51 | the tokens from a cursor on tile the rest of the text: each is a verbatim slice of its type's shape, in order, with only whitespace before, between and after them |
| TokenizerProperties.TokensTileInput | src/tokenizer.ts:39-54 | for the whole text, token by token: every token is a non-empty verbatim slice, not of the `NULL` type; a token never starts before the previous one ends; only whitespace lies between neighbours and around them |
| TokenizerProperties.LaidTiles | src/tokenizer.ts:43-51 | the recursive tiling implies the token-by-token statement |
| TokenizerProperties.LaidAt | src/tokenizer.ts:43-51 | the k-th token of a tiling is a verbatim slice after its start, and the tokens after it tile the text after it |
| TokenizerProperties.BlankIffNoTokens | src/tokenizer.ts:43-47 | the text gives no tokens exactly when it is empty or whitespace only |
| TokenizerProperties.StrippedAppend | src/tokenizer.ts:23 | removing whitespace distributes over concatenation |
| TokenizerProperties.LexemeIsSolid | src/tokenizer.ts:24-36 | no emitted token contains whitespace |
| TokenizerProperties.FoldedIsSolid | src/tokenizer.ts:24-28 | text that folds to a keyword contains no whitespace |
| TokenizerProperties.LaidSpelling | src/tokenizer.ts:43-51 | the values of a tiling, put together, are the text after the start with its whitespace removed |
| TokenizerProperties.StrippedSplice | src/tokenizer.ts:83-90 | whitespace, then a word without whitespace, strips to the word |
| TokenizerProperties.StripToken | src/tokenizer.ts:83-90 | one step of the tiling strips to the token's value followed by the stripped rest |
| TokenizerProperties.TokensSpellStrippedInput | src/tokenizer.ts:39-54 | the token values, concatenated, are the input with its whitespace removed: tokenizing never stops early and drops nothing else |
| TokenizerProperties.FirstMatchIsFirst | src/tokenizer.ts:77-93 | the loop settles on a rule before which every rule fails, and returns null exactly when every rule fails |
| TokenizerProperties.FirstMatchFrom | src/tokenizer.ts:77-91 | conversely, the match of a rule preceded only by failing rules is the loop's result |
| TokenizerProperties.FirstMatchIs | src/tokenizer.ts:77-91 | the same from the start of the table |
| TokenizerProperties.RuleIndex | src/tokenizer.ts:24-28 | each directive has its own keyword rule, at table positions 1 to 5 |
| TokenizerProperties.KeywordsNeedLetter | src/tokenizer.ts:24-28 | no keyword rule matches at a character that is not an ASCII letter |
| TokenizerProperties.KeywordMatch | src/tokenizer.ts:24-28 | a keyword at the cursor, in any letter case, is won by its own rule, keeping its spelling |
| TokenizerProperties.KeywordToken | src/tokenizer.ts:24-28 | `next` returns a keyword at the cursor, in any letter case, as its directive's token, in its original spelling, with the cursor after it |
| TokenizerProperties.ColonToken | src/tokenizer.ts:36 | a `:` at the cursor becomes a `":"` token of length one |
| TokenizerProperties.ColonMatch | src/tokenizer.ts:36 | the colon rule wins at a `:` |
| TokenizerProperties.ColonEscapesEarlierRules | src/tokenizer.ts:23-35 | every rule before the colon rule fails at a `:` |
| TokenizerProperties.UrlToken | src/tokenizer.ts:29-33 | a URL at the cursor is returned whole as one `VALUE` token, colons and slashes included |
| TokenizerProperties.UrlMatch | src/tokenizer.ts:29-33 | the URL rule wins where a URL starts |
| TokenizerProperties.UrlEscapesEarlierRules | src/tokenizer.ts:23-28 | whitespace and keyword rules fail where a URL starts |
| TokenizerProperties.BareValueToken | src/tokenizer.ts:34 | where no keyword and no URL starts, a character other than whitespace and `:` starts a `VALUE` token running to the next whitespace or `:` |
| TokenizerProperties.BareValueMatch | src/tokenizer.ts:34 | the generic value rule wins in that case |
| TokenizerProperties.BareValueRuleMatches | src/tokenizer.ts:34 | the generic value rule matches the maximal run without whitespace and `:` |
| TokenizerProperties.MatchIs | src/tokenizer.ts:96-114 | a rule whose pattern matches n characters yields those characters, at the cursor, as its token |
| TokenizerProperties.BareValueEscapesEarlierRules | src/tokenizer.ts:23-33 | the rules before the generic value rule all fail there |
| TokenizerProperties.NoKeywordRuleMatches | src/tokenizer.ts:24-28 | no keyword rule matches where no keyword starts |
| TokenizerProperties.StarRuleShadowed | src/tokenizer.ts:34-35 | wherever the `*` rule matches, the generic value rule before it matches too |
| TokenizerProperties.StarRuleUnreachable | src/tokenizer.ts:35 | the `*` rule never wins |
| TokenizerProperties.SpaceSkipped | src/tokenizer.ts:83-85 | whitespace at the cursor is skipped as a whole run and `next` restarts after it |
| TokenizerProperties.SpaceMatch | src/tokenizer.ts:23 | the whitespace rule wins at whitespace and matches the whole run |
| TokenizerProperties.TokensFromStep | src/tokenizer.ts:43-51 | one turn of the loop: the returned token is followed by the tokens from the returned cursor |
| TokenizerProperties.UserAgentStarTokens | src/tokenizer.test.ts:164-171 | `User-agent: *` gives `USER_AGENT` "User-agent" at 0, `":"` at 10 and `VALUE` "*" at 12 |
| TokenizerProperties.StarAtEnd | src/tokenizer.ts:34 | a `*` ending the text is a `VALUE` of its own |
| Parser.IsRuleType | src/parser.ts:85-90 | `ruleTypes` holds exactly the directive keywords other than `user-agent` |
| Parser.EatAt | src/parser.ts:147-157 | `eat(t)` succeeds exactly when the current token has type `t`, returning it and advancing one token; otherwise it fails with the expected type, the found type and position, or Unexpected EOF past the end |
| Parser.LineAt | src/parser.ts:78-80 | a directive line consumes exactly three tokens |
| Parser.UserAgentsAt | src/parser.ts:77-82 | the user-agent loop consumes three tokens per user agent and reads at least one at a user-agent token |
| Parser.RuleLineAt | src/parser.ts:106-140 | a rule line consumes three tokens and gives the rule the kind of its case |
| Parser.RuleAt | src/parser.ts:103-145 | `createRule` consumes exactly three tokens on success |
| Parser.RulesAt | src/parser.ts:84-94 | the rule loop consumes three tokens per rule |
| Parser.ConfigAt | src/parser.ts:75-101 | `createConfig` consumes three tokens per user agent and per rule |
| Parser.ConfigsAt | src/parser.ts:65-73 | `createConfigList` leaves the lookahead within the tokens, never before where it started |
| Parser.RobotsTxtAt | src/parser.ts:58-63 | `createRobotsTxt` leaves the lookahead within the tokens |
| Parser.Lookahead.constructor | src/parser.ts:159-187 | the lookahead is primed on the first token of the text; an empty token sequence primes it to null without error |
| Parser.Lookahead.HasMore | src/parser.ts:182 | `hasMore` holds exactly when `current` would return a token rather than throw |
| Parser.Lookahead.Current | src/parser.ts:174-180 | `current` returns the buffered token exactly when there is one, and Unexpected EOF otherwise |
| Parser.Lookahead.FindNext | src/parser.ts:163-172 | `findNext` moves the buffer one token on (a done iterator stays done) and returns the new token or null |
| Parser.Eat | src/parser.ts:147-157 | `eat` returns what `EatAt` reads and moves the lookahead where it says, and consumes nothing on an error |
| Parser.EatLine | src/parser.ts:78-80 | the three `eat` calls of a line agree with `LineAt` |
| Parser.CreateRule | src/parser.ts:103-145 | `createRule` agrees with `RuleAt`, result and lookahead |
| Parser.CreateConfig | src/parser.ts:75-101 | the two loops of `createConfig` agree with `ConfigAt`, result and lookahead |
| Parser.CreateConfigList | src/parser.ts:65-73 | the loop of `createConfigList` agrees with `ConfigsAt`, result and lookahead |
| Parser.CreateRobotsTxt | src/parser.ts:58-63 | `createRobotsTxt` agrees with `RobotsTxtAt` |
| Parser.ParseTokens | src/parser.ts:52-56 | what `parse` returns for a token sequence; with no tokens it is an empty file, not an error (`ParseCharacterised` and `ParseErrors` state the rest) |
| Parser.Parse | src/parser.ts:52-56 | `parse` returns the tree, or the first error, that the tokens of the text determine |
| ParserProperties.Directive | src/parser.ts:85-90 | every rule kind is read from a keyword in `ruleTypes` |
| ParserProperties.SpellsAppend | src/parser.ts:76-94 | spelling a sequence of lines splits at any point into spelling its two parts |
| ParserProperties.LineAtSpells | src/parser.ts:78-80 | the three `eat` calls succeed with a value exactly on the tokens directive, `:` and that value |
| ParserProperties.RuleAtSpells | src/parser.ts:103-141 | `createRule` succeeds with a rule exactly on a line spelled with that rule's keyword and value: ALLOW gives AllowRule, DISALLOW DisallowRule, CRAWL_DELAY CrawlDelayRule, SITEMAP SitemapRule |
| ParserProperties.UserAgentsSpell | src/parser.ts:77-82 | the user-agent loop reads exactly the user agents spelled in order, duplicates kept, stopping at a token that is not a user agent |
| ParserProperties.RulesSpell | src/parser.ts:84-94 | the rule loop reads exactly the rules spelled in order, stopping at a token outside `ruleTypes` |
| ParserProperties.ConfigAtSplit | src/parser.ts:75-101 | `createConfig` succeeds exactly when its user agents and then its rules do |
| ParserProperties.ConfigAtParts | src/parser.ts:75-101 | a group read by `createConfig` is its user agents followed by its rules |
| ParserProperties.ConfigSpells | src/parser.ts:75-101 | `createConfig` succeeds with a group exactly when the tokens spell its lines and the token after them is not a rule, nor a user agent when the group has no rules |
| ParserProperties.ConfigSpellsSound | src/parser.ts:75-101 | a group read by `createConfig` is spelled by the tokens and stops as stated |
| ParserProperties.ConfigSpellsComplete | src/parser.ts:75-101 | conversely, such a spelling is read as that group |
| ParserProperties.RuleStartsNoGroup | src/parser.ts:85-91 | a spelled rule line starts with a rule keyword, never a user agent |
| ParserProperties.ConfigsAtFirst | src/parser.ts:65-73 | `createConfigList` read its first group at a user agent and the other groups from where that group ends |
| ParserProperties.ConfigsAtCons | src/parser.ts:65-73 | conversely, a group at a user agent followed by more groups is read as one list |
| ParserProperties.CanonicalCons | src/parser.ts:68-69 | a list of groups is well formed exactly when its first group is and the rest is |
| ParserProperties.GroupsStartWithAgent | src/parser.ts:68-69 | spelled well-formed groups start at a user-agent token |
| ParserProperties.ConfigsSoundStep | src/parser.ts:65-73 | a group read at a user agent, in front of a correctly read rest, gives a correctly read list |
| ParserProperties.ConfigsSound | src/parser.ts:65-73 | the groups `createConfigList` reads are well formed, spelled in order by the consumed tokens, and end where the next token stops the list |
| ParserProperties.ConfigsComplete | src/parser.ts:65-73 | conversely, tokens that spell well-formed groups and then stop the list are read as exactly those groups |
| ParserProperties.ConfigsSpell | src/parser.ts:65-73 | `createConfigList` succeeds with a list of groups exactly when the tokens spell them, they are well formed and the following token stops the list |
| ParserProperties.ParseCharacterised | src/parser.ts:52-73 | `parse` succeeds with a tree exactly when the tokens from the first on spell its lines, its groups are well formed, and the next token, if any, is not a user agent and, after a group, not a rule: leftover tokens are ignored |
| ParserProperties.ParsedGroupsHaveAgents | src/parser.ts:77-82 | every group of a parsed file names at least one user agent |
| ParserProperties.ConsumedTokens | src/parser.ts:65-101 | a successful group list consumes three tokens per line it read, that is per user agent and per rule |
| ParserProperties.RuleThenAgentStartsGroup | src/parser.ts:77-91 | in the lines of any list of groups, a user-agent line right after a rule line is the first line of a group other than the first |
| ParserProperties.ParsedAgentAfterRuleStartsGroup | src/parser.ts:68-69 | in a successful parse, a user agent read right after a rule starts a new group, so no rule belongs to two groups |
| ParserProperties.GenuineFrom | src/parser.ts:147-157 | an error genuine for a later start is genuine for an earlier one |
| ParserProperties.LineErrors | src/parser.ts:147-157 | a line that fails after its directive reports a real token where a colon or value was expected, or Unexpected EOF at the end of the tokens |
| ParserProperties.UserAgentsErrors | src/parser.ts:77-82 | every error of the user-agent loop is genuine |
| ParserProperties.RuleErrors | src/parser.ts:142-143 | `createRule` is only called on a rule keyword, so its `default` error never fires |
| ParserProperties.RulesErrors | src/parser.ts:91-94 | every error of the rule loop is genuine |
| ParserProperties.ConfigsErrors | src/parser.ts:65-73 | every error of the group list is genuine |
| ParserProperties.ParseErrors | src/parser.ts:52-56 | an error of `parse` expects a colon or a value and names the type and position of a real token, or is Unexpected EOF at tokens ending mid-line; the "Expected a rule" error never occurs |
| ParserProperties.BlankParsesEmpty | src/parser.ts:182-184 | empty or whitespace-only text parses to an empty file, not an error |
| ParserProperties.NoAgentFirstParsesEmpty | src/parser.ts:65-73 | a first token that is not a user agent gives an empty file, whatever follows |
| ParserProperties.AllowAloneParsesEmpty | src/parser.ts:65-73 | `Allow: /` alone parses to an empty file |
| ParserProperties.UserAgentAloneIsEOF | src/parser.test.ts:119-122 | `User-Agent` alone fails with Unexpected EOF |
| ParserProperties.UserAgentAfterRuleStartsGroup | src/parser.test.ts:52-117 | an instance: the tokens of `User-agent: a`, `Allow: /`, `User-agent: b`, `Disallow: /x` parse to two groups of one rule each |

## Left out

- Strings are sequences of Unicode scalar values, while JavaScript strings are UTF-16 code units.
  Text with characters outside the Basic Multilingual Plane gives different `position` offsets,
  but the same tokens.
- The regular-expression engine is not modelled. Each pattern is a matcher written out by hand
  (`MatchLength`).
  - `\s` and the `i` flag are modelled exactly.
  - In the URL pattern, the optional `www.`, the host, the top-level domain and `\b` are
    modelled as a bounded existential over the lengths of those parts (`HasAuthority`), not by
    backtracking.
- Tokenizer.UrlLength: states only that the match outruns the scheme and stays in the text. The
  shape of the match (scheme, URL characters, ending where they end) is stated by
  `TokenizerProperties.UrlShape`.
- The `match[0] === null` check (`src/tokenizer.ts:105-107`) is not modelled. A successful
  `exec` never reports a null whole match.
- Generator and closure mechanics are not modelled: the iterator protocol of `generateTokens`,
  and `createLookahead`'s captured variables.
  - The generator is a cursor object (`TokenGenerator`).
  - The lookahead is an index into the eager token list, which
    `Tokenizer.TokenizeMatchesGenerator` shows to be the same list the generator yields.
  - The lazy interleaving of tokenizing and parsing is therefore not modelled: the whole text is
    tokenized before parsing starts.
- The wording of error messages is not modelled. Errors are the datatype `ParseError` with the
  expected type, the found type and the position as fields.
- Parser.ConfigsAt: its own contract states only where the lookahead ends. The meaning of a
  successful result is stated by `ParserProperties.ConfigsSpell`.
- Parser.RobotsTxtAt: its own contract states only where the lookahead ends. What a parse
  yields is stated by `ParserProperties.ParseCharacterised`.
- The vitest test files are not modelled. A few of their cases appear as lemmas about
  particular inputs.
- Fetching files, matching URL paths against rules and honouring crawl delays are not modelled.
  None of them appears in these files.
