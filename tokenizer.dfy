/** The robots.txt lexer: an ordered rule table tried at a cursor, first match wins.
    Whitespace runs are matched by the first rule and skipped; every other match
    becomes a token that keeps its text verbatim and the offset where it starts. */
module Tokenizer {

  datatype Option<+T> = None | Some(value: T)

  /** Kinds a rule can assign. `Null` marks a skipped whitespace run and is never emitted;
      `Colon` is the kind whose name in the source is the string ":". */
  datatype TokenType = Null | UserAgent | Allow | Disallow | CrawlDelay | Sitemap | Value | Colon

  /** A classified slice of the input: `value` is the matched text, `position` its start offset. */
  datatype Token = Token(tokenType: TokenType, value: string, position: nat)

  /** What `next` hands back: the token and the cursor just past it. */
  datatype NextValue = NextValue(token: Token, cursor: nat)

  // ---------------------------------------------------------------------------
  // Character classes used by the rule patterns

  /** JavaScript's `\s`: the WhiteSpace and LineTerminator code points of ECMAScript. */
  predicate IsSpace(c: char) {
    var n := c as int;
    n == 0x09 || n == 0x0A || n == 0x0B || n == 0x0C || n == 0x0D || n == 0x20 ||
    n == 0xA0 || n == 0x1680 || (0x2000 <= n <= 0x200A) || n == 0x2028 || n == 0x2029 ||
    n == 0x202F || n == 0x205F || n == 0x3000 || n == 0xFEFF
  }

  predicate IsLetter(c: char) { 'a' <= c <= 'z' || 'A' <= c <= 'Z' }

  predicate IsDigit(c: char) { '0' <= c <= '9' }

  /** `\w`, used by the word boundary `\b` */
  predicate IsWordChar(c: char) { IsLetter(c) || IsDigit(c) || c == '_' }

  /** `[-a-zA-Z0-9@:%._\+~#=]`: the host part of the URL pattern */
  predicate IsHostChar(c: char) {
    || IsLetter(c) || IsDigit(c)
    || c == '-' || c == '@' || c == ':' || c == '%' || c == '.' || c == '_' || c == '+' || c == '~'
    || c == '#' || c == '='
  }

  /** `[a-zA-Z0-9()]`: the top-level-domain part of the URL pattern */
  predicate IsTldChar(c: char) { IsLetter(c) || IsDigit(c) || c == '(' || c == ')' }

  /** `[-a-zA-Z0-9()@:%_\+.~#?&//=]`: the path part of the URL pattern */
  predicate IsUrlChar(c: char) {
    || IsLetter(c) || IsDigit(c)
    || c == '-' || c == '(' || c == ')' || c == '@' || c == ':' || c == '%' || c == '_' || c == '+'
    || c == '.' || c == '~' || c == '#' || c == '?' || c == '&' || c == '/' || c == '='
  }

  /** `[^:\s]|\/`: a character of a bare value (the `\/` alternative adds nothing) */
  predicate IsBareChar(c: char) { c != ':' && !IsSpace(c) }

  datatype CharClass = Space | Bare | UrlPath

  predicate InClass(c: char, cls: CharClass) {
    match cls
    case Space => IsSpace(c)
    case Bare => IsBareChar(c)
    case UrlPath => IsUrlChar(c)
  }

  // The patterns are anchored with `^` and run on the window `txt.slice(cursor)`; the model
  // reads the same characters in place, as offsets into `txt` from `i` on.

  /** Length of the longest run of characters of `cls` from offset `i` on (a greedy repetition). */
  function RunLength(txt: string, i: nat, cls: CharClass): (n: nat)
    requires i <= |txt|
    decreases |txt| - i
    ensures i + n <= |txt|
    ensures i + n < |txt| ==> !InClass(txt[i + n], cls)
  {
    if i < |txt| && InClass(txt[i], cls) then 1 + RunLength(txt, i + 1, cls) else 0
  }

  /** Every character of `txt[a..b]` is whitespace. */
  predicate Blank(txt: string, a: nat, b: nat)
    requires a <= b <= |txt|
  {
    forall k :: a <= k < b ==> IsSpace(txt[k])
  }

  // ---------------------------------------------------------------------------
  // Keywords: matched case-insensitively, anchored at the cursor, no word boundary

  /** ASCII lower-casing; under the `i` flag without `u`, JavaScript folds exactly these letters. */
  function LowerAscii(c: char): char {
    if 'A' <= c <= 'Z' then (c as int + 32) as char else c
  }

  /** `v` is the lower-case keyword `word`, ignoring the case of ASCII letters. */
  predicate FoldedEqual(word: string, v: string) {
    |word| == |v| && forall k :: 0 <= k < |word| ==> LowerAscii(v[k]) == word[k]
  }

  /** The text at offset `i` starts with the lower-case keyword `word`, in any letter case.
      This is the matcher and reads the text in place, as `FoldedEqual` reads a matched value;
      `MatchLengthShaped` shows that a match here gives a `FoldedEqual` value. */
  predicate FoldedAt(word: string, txt: string, i: nat) {
    i + |word| <= |txt| && forall k :: 0 <= k < |word| ==> LowerAscii(txt[i + k]) == word[k]
  }

  predicate IsKeywordType(t: TokenType) {
    t == UserAgent || t == Disallow || t == Allow || t == CrawlDelay || t == Sitemap
  }

  /** The keyword each directive type is spelt with, in lower case. */
  function KeywordOf(t: TokenType): string
    requires IsKeywordType(t)
  {
    match t
    case UserAgent => "user-agent"
    case Disallow => "disallow"
    case Allow => "allow"
    case CrawlDelay => "crawl-delay"
    case Sitemap => "sitemap"
  }

  // ---------------------------------------------------------------------------
  // The URL pattern
  //   ^https?:\/\/(www\.)?[host]{1,256}\.[tld]{1,6}\b([path]*)

  /** Length of the `https?:\/\/` prefix of the text at offset `i`, or 0 when there is none. */
  function SchemeLength(txt: string, i: nat): (n: nat)
    ensures n == 0 || n == 7 || n == 8
    ensures n == 7 ==> i + 7 <= |txt| && txt[i..i + 7] == "http://"
    ensures n == 8 ==> i + 8 <= |txt| && txt[i..i + 8] == "https://"
    ensures n == 0 ==> !(i + 7 <= |txt| && txt[i..i + 7] == "http://")
    ensures n == 0 ==> !(i + 8 <= |txt| && txt[i..i + 8] == "https://")
  {
    if i + 7 <= |txt| && txt[i] == 'h' && txt[i + 1] == 't' && txt[i + 2] == 't' && txt[i + 3] == 'p' then
      if i + 8 <= |txt| && txt[i + 4] == 's' && txt[i + 5] == ':' && txt[i + 6] == '/' && txt[i + 7] == '/' then 8
      else if txt[i + 4] == ':' && txt[i + 5] == '/' && txt[i + 6] == '/' then 7
      else 0
    else 0
  }

  /** `\b` at offset `e` (there is always a character before `e` here). */
  predicate WordBoundary(txt: string, e: nat)
    requires 0 < e <= |txt|
  {
    IsWordChar(txt[e - 1]) != (e < |txt| && IsWordChar(txt[e]))
  }

  /** From offset `r` on: an optional `www.` of length `p`, `h` host characters, a dot, `t`
      top-level-domain characters and a word boundary. */
  predicate AuthorityAt(txt: string, r: nat, p: nat, h: nat, t: nat) {
    var dot := r + p + h;
    var end := dot + 1 + t;
    && end <= |txt|
    && (forall k :: r + p <= k < dot ==> IsHostChar(txt[k]))
    && txt[dot] == '.'
    && (forall k :: dot < k < end ==> IsTldChar(txt[k]))
    && WordBoundary(txt, end)
  }

  /** `www.` at offset `r`. */
  predicate WwwAt(txt: string, r: nat) {
    r + 4 <= |txt| && txt[r] == 'w' && txt[r + 1] == 'w' && txt[r + 2] == 'w' && txt[r + 3] == '.'
  }

  /** The part of the URL pattern between the scheme and the path can match from offset `r`. */
  predicate HasAuthority(txt: string, r: nat): (b: bool)
    ensures b ==> r + 3 <= |txt| && forall k :: r <= k < r + 3 ==> IsUrlChar(txt[k])
  {
    exists p: nat, h: nat, t: nat
      | p <= 4 && (p == 0 || (p == 4 && WwwAt(txt, r))) && 1 <= h <= 256 && 1 <= t <= 6
      :: AuthorityAt(txt, r, p, h, t)
  }

  /** Length of the URL pattern's match at offset `i`. Every character the authority part
      reads is also a path character, so whatever split the regex engine settles on, the final
      greedy `[path]*` runs to the end of the path-character run that follows the scheme. */
  function UrlLength(txt: string, i: nat): (r: Option<nat>)
    requires i <= |txt|
    ensures r.Some? ==> SchemeLength(txt, i) < r.value && i + r.value <= |txt|
  {
    var s := SchemeLength(txt, i);
    if s > 0 && HasAuthority(txt, i + s) then Some(s + RunLength(txt, i + s, UrlPath))
    else None
  }

  // ---------------------------------------------------------------------------
  // The rule table

  datatype Pattern = Whitespace | Keyword(word: string) | Url | BareValue | Literal(c: char)

  datatype TokenSpec = TokenSpec(pattern: Pattern, tokenType: TokenType)

  /** Number of rules in the table. */
  const SpecCount: nat := 10

  /** The table of rules, by position: earlier rules win. Only the first rule skips what it
      matches, and rules 1 to 5 are the directive keywords, each spelt as its own type's. */
  function Spec(i: nat): (r: TokenSpec)
    requires i < SpecCount
    ensures r.tokenType == Null <==> i == 0
    ensures r.pattern.Keyword? <==> 1 <= i <= 5
    ensures r.pattern.Keyword? ==> IsKeywordType(r.tokenType) && r.pattern.word == KeywordOf(r.tokenType)
  {
    if i == 0 then TokenSpec(Whitespace, Null)
    else if i == 1 then TokenSpec(Keyword("user-agent"), UserAgent)
    else if i == 2 then TokenSpec(Keyword("disallow"), Disallow)
    else if i == 3 then TokenSpec(Keyword("allow"), Allow)
    else if i == 4 then TokenSpec(Keyword("crawl-delay"), CrawlDelay)
    else if i == 5 then TokenSpec(Keyword("sitemap"), Sitemap)
    else if i == 6 then TokenSpec(Url, Value)
    else if i == 7 then TokenSpec(BareValue, Value)
    else if i == 8 then TokenSpec(Literal('*'), Value)
    else TokenSpec(Literal(':'), Colon)
  }

  /** `v` starts with `http://` or `https://`. */
  predicate HasScheme(v: string) {
    SchemeLength(v, 0) > 0
  }

  /** The texts a pattern can match. */
  predicate Shaped(p: Pattern, v: string) {
    match p
    case Whitespace => |v| > 0 && forall k :: 0 <= k < |v| ==> IsSpace(v[k])
    case Keyword(word) => FoldedEqual(word, v)
    case Url => HasScheme(v) && forall k :: 0 <= k < |v| ==> IsUrlChar(v[k])
    case BareValue => |v| > 0 && forall k :: 0 <= k < |v| ==> IsBareChar(v[k])
    case Literal(c) => v == [c]
  }

  /** Length of the pattern's match at offset `i`, if it matches there. */
  function MatchLength(p: Pattern, txt: string, i: nat): (r: Option<nat>)
    requires i <= |txt|
    ensures r.Some? ==> 0 < r.value && i + r.value <= |txt|
  {
    match p
    case Whitespace =>
      var n := RunLength(txt, i, Space);
      if n > 0 then Some(n) else None
    case Keyword(word) =>
      // the table's keywords are never empty
      if |word| > 0 && FoldedAt(word, txt, i) then Some(|word|) else None
    case Url => UrlLength(txt, i)
    case BareValue =>
      var n := RunLength(txt, i, Bare);
      if n > 0 then Some(n) else None
    case Literal(c) =>
      if i < |txt| && txt[i] == c then Some(1) else None
  }

  /** `match`: try one rule at `cursor`; the token's value is the matched text. */
  function Match(txt: string, cursor: nat, spec: TokenSpec): (r: Option<Token>)
    requires cursor <= |txt|
    ensures r.Some? ==> r.value.tokenType == spec.tokenType && r.value.position == cursor
    ensures r.Some? ==> 0 < |r.value.value| && cursor + |r.value.value| <= |txt|
  {
    match MatchLength(spec.pattern, txt, cursor)
    case None => None
    case Some(n) => Some(Token(spec.tokenType, txt[cursor..][..n], cursor))
  }

  /** The `for` loop of `next`: the match of the first rule from `from` on that matches at
      `cursor`. (The measure names the text too, so that a call with a literal `from` is not
      unrolled through the whole table unless a proof asks for it.) */
  function FirstMatch(txt: string, cursor: nat, from: nat): (r: Option<Token>)
    requires cursor <= |txt| && from <= SpecCount
    decreases |txt| - cursor, SpecCount - from
    ensures r.Some? ==> r.value.position == cursor
    ensures r.Some? ==> 0 < |r.value.value| && cursor + |r.value.value| <= |txt|
  {
    if from == SpecCount then None
    else match Match(txt, cursor, Spec(from))
      case Some(token) => Some(token)
      case None => FirstMatch(txt, cursor, from + 1)
  }

  /** `next`: skip whitespace runs, then emit the first rule's match; nothing once only
      whitespace is left. What it emits is never a skipped kind, is not empty, starts at or
      after the cursor, and the cursor it hands back lies just past it, within the text (so the
      loops over `next` make progress). */
  function Next(txt: string, cursor: nat): (r: Option<NextValue>)
    requires cursor <= |txt|
    decreases |txt| - cursor
    ensures r.Some? ==> r.value.token.tokenType != Null && 0 < |r.value.token.value|
    ensures r.Some? ==> cursor <= r.value.token.position
    ensures r.Some? ==> r.value.cursor == r.value.token.position + |r.value.token.value| <= |txt|
  {
    match FirstMatch(txt, cursor, 0)
    case None => None
    case Some(token) =>
      var after := cursor + |token.value|;
      if token.tokenType == Null then Next(txt, after)
      else Some(NextValue(token, after))
  }

  /** A whitespace match is skipped: `next` starts over just after it. */
  lemma NextSkips(txt: string, cursor: nat, token: Token)
    requires cursor <= |txt| && FirstMatch(txt, cursor, 0) == Some(token) && token.tokenType == Null
    ensures Next(txt, cursor) == Next(txt, cursor + |token.value|)
  {
  }

  /** Any other match is emitted, with the cursor just after it. */
  lemma NextTakes(txt: string, cursor: nat, token: Token)
    requires cursor <= |txt| && FirstMatch(txt, cursor, 0) == Some(token) && token.tokenType != Null
    ensures Next(txt, cursor) == Some(NextValue(token, cursor + |token.value|))
  {
  }

  /** The tokens the loop of `tokenize` collects from `cursor` on. */
  ghost function TokensFrom(txt: string, cursor: nat): (r: seq<Token>)
    requires cursor <= |txt|
    decreases |txt| - cursor
    ensures |r| <= |txt| - cursor
    ensures forall k :: 0 <= k < |r| ==> cursor <= r[k].position && r[k].tokenType != Null
  {
    if cursor < |txt| then
      match Next(txt, cursor)
      case None => []
      case Some(step) => [step.token] + TokensFrom(txt, step.cursor)
    else []
  }

  /** The token sequence of `txt`: at most one token per character, none of a skipped kind. */
  ghost function Tokens(txt: string): (r: seq<Token>)
    ensures |r| <= |txt|
    ensures forall k :: 0 <= k < |r| ==> r[k].tokenType != Null
  {
    TokensFrom(txt, 0)
  }

  /** `tokenize`: the eager entry point. */
  method Tokenize(txt: string) returns (tokens: seq<Token>)
    ensures tokens == Tokens(txt)
  {
    tokens := [];
    var cursor := 0;
    while cursor < |txt|
      invariant cursor <= |txt|
      invariant tokens + TokensFrom(txt, cursor) == Tokens(txt)
      decreases |txt| - cursor
    {
      var nextValue := Next(txt, cursor);
      if nextValue.None? {
        break;
      }
      cursor := nextValue.value.cursor;
      tokens := tokens + [nextValue.value.token];
    }
  }

  /** `generateTokens`: the lazy entry point, a cursor over the text that yields one token
      per pull. `Yielded` is what it has handed out so far. */
  class TokenGenerator {
    const txt: string
    var cursor: nat
    ghost var Yielded: seq<Token>

    ghost predicate Valid()
      reads this
    {
      cursor <= |txt| && Yielded + TokensFrom(txt, cursor) == Tokens(txt)
    }

    /** The tokens still to come. */
    ghost function Remaining(): seq<Token>
      reads this
      requires cursor <= |txt|
    {
      TokensFrom(txt, cursor)
    }

    constructor (txt: string)
      ensures Valid() && this.txt == txt && Yielded == []
    {
      this.txt := txt;
      cursor := 0;
      Yielded := [];
    }

    /** One pull on the generator: the next token, or None once it is done. */
    method NextToken() returns (token: Option<Token>)
      requires Valid()
      modifies this
      ensures Valid()
      ensures token.None? <==> old(Remaining()) == []
      ensures token.Some? ==> token.value == old(Remaining())[0] && Yielded == old(Yielded) + [token.value]
      ensures token.None? ==> Yielded == old(Yielded) && Remaining() == []
    {
      var nextValue := if cursor < |txt| then Next(txt, cursor) else None;
      if nextValue.Some? {
        var step := nextValue.value;
        ghost var rest := TokensFrom(txt, step.cursor);
        assert TokensFrom(txt, cursor) == [step.token] + rest;
        assert (Yielded + [step.token]) + rest == Yielded + ([step.token] + rest);
        cursor := step.cursor;
        Yielded := Yielded + [step.token];
        token := Some(step.token);
      } else {
        assert TokensFrom(txt, cursor) == [];
        token := None;
      }
    }
  }

  /** Drains a fresh generator into a sequence. */
  method GenerateAll(txt: string) returns (tokens: seq<Token>)
    ensures tokens == Tokens(txt)
  {
    var generator := new TokenGenerator(txt);
    tokens := [];
    while true
      invariant generator.Valid() && generator.txt == txt && tokens == generator.Yielded
      invariant |tokens| <= |Tokens(txt)|
      decreases |Tokens(txt)| - |tokens|
    {
      var token := generator.NextToken();
      if token.None? {
        break;
      }
      tokens := tokens + [token.value];
    }
  }

  /** The eager and the lazy entry point produce the same tokens, positions included. */
  method TokenizeMatchesGenerator(txt: string) returns (eager: seq<Token>, lazy: seq<Token>)
    ensures eager == lazy
  {
    eager := Tokenize(txt);
    lazy := GenerateAll(txt);
  }
}
