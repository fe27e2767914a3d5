/** What the token sequence of a text looks like: the tokens tile the text in order with
    only whitespace between them, their values put together give back the text without its
    whitespace, and each kind of lexeme is classified by the rule that comes first in the table. */
module TokenizerProperties {
  import opened Tokenizer

  // ---------------------------------------------------------------------------
  // What one rule matches

  /** Every character of a maximal run is in the class. */
  lemma {:induction false} RunInClass(txt: string, i: nat, cls: CharClass)
    requires i <= |txt|
    decreases |txt| - i
    ensures forall k :: i <= k < i + RunLength(txt, i, cls) ==> InClass(txt[k], cls)
  {
    if i < |txt| && InClass(txt[i], cls) {
      RunInClass(txt, i + 1, cls);
    }
  }

  /** The scheme consists of URL characters. */
  lemma SchemeIsUrlChars(txt: string, i: nat)
    ensures forall k :: i <= k < i + SchemeLength(txt, i) ==> IsUrlChar(txt[k])
  {
  }

  /** A URL match starts with its scheme, consists of URL characters, and runs to the end of
      the URL-character run. */
  lemma UrlShape(txt: string, i: nat)
    requires i <= |txt| && UrlLength(txt, i).Some?
    ensures Shaped(Url, txt[i..i + UrlLength(txt, i).value])
    ensures var n := UrlLength(txt, i).value; i + n == |txt| || !IsUrlChar(txt[i + n])
  {
    var s := SchemeLength(txt, i);
    var n := UrlLength(txt, i).value;
    var v := txt[i..i + n];
    assert forall k :: i <= k < i + n ==> IsUrlChar(txt[k]) by {
      SchemeIsUrlChars(txt, i);
      RunInClass(txt, i + s, UrlPath);
    }
    assert SchemeLength(v, 0) == s by {
      forall k | 0 <= k < s ensures v[k] == txt[i + k] { }
    }
    forall k | 0 <= k < n ensures IsUrlChar(v[k]) {
      assert v[k] == txt[i + k];
    }
  }

  /** What a pattern matches has the pattern's shape. */
  lemma MatchLengthShaped(p: Pattern, txt: string, i: nat)
    requires i <= |txt| && MatchLength(p, txt, i).Some?
    ensures Shaped(p, txt[i..i + MatchLength(p, txt, i).value])
  {
    var v := txt[i..i + MatchLength(p, txt, i).value];
    match p
    case Whitespace =>
      RunInClass(txt, i, Space);
      assert forall k :: 0 <= k < |v| ==> v[k] == txt[i + k];
    case Keyword(word) =>
      assert forall k :: 0 <= k < |v| ==> v[k] == txt[i + k];
    case Url => UrlShape(txt, i);
    case BareValue =>
      RunInClass(txt, i, Bare);
      assert forall k :: 0 <= k < |v| ==> v[k] == txt[i + k];
    case Literal(c) =>
  }

  /** A rule's token is the slice of the text at the cursor, of the rule's shape. */
  lemma MatchShaped(txt: string, cursor: nat, spec: TokenSpec)
    requires cursor <= |txt| && Match(txt, cursor, spec).Some?
    ensures var v := Match(txt, cursor, spec).value.value;
      txt[cursor..cursor + |v|] == v && Shaped(spec.pattern, v)
  {
    MatchLengthShaped(spec.pattern, txt, cursor);
    var v := Match(txt, cursor, spec).value.value;
    assert forall k :: 0 <= k < |v| ==> v[k] == txt[cursor + k];
  }

  // ---------------------------------------------------------------------------
  // What one call of `next` returns

  /** The text an emitted token may have, by its type. */
  predicate Lexeme(t: Token) {
    match t.tokenType
    case Null => false
    case Value => Shaped(Url, t.value) || Shaped(BareValue, t.value)
    case Colon => t.value == ":"
    case _ => Shaped(Keyword(KeywordOf(t.tokenType)), t.value)
  }

  /** `next` emitted `step` for the text from `cursor` on: only whitespace is skipped before the
      token, the token is a non-empty verbatim slice of its type's shape, the cursor lands after it. */
  predicate Emitted(txt: string, cursor: nat, step: NextValue) {
    var t := step.token;
    && cursor <= t.position
    && step.cursor == t.position + |t.value| <= |txt|
    && |t.value| > 0
    && Blank(txt, cursor, t.position)
    && txt[t.position..step.cursor] == t.value
    && Lexeme(t)
  }

  /** Some rule matches wherever any text is left. */
  lemma SomeRuleMatches(txt: string, cursor: nat)
    requires cursor < |txt|
    ensures FirstMatch(txt, cursor, 0).Some?
  {
    var i := FirstMatchIsFirst(txt, cursor, 0);
    var c := txt[cursor];
    if IsSpace(c) {
      assert RunLength(txt, cursor, Space) > 0;
      assert Match(txt, cursor, Spec(0)).Some?;
    } else if c == ':' {
      assert Match(txt, cursor, Spec(9)).Some?;
    } else {
      assert RunLength(txt, cursor, Bare) > 0;
      assert Match(txt, cursor, Spec(7)).Some?;
    }
  }

  lemma RuleGivesLexeme(i: nat, t: Token)
    requires 1 <= i < SpecCount && t.tokenType == Spec(i).tokenType && Shaped(Spec(i).pattern, t.value)
    ensures Lexeme(t)
  {
    if i == 8 {
      assert t.value == ['*'];
      assert IsBareChar('*');
    }
  }

  /** `next` returns nothing exactly when only whitespace is left. */
  lemma {:induction false} NextNoneIffBlank(txt: string, cursor: nat)
    requires cursor <= |txt|
    decreases |txt| - cursor
    ensures Next(txt, cursor).None? <==> Blank(txt, cursor, |txt|)
  {
    if cursor < |txt| {
      SomeRuleMatches(txt, cursor);
      var i := FirstMatchIsFirst(txt, cursor, 0);
      var token := FirstMatch(txt, cursor, 0).value;
      var after := cursor + |token.value|;
      if i == 0 {
        NextSkips(txt, cursor, token);
        SkippedRunIsBlank(txt, cursor, token);
        NextNoneIffBlank(txt, after);
      } else {
        NextTakes(txt, cursor, token);
        assert !IsSpace(txt[cursor]) by {
          assert RunLength(txt, cursor, Space) == 0;
        }
      }
    }
  }

  /** What `next` emits: only whitespace is skipped before the token, the token is a
      non-empty verbatim slice of the shape of its type, and the cursor lands just after it. */
  lemma {:induction false} NextEmits(txt: string, cursor: nat)
    requires cursor <= |txt| && Next(txt, cursor).Some?
    decreases |txt| - cursor
    ensures Emitted(txt, cursor, Next(txt, cursor).value)
  {
    var i := FirstMatchIsFirst(txt, cursor, 0);
    var token := FirstMatch(txt, cursor, 0).value;
    var after := cursor + |token.value|;
    if i == 0 {
      assert Next(txt, cursor) == Next(txt, after) && Blank(txt, cursor, after) by {
        NextSkips(txt, cursor, token);
        SkippedRunIsBlank(txt, cursor, token);
      }
      NextEmits(txt, after);
      EmittedPastBlank(txt, cursor, after, Next(txt, after).value);
    } else {
      assert Next(txt, cursor) == Some(NextValue(token, after)) by {
        NextTakes(txt, cursor, token);
      }
      MatchShaped(txt, cursor, Spec(i));
      RuleGivesLexeme(i, token);
    }
  }

  /** Whitespace in front of what is emitted from `after` is skipped too. */
  lemma EmittedPastBlank(txt: string, cursor: nat, after: nat, step: NextValue)
    requires cursor <= after <= |txt| && Blank(txt, cursor, after) && Emitted(txt, after, step)
    ensures Emitted(txt, cursor, step)
  {
  }

  lemma SkippedRunIsBlank(txt: string, cursor: nat, token: Token)
    requires cursor <= |txt| && Match(txt, cursor, Spec(0)) == Some(token)
    ensures Blank(txt, cursor, cursor + |token.value|)
  {
    MatchShaped(txt, cursor, Spec(0));
    forall k | cursor <= k < cursor + |token.value| ensures IsSpace(txt[k]) {
      assert txt[k] == token.value[k - cursor];
    }
  }

  /** Offset just past the token's text. */
  function End(t: Token): nat {
    t.position + |t.value|
  }

  /** `toks` tiles `txt[from..]`: each token is a non-empty verbatim slice of its type's shape,
      they come in order, and everything not covered by a token is whitespace. */
  ghost predicate Laid(txt: string, from: nat, toks: seq<Token>)
    requires from <= |txt|
    decreases |toks|
  {
    if toks == [] then Blank(txt, from, |txt|)
    else
      var t := toks[0];
      && from <= t.position
      && End(t) <= |txt|
      && |t.value| > 0
      && Blank(txt, from, t.position)
      && txt[t.position..End(t)] == t.value
      && Lexeme(t)
      && Laid(txt, End(t), toks[1..])
  }

  lemma {:induction false} TokensFromLaid(txt: string, cursor: nat)
    requires cursor <= |txt|
    ensures Laid(txt, cursor, TokensFrom(txt, cursor))
    decreases |txt| - cursor
  {
    if cursor < |txt| {
      match Next(txt, cursor)
      case None =>
        NextNoneIffBlank(txt, cursor);
      case Some(step) =>
        NextEmits(txt, cursor);
        TokensFromLaid(txt, step.cursor);
        assert TokensFrom(txt, cursor)[1..] == TokensFrom(txt, step.cursor);
    }
  }

  /** Every token of `txt` is a non-empty slice of the text, of the shape its type admits, and
      never of the whitespace kind; the tokens lie in order without overlapping, and only
      whitespace comes before the first, between two neighbours and after the last. */
  lemma TokensTileInput(txt: string)
    ensures Tiles(txt, Tokens(txt))
  {
    TokensFromLaid(txt, 0);
    LaidTiles(txt, Tokens(txt));
  }

  /** `toks` tiles all of `txt`, stated token by token. */
  ghost predicate Tiles(txt: string, toks: seq<Token>) {
    && Verbatim(txt, toks)
    && InOrder(toks)
    && GapsBlank(txt, toks)
    && EdgesBlank(txt, toks)
  }

  /** Each token is a non-empty slice of the text, of a shape its (emitted) type admits. */
  ghost predicate Verbatim(txt: string, toks: seq<Token>) {
    forall k :: 0 <= k < |toks| ==>
      && 0 < |toks[k].value|
      && End(toks[k]) <= |txt|
      && txt[toks[k].position..End(toks[k])] == toks[k].value
      && toks[k].tokenType != Null
      && Lexeme(toks[k])
  }

  /** No token starts before an earlier one ends. */
  ghost predicate InOrder(toks: seq<Token>) {
    forall j, k :: 0 <= j < k < |toks| ==> End(toks[j]) <= toks[k].position
  }

  /** Only whitespace lies between neighbouring tokens. */
  ghost predicate GapsBlank(txt: string, toks: seq<Token>) {
    forall j, k :: 0 <= j && k == j + 1 && k < |toks| ==>
      End(toks[j]) <= toks[k].position <= |txt| && Blank(txt, End(toks[j]), toks[k].position)
  }

  /** Only whitespace lies before the first token and after the last, or in all of the text
      when there is no token. */
  ghost predicate EdgesBlank(txt: string, toks: seq<Token>) {
    && (toks == [] ==> Blank(txt, 0, |txt|))
    && (toks != [] ==> toks[0].position <= |txt| && Blank(txt, 0, toks[0].position))
    && (toks != [] ==> End(toks[|toks| - 1]) <= |txt| && Blank(txt, End(toks[|toks| - 1]), |txt|))
  }

  lemma LaidTiles(txt: string, toks: seq<Token>)
    requires Laid(txt, 0, toks)
    ensures Tiles(txt, toks)
  {
    LaidVerbatim(txt, toks);
    LaidInOrder(txt, toks);
    LaidGapsBlank(txt, toks);
    LaidEdgesBlank(txt, toks);
  }

  lemma LaidVerbatim(txt: string, toks: seq<Token>)
    requires Laid(txt, 0, toks)
    ensures Verbatim(txt, toks)
  {
    forall k | 0 <= k < |toks|
      ensures 0 < |toks[k].value| && End(toks[k]) <= |txt| && txt[toks[k].position..End(toks[k])] == toks[k].value
      ensures Lexeme(toks[k])
    {
      LaidAt(txt, 0, toks, k);
    }
  }

  lemma LaidInOrder(txt: string, toks: seq<Token>)
    requires Laid(txt, 0, toks)
    ensures InOrder(toks)
  {
    forall j, k | 0 <= j < k < |toks| ensures End(toks[j]) <= toks[k].position {
      LaidAt(txt, 0, toks, j);
      LaidAt(txt, End(toks[j]), toks[j + 1..], k - j - 1);
      assert toks[j + 1..][k - j - 1] == toks[k];
    }
  }

  lemma LaidGapsBlank(txt: string, toks: seq<Token>)
    requires Laid(txt, 0, toks)
    ensures GapsBlank(txt, toks)
  {
    forall j, k | 0 <= j && k == j + 1 && k < |toks|
      ensures End(toks[j]) <= toks[k].position <= |txt| && Blank(txt, End(toks[j]), toks[k].position)
    {
      LaidAt(txt, 0, toks, j);
      assert toks[j + 1..][0] == toks[k];
    }
  }

  lemma LaidEdgesBlank(txt: string, toks: seq<Token>)
    requires Laid(txt, 0, toks)
    ensures EdgesBlank(txt, toks)
  {
    if toks != [] {
      LaidAt(txt, 0, toks, |toks| - 1);
    }
  }

  /** The k-th token of a tiling lies after `from`, and what follows it is again a tiling. */
  lemma {:induction false} LaidAt(txt: string, from: nat, toks: seq<Token>, k: nat)
    requires from <= |txt| && Laid(txt, from, toks) && k < |toks|
    ensures from <= toks[k].position && End(toks[k]) <= |txt| && 0 < |toks[k].value|
    ensures txt[toks[k].position..End(toks[k])] == toks[k].value && Lexeme(toks[k])
    ensures Laid(txt, End(toks[k]), toks[k + 1..])
    decreases k
  {
    if k > 0 {
      LaidAt(txt, End(toks[0]), toks[1..], k - 1);
      assert toks[1..][k - 1] == toks[k];
      assert toks[1..][k..] == toks[k + 1..];
    }
  }

  /** Empty and whitespace-only texts, and only those, give no tokens. */
  lemma BlankIffNoTokens(txt: string)
    ensures Tokens(txt) == [] <==> Blank(txt, 0, |txt|)
  {
    NextNoneIffBlank(txt, 0);
    if |txt| > 0 && Next(txt, 0).Some? {
      assert Tokens(txt) != [];
    }
  }

  // ---------------------------------------------------------------------------
  // Token values spell the text with its whitespace taken out

  /** `s` without its whitespace characters. */
  function Stripped(s: string): string {
    if s == [] then [] else (if IsSpace(s[0]) then [] else [s[0]]) + Stripped(s[1..])
  }

  /** The token values, one after another. */
  function Spelling(toks: seq<Token>): string {
    if toks == [] then [] else toks[0].value + Spelling(toks[1..])
  }

  lemma {:induction false} StrippedAppend(a: string, b: string)
    ensures Stripped(a + b) == Stripped(a) + Stripped(b)
    decreases |a|
  {
    if a == [] {
      assert a + b == b;
    } else {
      StrippedAppend(a[1..], b);
      assert (a + b)[0] == a[0];
      assert (a + b)[1..] == a[1..] + b;
    }
  }

  lemma {:induction false} StrippedBlank(s: string)
    requires forall k :: 0 <= k < |s| ==> IsSpace(s[k])
    ensures Stripped(s) == []
    decreases |s|
  {
    if s != [] {
      StrippedBlank(s[1..]);
    }
  }

  lemma {:induction false} StrippedSolid(s: string)
    requires forall k :: 0 <= k < |s| ==> !IsSpace(s[k])
    ensures Stripped(s) == s
    decreases |s|
  {
    if s != [] {
      StrippedSolid(s[1..]);
      assert [s[0]] + s[1..] == s;
    }
  }

  lemma LexemeIsSolid(t: Token)
    requires Lexeme(t)
    ensures forall k :: 0 <= k < |t.value| ==> !IsSpace(t.value[k])
  {
    if IsKeywordType(t.tokenType) {
      KeywordLetters(t.tokenType);
      FoldedIsSolid(KeywordOf(t.tokenType), t.value);
    }
  }

  /** The keywords are spelt with lower-case letters and hyphens. */
  lemma KeywordLetters(t: TokenType)
    requires IsKeywordType(t)
    ensures forall k :: 0 <= k < |KeywordOf(t)| ==> KeywordOf(t)[k] == '-' || 'a' <= KeywordOf(t)[k] <= 'z'
  {
  }

  /** Text that folds to a word of letters and hyphens holds no whitespace. */
  lemma FoldedIsSolid(word: string, v: string)
    requires forall k :: 0 <= k < |word| ==> word[k] == '-' || 'a' <= word[k] <= 'z'
    requires FoldedEqual(word, v)
    ensures forall k :: 0 <= k < |v| ==> !IsSpace(v[k])
  {
    forall k | 0 <= k < |v| ensures !IsSpace(v[k]) {
      assert LowerAscii(v[k]) == word[k];
    }
  }

  lemma {:induction false} LaidSpelling(txt: string, from: nat, toks: seq<Token>)
    requires from <= |txt| && Laid(txt, from, toks)
    ensures Spelling(toks) == Stripped(txt[from..])
    decreases |toks|
  {
    if toks == [] {
      StrippedBlank(txt[from..]);
    } else {
      var t := toks[0];
      LaidSpelling(txt, End(t), toks[1..]);
      LexemeIsSolid(t);
      StripToken(txt, from, t);
    }
  }

  /** Whitespace, then a word without whitespace, then anything: stripping keeps the word
      and strips the rest. */
  lemma StrippedSplice(gap: string, word: string, rest: string)
    requires forall k :: 0 <= k < |gap| ==> IsSpace(gap[k])
    requires forall k :: 0 <= k < |word| ==> !IsSpace(word[k])
    ensures Stripped(gap + (word + rest)) == word + Stripped(rest)
  {
    assert Stripped(gap) == [] by {
      StrippedBlank(gap);
    }
    assert Stripped(word) == word by {
      StrippedSolid(word);
    }
    assert Stripped(word + rest) == word + Stripped(rest) by {
      StrippedAppend(word, rest);
    }
    StrippedAppend(gap, word + rest);
  }

  /** One step of the tiling: the gap before a token strips to nothing, a token without
      whitespace to itself. */
  lemma StripToken(txt: string, from: nat, t: Token)
    requires from <= t.position && End(t) <= |txt| && Blank(txt, from, t.position)
    requires txt[t.position..End(t)] == t.value
    requires forall k :: 0 <= k < |t.value| ==> !IsSpace(t.value[k])
    ensures Stripped(txt[from..]) == t.value + Stripped(txt[End(t)..])
  {
    var gap := txt[from..t.position];
    var rest := txt[End(t)..];
    assert forall k :: 0 <= k < |gap| ==> IsSpace(gap[k]) by {
      assert forall k :: 0 <= k < |gap| ==> gap[k] == txt[from + k];
    }
    assert txt[from..] == gap + (t.value + rest);
    StrippedSplice(gap, t.value, rest);
  }

  /** Put together, the token values are exactly the text with its whitespace removed:
      tokenizing never stops early and drops nothing but whitespace. */
  lemma TokensSpellStrippedInput(txt: string)
    ensures Spelling(Tokens(txt)) == Stripped(txt)
  {
    TokensFromLaid(txt, 0);
    LaidSpelling(txt, 0, Tokens(txt));
    assert txt[0..] == txt;
  }

  // ---------------------------------------------------------------------------
  // Which rule wins

  /** The match the `for` loop settles on is that of a rule after which every earlier rule
      fails; when there is none, every rule fails. */
  lemma {:induction false} FirstMatchIsFirst(txt: string, cursor: nat, from: nat) returns (i: nat)
    requires cursor <= |txt| && from <= SpecCount
    decreases SpecCount - from
    ensures from <= i <= SpecCount
    ensures forall j :: from <= j < i ==> Match(txt, cursor, Spec(j)).None?
    ensures i < SpecCount <==> FirstMatch(txt, cursor, from).Some?
    ensures i < SpecCount ==> FirstMatch(txt, cursor, from) == Match(txt, cursor, Spec(i))
  {
    if from == SpecCount || Match(txt, cursor, Spec(from)).Some? {
      i := from;
    } else {
      i := FirstMatchIsFirst(txt, cursor, from + 1);
    }
  }

  /** Conversely, the match of a rule that comes after rules that all fail is the one chosen. */
  lemma {:induction false} FirstMatchFrom(txt: string, cursor: nat, from: nat, i: nat)
    requires cursor <= |txt| && from <= i < SpecCount
    requires Match(txt, cursor, Spec(i)).Some?
    requires forall j :: from <= j < i ==> Match(txt, cursor, Spec(j)).None?
    decreases i - from
    ensures FirstMatch(txt, cursor, from) == Match(txt, cursor, Spec(i))
  {
    if from < i {
      assert Match(txt, cursor, Spec(from)).None?;
      FirstMatchFrom(txt, cursor, from + 1, i);
    } else {
      assert Match(txt, cursor, Spec(from)).Some?;
    }
  }

  lemma FirstMatchIs(txt: string, cursor: nat, i: nat)
    requires cursor <= |txt| && i < SpecCount
    requires Match(txt, cursor, Spec(i)).Some?
    requires forall j :: 0 <= j < i ==> Match(txt, cursor, Spec(j)).None?
    ensures FirstMatch(txt, cursor, 0) == Match(txt, cursor, Spec(i))
  {
    FirstMatchFrom(txt, cursor, 0, i);
  }

  /** Index of a directive's rule in the table. */
  function RuleIndex(t: TokenType): (i: nat)
    requires IsKeywordType(t)
    ensures 1 <= i <= 5 && Spec(i) == TokenSpec(Keyword(KeywordOf(t)), t)
  {
    match t
    case UserAgent => 1
    case Disallow => 2
    case Allow => 3
    case CrawlDelay => 4
    case Sitemap => 5
  }

  /** A character that is not an ASCII letter cannot start a keyword, whatever its case. */
  lemma KeywordsNeedLetter(txt: string, cursor: nat)
    requires cursor < |txt| && !IsLetter(txt[cursor])
    ensures forall j :: 1 <= j <= 5 ==> Match(txt, cursor, Spec(j)).None?
  {
    var c := txt[cursor];
    assert LowerAscii(c) == c;
    forall j | 1 <= j <= 5 ensures Match(txt, cursor, Spec(j)).None? {
      var word := Spec(j).pattern.word;
      assert IsLetter(word[0]);
    }
  }

  /** A keyword at the cursor, in any mix of letter cases, is matched by its own rule first;
      the keywords start with different letters, so no earlier keyword rule can take it. */
  lemma KeywordMatch(txt: string, cursor: nat, t: TokenType)
    requires cursor <= |txt| && IsKeywordType(t) && FoldedAt(KeywordOf(t), txt, cursor)
    ensures var n := |KeywordOf(t)|;
      cursor + n <= |txt| && FirstMatch(txt, cursor, 0) == Some(Token(t, txt[cursor..][..n], cursor))
  {
    var word := KeywordOf(t);
    var i := RuleIndex(t);
    var c := txt[cursor];
    assert LowerAscii(c) == word[0];
    assert IsLetter(c);
    assert Match(txt, cursor, Spec(0)).None?;
    forall j | 1 <= j < i ensures Match(txt, cursor, Spec(j)).None? {
      assert Spec(j).pattern.word[0] != word[0];
    }
    FirstMatchIs(txt, cursor, i);
  }

  /** ... and `next` emits it as its directive's token, in its original spelling. */
  lemma KeywordToken(txt: string, cursor: nat, t: TokenType)
    requires cursor <= |txt| && IsKeywordType(t) && FoldedAt(KeywordOf(t), txt, cursor)
    ensures var n := |KeywordOf(t)|;
      cursor + n <= |txt| &&
      Next(txt, cursor) == Some(NextValue(Token(t, txt[cursor..][..n], cursor), cursor + n))
  {
    KeywordMatch(txt, cursor, t);
    NextTakes(txt, cursor, FirstMatch(txt, cursor, 0).value);
  }

  /** A lone `:` becomes a colon token. */
  lemma ColonToken(txt: string, cursor: nat)
    requires cursor < |txt| && txt[cursor] == ':'
    ensures Next(txt, cursor) == Some(NextValue(Token(Colon, ":", cursor), cursor + 1))
  {
    ColonMatch(txt, cursor);
    NextTakes(txt, cursor, Token(Colon, ":", cursor));
  }

  lemma ColonMatch(txt: string, cursor: nat)
    requires cursor < |txt| && txt[cursor] == ':'
    ensures FirstMatch(txt, cursor, 0) == Some(Token(Colon, ":", cursor))
  {
    ColonEscapesEarlierRules(txt, cursor);
    assert Match(txt, cursor, Spec(9)) == Some(Token(Colon, ":", cursor)) by {
      assert txt[cursor..][..1] == ":";
    }
    FirstMatchIs(txt, cursor, 9);
  }

  lemma ColonEscapesEarlierRules(txt: string, cursor: nat)
    requires cursor < |txt| && txt[cursor] == ':'
    ensures forall j :: 0 <= j < 9 ==> Match(txt, cursor, Spec(j)).None?
  {
    KeywordsNeedLetter(txt, cursor);
    assert RunLength(txt, cursor, Space) == 0;
    assert RunLength(txt, cursor, Bare) == 0;
    assert SchemeLength(txt, cursor) == 0;
  }

  /** An `http://` or `https://` URL is captured whole as one value, colons and slashes
      included, up to the first character the URL pattern's path part does not allow (where
      that run ends is stated by `UrlShape`). */
  lemma UrlToken(txt: string, cursor: nat, n: nat)
    requires cursor <= |txt| && UrlLength(txt, cursor) == Some(n)
    ensures cursor + n <= |txt|
    ensures Next(txt, cursor) == Some(NextValue(Token(Value, txt[cursor..][..n], cursor), cursor + n))
  {
    UrlMatch(txt, cursor, n);
    NextTakes(txt, cursor, Token(Value, txt[cursor..][..n], cursor));
  }

  lemma UrlMatch(txt: string, cursor: nat, n: nat)
    requires cursor <= |txt| && UrlLength(txt, cursor) == Some(n)
    ensures cursor + n <= |txt| && FirstMatch(txt, cursor, 0) == Some(Token(Value, txt[cursor..][..n], cursor))
  {
    UrlEscapesEarlierRules(txt, cursor);
    FirstMatchIs(txt, cursor, 6);
  }

  lemma UrlEscapesEarlierRules(txt: string, cursor: nat)
    requires cursor <= |txt| && UrlLength(txt, cursor).Some?
    ensures forall j :: 0 <= j < 6 ==> Match(txt, cursor, Spec(j)).None?
  {
    assert txt[cursor] == 'h' && LowerAscii('h') == 'h';
    assert RunLength(txt, cursor, Space) == 0;
    forall j | 1 <= j < 6 ensures Match(txt, cursor, Spec(j)).None? {
      assert Spec(j).pattern.word[0] != 'h';
    }
  }

  /** Where no keyword and no URL starts, a character other than whitespace and `:` begins a
      generic value: the longest run of characters that are neither, ended by a `:`, by
      whitespace or by the end of the text. */
  lemma BareValueToken(txt: string, cursor: nat)
    requires cursor < |txt| && !IsSpace(txt[cursor]) && txt[cursor] != ':'
    requires forall t :: IsKeywordType(t) ==> !FoldedAt(KeywordOf(t), txt, cursor)
    requires UrlLength(txt, cursor).None?
    ensures var n := RunLength(txt, cursor, Bare);
      && 0 < n && cursor + n <= |txt|
      && Next(txt, cursor) == Some(NextValue(Token(Value, txt[cursor..][..n], cursor), cursor + n))
      && (cursor + n == |txt| || txt[cursor + n] == ':' || IsSpace(txt[cursor + n]))
  {
    var n := RunLength(txt, cursor, Bare);
    BareValueMatch(txt, cursor);
    NextTakes(txt, cursor, Token(Value, txt[cursor..][..n], cursor));
  }

  lemma BareValueMatch(txt: string, cursor: nat)
    requires cursor < |txt| && !IsSpace(txt[cursor]) && txt[cursor] != ':'
    requires forall t :: IsKeywordType(t) ==> !FoldedAt(KeywordOf(t), txt, cursor)
    requires UrlLength(txt, cursor).None?
    ensures var n := RunLength(txt, cursor, Bare);
      0 < n && FirstMatch(txt, cursor, 0) == Some(Token(Value, txt[cursor..][..n], cursor))
  {
    BareValueEscapesEarlierRules(txt, cursor);
    BareValueRuleMatches(txt, cursor);
    FirstMatchIs(txt, cursor, 7);
  }

  lemma BareValueRuleMatches(txt: string, cursor: nat)
    requires cursor < |txt| && !IsSpace(txt[cursor]) && txt[cursor] != ':'
    ensures var n := RunLength(txt, cursor, Bare);
      0 < n && Match(txt, cursor, Spec(7)) == Some(Token(Value, txt[cursor..][..n], cursor))
  {
    var n := RunLength(txt, cursor, Bare);
    assert MatchLength(BareValue, txt, cursor) == Some(n);
    MatchIs(txt, cursor, Spec(7), n);
  }

  /** A rule whose pattern matches `n` characters yields those characters as its token. */
  lemma MatchIs(txt: string, cursor: nat, spec: TokenSpec, n: nat)
    requires cursor <= |txt| && MatchLength(spec.pattern, txt, cursor) == Some(n)
    ensures cursor + n <= |txt| && Match(txt, cursor, spec) == Some(Token(spec.tokenType, txt[cursor..][..n], cursor))
  {
  }

  lemma BareValueEscapesEarlierRules(txt: string, cursor: nat)
    requires cursor < |txt| && !IsSpace(txt[cursor])
    requires forall t :: IsKeywordType(t) ==> !FoldedAt(KeywordOf(t), txt, cursor)
    requires UrlLength(txt, cursor).None?
    ensures forall j :: 0 <= j < 7 ==> Match(txt, cursor, Spec(j)).None?
  {
    assert Match(txt, cursor, Spec(0)).None? by {
      assert RunLength(txt, cursor, Space) == 0;
    }
    assert Match(txt, cursor, Spec(6)).None?;
    NoKeywordRuleMatches(txt, cursor);
  }

  lemma NoKeywordRuleMatches(txt: string, cursor: nat)
    requires cursor <= |txt|
    requires forall t :: IsKeywordType(t) ==> !FoldedAt(KeywordOf(t), txt, cursor)
    ensures forall j :: 1 <= j <= 5 ==> Match(txt, cursor, Spec(j)).None?
  {
    forall j | 1 <= j <= 5 ensures Match(txt, cursor, Spec(j)).None? {
      assert RuleIndex(Spec(j).tokenType) == j;
    }
  }

  /** Wherever the `*` rule matches, the generic value rule before it matches too, a `*` being
      a generic value character ... */
  lemma StarRuleShadowed(txt: string, cursor: nat)
    requires cursor <= |txt|
    ensures Match(txt, cursor, Spec(8)).Some? ==> Match(txt, cursor, Spec(7)).Some?
  {
    if Match(txt, cursor, Spec(8)).Some? {
      assert txt[cursor] == '*';
      assert RunLength(txt, cursor, Bare) > 0;
    }
  }

  /** ... so the `*` rule never wins. */
  lemma StarRuleUnreachable(txt: string, cursor: nat, i: nat)
    requires cursor <= |txt| && i < SpecCount && Match(txt, cursor, Spec(i)).Some?
    requires forall j :: 0 <= j < i ==> Match(txt, cursor, Spec(j)).None?
    ensures i != 8
  {
    StarRuleShadowed(txt, cursor);
  }

  /** Whitespace at the cursor is skipped and matching restarts after the run. */
  lemma SpaceSkipped(txt: string, cursor: nat)
    requires cursor < |txt| && IsSpace(txt[cursor])
    ensures var n := RunLength(txt, cursor, Space);
      0 < n && cursor + n <= |txt| && Next(txt, cursor) == Next(txt, cursor + n)
  {
    var n := RunLength(txt, cursor, Space);
    SpaceMatch(txt, cursor);
    NextSkips(txt, cursor, Token(Null, txt[cursor..][..n], cursor));
  }

  lemma SpaceMatch(txt: string, cursor: nat)
    requires cursor < |txt| && IsSpace(txt[cursor])
    ensures var n := RunLength(txt, cursor, Space);
      0 < n && cursor + n <= |txt| && FirstMatch(txt, cursor, 0) == Some(Token(Null, txt[cursor..][..n], cursor))
  {
    assert RunLength(txt, cursor, Space) > 0;
    FirstMatchIs(txt, cursor, 0);
  }

  /** One step of the token loop: a token `next` emits is followed by the tokens after it. */
  lemma TokensFromStep(txt: string, cursor: nat, token: Token, after: nat)
    requires cursor < |txt| && after <= |txt|
    requires Next(txt, cursor) == Some(NextValue(token, after))
    ensures TokensFrom(txt, cursor) == [token] + TokensFrom(txt, after)
  {
  }

  /** `User-agent: *` gives a user-agent keyword at 0, a colon at 10 and the value `*` at 12. */
  lemma UserAgentStarTokens(txt: string)
    requires txt == "User-agent: *"
    ensures Tokens(txt) ==
      [Token(UserAgent, "User-agent", 0), Token(Colon, ":", 10), Token(Value, "*", 12)]
  {
    assert FoldedAt(KeywordOf(UserAgent), txt, 0);
    KeywordToken(txt, 0, UserAgent);
    assert |KeywordOf(UserAgent)| == 10 && txt[0..][..10] == "User-agent";
    TokensFromStep(txt, 0, Token(UserAgent, "User-agent", 0), 10);
    ColonThenStar(txt);
  }

  lemma ColonThenStar(txt: string)
    requires txt == "User-agent: *"
    ensures TokensFrom(txt, 10) == [Token(Colon, ":", 10), Token(Value, "*", 12)]
  {
    ColonToken(txt, 10);
    TokensFromStep(txt, 10, Token(Colon, ":", 10), 11);
    StarAfterSpace(txt);
    TokensFromStep(txt, 11, Token(Value, "*", 12), 13);
  }

  lemma StarAfterSpace(txt: string)
    requires txt == "User-agent: *"
    ensures Next(txt, 11) == Some(NextValue(Token(Value, "*", 12), 13))
  {
    SpaceSkipped(txt, 11);
    assert RunLength(txt, 11, Space) == 1 by {
      assert RunLength(txt, 12, Space) == 0;
    }
    StarAtEnd(txt, 12);
  }

  /** A `*` closing the text is a value of its own. */
  lemma StarAtEnd(txt: string, cursor: nat)
    requires cursor + 1 == |txt| && txt[cursor] == '*'
    ensures Next(txt, cursor) == Some(NextValue(Token(Value, "*", cursor), cursor + 1))
  {
    forall t | IsKeywordType(t) ensures !FoldedAt(KeywordOf(t), txt, cursor) {
      assert LowerAscii(txt[cursor]) == '*';
    }
    assert RunLength(txt, cursor, Bare) == 1;
    assert txt[cursor..][..1] == "*";
    BareValueToken(txt, cursor);
  }
}
