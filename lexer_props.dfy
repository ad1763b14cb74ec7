/**
 * Properties of the lexer's specification (module Lexing): the shape of the
 * token sequence, where each token is located, how words are classified and
 * delimited, and which inputs are rejected.
 */
module LexerProperties {
  import opened Ast
  import opened Lexing

  // ---------------------------------------------------------------------------
  // The token sequence ends with exactly one EOF

  lemma {:induction false} NextTokenIsNotEof(sourceFile: string, raw: string, i: nat)
    requires i < |raw|
    ensures NextToken(sourceFile, raw, i).Ok? ==> NextToken(sourceFile, raw, i).value.0.kind != EOF
  {
  }

  /** `ts` extends `acc`, ends with `eof`, and holds no other `EOF` token. */
  predicate EndsWithEof(ts: seq<Token>, acc: seq<Token>, eof: Token)
  {
    && |ts| > |acc| && ts[..|acc|] == acc && ts[|ts| - 1] == eof
    && forall k :: 0 <= k < |ts| - 1 ==> ts[k].kind != EOF
  }

  lemma {:induction false} LexFromEndsWithEof(sourceFile: string, raw: string, i: nat, acc: seq<Token>)
    requires i <= |raw|
    requires forall k :: 0 <= k < |acc| ==> acc[k].kind != EOF
    ensures LexFrom(sourceFile, raw, i, acc).Ok? ==>
      EndsWithEof(LexFrom(sourceFile, raw, i, acc).value, acc, Token(EOF, "", LocAt(sourceFile, raw, |raw|)))
    decreases |raw| - i
  {
    var eof := Token(EOF, "", LocAt(sourceFile, raw, |raw|));
    var j := SkipWhitespace(raw, i);
    if j == |raw| {
      var ts := acc + [eof];
      assert LexFrom(sourceFile, raw, i, acc) == Ok(ts);
      assert ts[..|acc|] == acc;
    } else {
      NextTokenIsNotEof(sourceFile, raw, j);
      match NextToken(sourceFile, raw, j)
      case Err(_) =>
      case Ok((t, k)) =>
        assert LexFrom(sourceFile, raw, i, acc) == LexFrom(sourceFile, raw, k, acc + [t]);
        LexFromEndsWithEof(sourceFile, raw, k, acc + [t]);
        if LexFrom(sourceFile, raw, k, acc + [t]).Ok? {
          EndsWithEofDropLast(LexFrom(sourceFile, raw, k, acc + [t]).value, acc, t, eof);
        }
    }
  }

  lemma EndsWithEofDropLast(ts: seq<Token>, acc: seq<Token>, t: Token, eof: Token)
    requires EndsWithEof(ts, acc + [t], eof)
    ensures EndsWithEof(ts, acc, eof)
  {
    assert ts[..|acc|] == (ts[..|acc| + 1])[..|acc|];
  }

  /**
   * `lex` returns a sequence whose last token is an `EOF` with an empty word,
   * located at the end of the input, and no other token is an `EOF`.
   */
  lemma TokenizeEndsWithEof(sourceFile: string, raw: string)
    ensures Tokenize(sourceFile, raw).Ok? ==>
      var ts := Tokenize(sourceFile, raw).value;
      && |ts| >= 1
      && ts[|ts| - 1] == Token(EOF, "", LocAt(sourceFile, raw, |raw|))
      && forall k :: 0 <= k < |ts| - 1 ==> ts[k].kind != EOF
  {
    LexFromEndsWithEof(sourceFile, raw, 0, []);
  }

  // ---------------------------------------------------------------------------
  // Classification by the rule table

  /** `MatchRule` finds the first rule of the table whose init set holds `c`. */
  lemma MatchRuleIsFirst(c: char, k: nat)
    requires k <= |Config|
    ensures MatchRule(c, k).Some? <==> exists m :: k <= m < |Config| && Includes(Config[m].init, c)
    ensures MatchRule(c, k).Some? ==>
      exists m :: k <= m < |Config| && Config[m] == MatchRule(c, k).value
        && Includes(Config[m].init, c)
        && forall n :: k <= n < m ==> !Includes(Config[n].init, c)
  {
    MatchRuleFinds(c, k);
    MatchRuleFirst(c, k);
  }

  /** A rule is found exactly when some rule from `k` on starts with `c`. */
  lemma {:induction false} MatchRuleFinds(c: char, k: nat)
    requires k <= |Config|
    ensures MatchRule(c, k).Some? <==> exists m :: k <= m < |Config| && Includes(Config[m].init, c)
    decreases |Config| - k
  {
    if k < |Config| && !Includes(Config[k].init, c) {
      assert MatchRule(c, k) == MatchRule(c, k + 1);
      MatchRuleFinds(c, k + 1);
    }
  }

  /** The rule found is at some index `m` from `k` on, and no rule before `m` starts with `c`. */
  lemma {:induction false} MatchRuleFirst(c: char, k: nat)
    requires k <= |Config|
    ensures MatchRule(c, k).Some? ==>
      exists m :: k <= m < |Config| && Config[m] == MatchRule(c, k).value
        && Includes(Config[m].init, c)
        && forall n :: k <= n < m ==> !Includes(Config[n].init, c)
    decreases |Config| - k
  {
    if k == |Config| {
    } else {
      var r := Config[k];
      if Includes(r.init, c) {
        assert MatchRule(c, k) == Some(r);
        assert k <= k < |Config| && Config[k] == MatchRule(c, k).value && Includes(Config[k].init, c);
      } else {
        assert MatchRule(c, k) == MatchRule(c, k + 1);
        MatchRuleFirst(c, k + 1);
        if MatchRule(c, k).Some? {
          var m :| k + 1 <= m < |Config| && Config[m] == MatchRule(c, k + 1).value
            && Includes(Config[m].init, c)
            && forall n :: k + 1 <= n < m ==> !Includes(Config[n].init, c);
          assert forall n :: k <= n < m ==> !Includes(Config[n].init, c);
        }
      }
    }
  }

  /** No character starts two rules, so the order of the table does not decide anything. */
  lemma InitSetsAreDisjoint(c: char)
    ensures forall a, b :: 0 <= a < b < |Config| ==> !(Includes(Config[a].init, c) && Includes(Config[b].init, c))
  {
  }

  /** Hence a word's rule is the (only) rule whose init set holds its first character. */
  lemma MatchRuleIsTheRuleStartingWith(c: char, r: Rule)
    ensures MatchRule(c) == Some(r) <==> r in Config && Includes(r.init, c)
  {
    MatchRuleIsFirst(c, 0);
    InitSetsAreDisjoint(c);
    if r in Config && Includes(r.init, c) {
      var m :| 0 <= m < |Config| && Config[m] == MatchRule(c).value && Includes(Config[m].init, c);
      var n :| 0 <= n < |Config| && Config[n] == r;
      assert m == n;
    }
  }

  /**
   * A word token: its word is the longest run that starts with a character
   * of the rule's init set and continues in the rule's body set; its type is
   * `keyword` exactly when the word is one of fun/val/if/else and otherwise
   * that of the first rule; it is located where it starts.
   */
  lemma WordTokenIsMaximalMunch(raw: string, i: nat, loc: Location)
    requires i < |raw|
    ensures WordToken(raw, i, loc).Ok? <==> MatchRule(raw[i]).Some?
    ensures WordToken(raw, i, loc).Ok? ==>
      var (t, j) := WordToken(raw, i, loc).value;
      var rule := MatchRule(raw[i]).value;
      && t.word == raw[i..j] && t.loc == loc
      && Includes(rule.init, raw[i])
      && (forall k :: i < k < j ==> Includes(rule.body, raw[k]))
      && (j == |raw| || !Includes(rule.body, raw[j]))
      && (t.kind == Keyword <==> t.word in KeyWords)
      && (t.kind != Keyword ==> t.kind == rule.kind)
  {
  }

  /** Keywords are lower-case words, so without the keyword check they would be identifiers. */
  lemma KeywordsWouldBeIdentifiers(w: string)
    requires w in KeyWords
    ensures |w| > 0 && MatchRule(w[0]) == Some(Config[0]) && Config[0].kind == Identifier
    ensures forall k :: 1 <= k < |w| ==> Includes(Config[0].body, w[k])
  {
  }

  /** The symbol rule's body is empty: a symbol token is exactly one character. */
  lemma SymbolTokensAreOneCharacter(raw: string, i: nat, loc: Location)
    requires i < |raw| && Includes(Symbols, raw[i])
    ensures WordToken(raw, i, loc) == Ok((Token(Symbol, [raw[i]], loc), i + 1))
  {
    var rule := Config[3];
    assert MatchRule(raw[i]) == Some(rule);
    assert rule.kind == Symbol && rule.body == NoChars;
    assert WordEnd(raw, i + 1, NoChars) == i + 1;
    assert raw[i..i + 1] == [raw[i]];
    assert [raw[i]] !in KeyWords;
    assert WordToken(raw, i, loc) == Ok((Token(Symbol, [raw[i]], loc), i + 1));
  }

  /** Operators munch: `==` is one operator token, and so is `=-`. */
  lemma OperatorsMunch(raw: string, i: nat, loc: Location)
    requires i + 1 < |raw| && Includes(Operators, raw[i]) && Includes(Operators, raw[i + 1])
    ensures WordToken(raw, i, loc).Ok?
    ensures WordToken(raw, i, loc).value.0.kind == Operator
    ensures |WordToken(raw, i, loc).value.0.word| >= 2
  {
    var rule := Config[2];
    assert MatchRule(raw[i]) == Some(rule);
    assert rule.kind == Operator && rule.body == Operators;
    var j := WordEnd(raw, i + 1, Operators);
    assert j >= i + 2;
    var word := raw[i..j];
    assert |word| >= 2 && word[0] == raw[i];
    assert word !in KeyWords;
    assert WordToken(raw, i, loc) == Ok((Token(Operator, word, loc), j));
  }

  /**
   * A character that is not whitespace, not a quote and in no init set is
   * rejected with "Invalid character", located where it stands.
   */
  lemma InvalidCharacterIsRejected(sourceFile: string, raw: string, i: nat)
    requires i < |raw| && raw[i] != '"'
    ensures NextToken(sourceFile, raw, i).Err? <==>
      !(IsLower(raw[i]) || IsUpper(raw[i]) || IsDigit(raw[i])
        || Includes(Operators, raw[i]) || Includes(Symbols, raw[i]))
    ensures NextToken(sourceFile, raw, i).Err? ==>
      NextToken(sourceFile, raw, i).error
        == LocatedError(LocAt(sourceFile, raw, i), "Invalid character " + [raw[i]])
  {
  }

  /** `!` is in no init set, so `!=` cannot be lexed. */
  lemma NotEqualsIsRejected(sourceFile: string)
    ensures Tokenize(sourceFile, "!=") == Err(LocatedError(Location(sourceFile, 1, 1), "Invalid character !"))
  {
    var raw := "!=";
    assert SkipWhitespace(raw, 0) == 0;
    assert MatchRule('!') == None;
    assert LocAt(sourceFile, raw, 0) == Location(sourceFile, 1, 1);
  }

  // ---------------------------------------------------------------------------
  // String literals

  /**
   * A string literal's word is the text between its quotes, verbatim: no
   * escapes, the quotes excluded, newlines kept. Without a closing quote the
   * literal is rejected at its opening quote, and the message names the
   * position at the end of the input.
   */
  lemma StringLiteralIsVerbatim(raw: string, i: nat, loc: Location)
    requires i < |raw| && raw[i] == '"'
    ensures StringToken(raw, i, loc).Ok? <==> exists q :: i < q < |raw| && raw[q] == '"'
    ensures StringToken(raw, i, loc).Ok? ==>
      var (t, j) := StringToken(raw, i, loc).value;
      && t == Token(StringLiteral, raw[i + 1..j - 1], loc)
      && raw[j - 1] == '"'
      && '"' !in t.word
    ensures StringToken(raw, i, loc).Err? ==>
      var end := Position(raw, |raw|);
      StringToken(raw, i, loc).error == LocatedError(loc, "Unexpected EOF at "
        + Render(Location(loc.sourceFile, end.line, end.column)) + ". Unclosed string literal starting")
  {
    if QuoteIndex(raw, i + 1).Some? {
      ClosedStringLiteral(raw, i, loc);
    } else {
      assert forall k :: i < k < |raw| ==> raw[k] != '"';
    }
  }

  lemma ClosedStringLiteral(raw: string, i: nat, loc: Location)
    requires i < |raw| && raw[i] == '"' && QuoteIndex(raw, i + 1).Some?
    ensures StringToken(raw, i, loc).Ok?
    ensures var (t, j) := StringToken(raw, i, loc).value;
      && t == Token(StringLiteral, raw[i + 1..j - 1], loc)
      && raw[j - 1] == '"'
      && '"' !in t.word
  {
    var q := QuoteIndex(raw, i + 1).value;
    var w := raw[i + 1..q];
    assert StringToken(raw, i, loc) == Ok((Token(StringLiteral, w, loc), q + 1));
    assert forall k :: 0 <= k < |w| ==> w[k] == raw[i + 1 + k];
  }

  /** `"abc"` lexes to the string token `abc` at 1:1, then `EOF` at 1:6. */
  lemma QuotedAbc(sourceFile: string)
    ensures Tokenize(sourceFile, "\"abc\"") == Ok([
      Token(StringLiteral, "abc", Location(sourceFile, 1, 1)),
      Token(EOF, "", Location(sourceFile, 1, 6))])
  {
    var raw := "\"abc\"";
    var t := Token(StringLiteral, "abc", Location(sourceFile, 1, 1));
    var eof := Token(EOF, "", Location(sourceFile, 1, 6));
    assert SkipWhitespace(raw, 0) == 0;
    assert QuoteIndex(raw, 1) == Some(4);
    assert raw[1..4] == "abc";
    assert LocAt(sourceFile, raw, 0) == Location(sourceFile, 1, 1);
    assert NextToken(sourceFile, raw, 0) == Ok((t, 5));
    assert SkipWhitespace(raw, 5) == 5;
    assert Position(raw, 5) == Cursor(1, 6);
    assert LocAt(sourceFile, raw, 5) == Location(sourceFile, 1, 6);
    assert [t] + [eof] == [t, eof];
    assert LexFrom(sourceFile, raw, 5, [t]) == Ok([t, eof]);
    assert [] + [t] == [t];
    assert LexFrom(sourceFile, raw, 0, []) == LexFrom(sourceFile, raw, 5, [t]);
  }

  // ---------------------------------------------------------------------------
  // Without string literals, the words spell the text minus its whitespace

  function NonWhitespace(s: string): string
  {
    if s == [] then [] else NonWhitespace(s[..|s| - 1]) + (if IsWhitespace(s[|s| - 1]) then [] else [s[|s| - 1]])
  }

  function Spelling(ts: seq<Token>): string
  {
    if ts == [] then [] else Spelling(ts[..|ts| - 1]) + ts[|ts| - 1].word
  }

  lemma {:induction false} NonWhitespaceExtends(raw: string, i: nat, j: nat)
    requires i <= j <= |raw|
    ensures (forall k :: i <= k < j ==> IsWhitespace(raw[k])) ==> NonWhitespace(raw[..j]) == NonWhitespace(raw[..i])
    ensures (forall k :: i <= k < j ==> !IsWhitespace(raw[k])) ==> NonWhitespace(raw[..j]) == NonWhitespace(raw[..i]) + raw[i..j]
    decreases j - i
  {
    if i < j {
      NonWhitespaceExtends(raw, i, j - 1);
      assert raw[..j][..j - 1] == raw[..j - 1];
      assert raw[i..j] == raw[i..j - 1] + [raw[j - 1]];
    }
  }

  /** A word token holds no whitespace: it is `raw[i..j]` and all of it is visible. */
  lemma WordIsVisible(sourceFile: string, raw: string, i: nat)
    requires i < |raw| && raw[i] != '"' && !IsWhitespace(raw[i])
    requires NextToken(sourceFile, raw, i).Ok?
    ensures var (t, j) := NextToken(sourceFile, raw, i).value;
      t.word == raw[i..j] && forall k :: i <= k < j ==> !IsWhitespace(raw[k])
  {
    WordTokenIsMaximalMunch(raw, i, LocAt(sourceFile, raw, i));
    RuleCharsAreVisible();
  }

  lemma {:induction false} SpellingFrom(sourceFile: string, raw: string, i: nat, acc: seq<Token>)
    requires i <= |raw| && '"' !in raw
    requires Spelling(acc) == NonWhitespace(raw[..i])
    ensures LexFrom(sourceFile, raw, i, acc).Ok? ==>
      Spelling(LexFrom(sourceFile, raw, i, acc).value) == NonWhitespace(raw)
    decreases |raw| - i
  {
    var j := SkipWhitespace(raw, i);
    NonWhitespaceExtends(raw, i, j);
    if j == |raw| {
      assert raw[..j] == raw;
      var eof := Token(EOF, "", LocAt(sourceFile, raw, j));
      assert (acc + [eof])[..|acc|] == acc;
      assert Spelling(acc + [eof]) == Spelling(acc) + "";
    } else if NextToken(sourceFile, raw, j).Ok? {
      var (t, k) := NextToken(sourceFile, raw, j).value;
      assert raw[j] in raw;
      WordIsVisible(sourceFile, raw, j);
      NonWhitespaceExtends(raw, j, k);
      assert (acc + [t])[..|acc|] == acc;
      assert Spelling(acc + [t]) == NonWhitespace(raw[..k]);
      SpellingFrom(sourceFile, raw, k, acc + [t]);
      assert LexFrom(sourceFile, raw, i, acc) == LexFrom(sourceFile, raw, k, acc + [t]);
    }
  }

  /**
   * For a text without string literals, the tokens' words, in order, spell
   * the text with its whitespace removed: no character is lost, duplicated
   * or reordered, and no token holds whitespace.
   */
  lemma TokensSpellTheText(sourceFile: string, raw: string)
    requires '"' !in raw
    ensures Tokenize(sourceFile, raw).Ok? ==> Spelling(Tokenize(sourceFile, raw).value) == NonWhitespace(raw)
  {
    assert raw[..0] == [];
    SpellingFrom(sourceFile, raw, 0, []);
  }
}
