/**
 * The lexer (src/lexer.ts): a cursor over the raw text that skips
 * whitespace, classifies each word by an ordered rule table, extends it by
 * maximal munch and reads string literals verbatim.
 *
 * The first half defines what the lexer computes, as functions of the raw
 * text and a start index; the class `Lexer` below is the cursor itself, and
 * each of its methods is proved to compute what those functions say.
 */
module Lexing {
  import opened Ast

  // ---------------------------------------------------------------------------
  // Character classes and the rule table

  /**
   * The character sets of the rule table: `alphaLower`, `alphaUpper`,
   * `alphaAccess` (letters and '.'), `numericStart` (digits), `numeric`
   * ('.' and digits), `alphaNumeric`, `operators`, `symbols`, and the empty
   * body of the symbol rule.
   */
  datatype CharSet =
    | AlphaLower | AlphaUpper | AlphaAccess | NumericStart | Numeric | AlphaNumeric
    | Operators | Symbols | NoChars

  predicate IsLower(c: char) { 'a' <= c <= 'z' }
  predicate IsUpper(c: char) { 'A' <= c <= 'Z' }

  /** `set.includes(c)` for a single character `c`. */
  predicate Includes(s: CharSet, c: char)
  {
    match s
    case AlphaLower => IsLower(c)
    case AlphaUpper => IsUpper(c)
    case AlphaAccess => IsLower(c) || IsUpper(c) || c == '.'
    case NumericStart => IsDigit(c)
    case Numeric => c == '.' || IsDigit(c)
    case AlphaNumeric => IsDigit(c) || IsLower(c) || IsUpper(c)
    case Operators => c in {'<', '>', '=', '+', '-', '*', '/'}
    case Symbols => c in {'(', ')', '[', ']', '{', '}', ','}
    case NoChars => false
  }

  /** One row of the rule table: a word starting in `init` continues while in `body`. */
  datatype Rule = Rule(kind: TokenType, init: CharSet, body: CharSet)

  const Config: seq<Rule> := [
    Rule(Identifier, AlphaLower, AlphaNumeric),
    Rule(Module, AlphaUpper, AlphaAccess),
    Rule(Operator, Operators, Operators),
    Rule(Symbol, Symbols, NoChars),
    Rule(NumberLiteral, NumericStart, Numeric)
  ]

  const KeyWords: set<string> := {"fun", "val", "if", "else"}

  predicate IsWhitespace(c: char)
  {
    c in " \t\r" || c == '\n'
  }

  /** No character set holds whitespace or the double quote. */
  lemma CharSetIsVisible(s: CharSet, c: char)
    requires Includes(s, c)
    ensures !IsWhitespace(c) && c != '"'
  {
    match s
    case Operators => assert c in {'<', '>', '=', '+', '-', '*', '/'};
    case Symbols => assert c in {'(', ')', '[', ']', '{', '}', ','};
    case _ =>
  }

  /** No rule's init or body set holds whitespace or the double quote. */
  lemma RuleCharsAreVisible()
    ensures forall k, c :: 0 <= k < |Config| && Includes(Config[k].init, c) ==> !IsWhitespace(c) && c != '"'
    ensures forall k, c :: 0 <= k < |Config| && Includes(Config[k].body, c) ==> !IsWhitespace(c) && c != '"'
  {
    forall k, c | 0 <= k < |Config| && Includes(Config[k].init, c)
      ensures !IsWhitespace(c) && c != '"'
    {
      CharSetIsVisible(Config[k].init, c);
    }
    forall k, c | 0 <= k < |Config| && Includes(Config[k].body, c)
      ensures !IsWhitespace(c) && c != '"'
    {
      CharSetIsVisible(Config[k].body, c);
    }
  }

  /** The first rule, from index `k` of the table on, whose init set holds `c`. */
  function MatchRule(c: char, k: nat := 0): (r: Option<Rule>)
    requires k <= |Config|
    ensures r.Some? ==> r.value in Config[k..] && Includes(r.value.init, c)
    decreases |Config| - k
  {
    if k == |Config| then None
    else if Includes(Config[k].init, c) then Some(Config[k])
    else MatchRule(c, k + 1)
  }

  // ---------------------------------------------------------------------------
  // Cursor positions

  datatype Cursor = Cursor(line: nat, column: nat)

  /**
   * The cursor after consuming `raw[..i]` from line 1, column 1: a newline
   * moves to column 1 of the next line, any other character one column
   * right. The column is 1 exactly at the start of a line.
   */
  function Position(raw: string, i: nat): (p: Cursor)
    requires i <= |raw|
    ensures p.line >= 1 && p.column >= 1
    ensures p.column == 1 <==> i == 0 || raw[i - 1] == '\n'
  {
    if i == 0 then Cursor(1, 1)
    else
      var p := Position(raw, i - 1);
      if raw[i - 1] == '\n' then Cursor(p.line + 1, 1) else Cursor(p.line, p.column + 1)
  }

  /** The number of newline characters in `s`. */
  function NewlineCount(s: string): nat
  {
    if s == [] then 0 else NewlineCount(s[..|s| - 1]) + (if s[|s| - 1] == '\n' then 1 else 0)
  }

  /** The index at which the line holding index `i` starts. */
  function LineStart(raw: string, i: nat): (b: nat)
    requires i <= |raw|
    ensures b <= i
    ensures b == 0 || raw[b - 1] == '\n'
    ensures forall k :: b <= k < i ==> raw[k] != '\n'
  {
    if i == 0 then 0 else if raw[i - 1] == '\n' then i else LineStart(raw, i - 1)
  }

  /**
   * The cursor after `raw[..i]` is on line 1 + (newlines before `i`), at
   * column 1 + (characters since the last newline): a newline moves to the
   * next line's column 1 and every other character, whitespace included,
   * moves one column right.
   */
  lemma {:induction false} PositionCountsLines(raw: string, i: nat)
    requires i <= |raw|
    ensures Position(raw, i).line == 1 + NewlineCount(raw[..i])
    ensures Position(raw, i).column == 1 + i - LineStart(raw, i)
  {
    if i > 0 {
      PositionCountsLines(raw, i - 1);
      assert raw[..i][..i - 1] == raw[..i - 1];
    }
  }


  /**
   * The location of index `i`: on line 1 + (newlines before `i`), at column
   * 1 + (characters since the last newline).
   */
  function LocAt(sourceFile: string, raw: string, i: nat): (loc: Location)
    requires i <= |raw|
    ensures loc.sourceFile == sourceFile
    ensures loc.line == 1 + NewlineCount(raw[..i])
    ensures loc.column == 1 + i - LineStart(raw, i)
  {
    PositionCountsLines(raw, i);
    Location(sourceFile, Position(raw, i).line, Position(raw, i).column)
  }

  // ---------------------------------------------------------------------------
  // What each scanning step computes

  /** The end of the run of whitespace that starts at `i`. */
  function SkipWhitespace(raw: string, i: nat): (j: nat)
    requires i <= |raw|
    ensures i <= j <= |raw|
    ensures forall k :: i <= k < j ==> IsWhitespace(raw[k])
    ensures j == |raw| || !IsWhitespace(raw[j])
    decreases |raw| - i
  {
    if i == |raw| || !IsWhitespace(raw[i]) then i else SkipWhitespace(raw, i + 1)
  }

  /** The end of the longest run of characters of `body` that starts at `i`. */
  function WordEnd(raw: string, i: nat, body: CharSet): (j: nat)
    requires i <= |raw|
    ensures i <= j <= |raw|
    ensures forall k :: i <= k < j ==> Includes(body, raw[k])
    ensures j == |raw| || !Includes(body, raw[j])
    decreases |raw| - i
  {
    if i == |raw| || !Includes(body, raw[i]) then i else WordEnd(raw, i + 1, body)
  }

  /** The index of the first double quote at or after `i`, if there is one. */
  function QuoteIndex(raw: string, i: nat): (q: Option<nat>)
    requires i <= |raw|
    ensures q.Some? ==> i <= q.value < |raw| && raw[q.value] == '"'
    ensures q.Some? ==> forall k :: i <= k < q.value ==> raw[k] != '"'
    ensures q.None? ==> forall k :: i <= k < |raw| ==> raw[k] != '"'
    decreases |raw| - i
  {
    if i == |raw| then None
    else if raw[i] == '"' then Some(i)
    else QuoteIndex(raw, i + 1)
  }

  /**
   * The word token whose first character is `raw[i]`, and the index after it;
   * `loc` is where the token starts.
   */
  function WordToken(raw: string, i: nat, loc: Location): (r: Result<(Token, nat)>)
    requires i < |raw|
    ensures r.Ok? ==> i < r.value.1 <= |raw|
  {
    match MatchRule(raw[i])
    case None => Fail(loc, "Invalid character " + [raw[i]])
    case Some(rule) =>
      var j := WordEnd(raw, i + 1, rule.body);
      var word := raw[i..j];
      Ok((Token(if word in KeyWords then Keyword else rule.kind, word, loc), j))
  }

  /**
   * The string literal whose opening quote is `raw[i]`, and the index after
   * its closing quote.
   */
  function StringToken(raw: string, i: nat, loc: Location): (r: Result<(Token, nat)>)
    requires i < |raw|
    ensures r.Ok? ==> i < r.value.1 <= |raw|
  {
    match QuoteIndex(raw, i + 1)
    case None =>
      var end := Position(raw, |raw|);
      Fail(loc, "Unexpected EOF at " + Render(Location(loc.sourceFile, end.line, end.column))
        + ". Unclosed string literal starting")
    case Some(q) => Ok((Token(StringLiteral, raw[i + 1..q], loc), q + 1))
  }

  /** The token that starts at `i`, which is not whitespace. */
  function NextToken(sourceFile: string, raw: string, i: nat): (r: Result<(Token, nat)>)
    requires i < |raw|
    ensures r.Ok? ==> i < r.value.1 <= |raw|
    ensures r.Ok? ==> r.value.0.loc == LocAt(sourceFile, raw, i)
    ensures r.Err? ==> r.error.loc == LocAt(sourceFile, raw, i)
  {
    var loc := LocAt(sourceFile, raw, i);
    if raw[i] == '"' then StringToken(raw, i, loc) else WordToken(raw, i, loc)
  }

  /**
   * The tokens lexed from index `i` on, appended to `acc`: the tokens in
   * `acc` stay in front, and the last token is `EOF` at the end of the text.
   */
  function LexFrom(sourceFile: string, raw: string, i: nat, acc: seq<Token>): (r: Result<seq<Token>>)
    requires i <= |raw|
    ensures r.Ok? ==> |r.value| > |acc| && forall k :: 0 <= k < |acc| ==> r.value[k] == acc[k]
    ensures r.Ok? ==> r.value[|r.value| - 1] == Token(EOF, "", LocAt(sourceFile, raw, |raw|))
    decreases |raw| - i
  {
    var j := SkipWhitespace(raw, i);
    if j == |raw| then Ok(acc + [Token(EOF, "", LocAt(sourceFile, raw, j))])
    else
      match NextToken(sourceFile, raw, j)
      case Err(e) => Err(e)
      case Ok((t, k)) => LexFrom(sourceFile, raw, k, acc + [t])
  }

  /** `lex` on a fresh lexer: the tokens end with `EOF` at the end of the text. */
  function Tokenize(sourceFile: string, raw: string): (r: Result<seq<Token>>)
    ensures r.Ok? ==> |r.value| >= 1 && r.value[|r.value| - 1] == Token(EOF, "", LocAt(sourceFile, raw, |raw|))
  {
    LexFrom(sourceFile, raw, 0, [])
  }

  // ---------------------------------------------------------------------------
  // The cursor

  class Lexer {
    const sourceFile: string
    const raw: string
    var index: nat
    var line: nat
    var column: nat

    /** The line and column always describe the cursor's index. */
    ghost predicate Valid()
      reads this
    {
      index <= |raw| && Cursor(line, column) == Position(raw, index)
    }

    constructor (sourceFile: string, raw: string)
      ensures Valid()
      ensures this.sourceFile == sourceFile && this.raw == raw && index == 0
    {
      this.sourceFile := sourceFile;
      this.raw := raw;
      index := 0;
      line := 1;
      column := 1;
    }

    /** `here`: the location of the character under the cursor. */
    function Here(): (loc: Location)
      reads this
      requires Valid()
      ensures loc == LocAt(sourceFile, raw, index)
    {
      Location(sourceFile, line, column)
    }

    /** Advances over whitespace; stops on the first other character. */
    method EatWhitespace()
      requires Valid()
      modifies this
      ensures Valid()
      ensures index == SkipWhitespace(raw, old(index))
    {
      while index < |raw|
        invariant Valid()
        invariant old(index) <= index
        invariant SkipWhitespace(raw, index) == SkipWhitespace(raw, old(index))
        decreases |raw| - index
      {
        var next := raw[index];
        if next in " \t\r" {
          index := index + 1;
          column := column + 1;
        } else if next == '\n' {
          index := index + 1;
          line := line + 1;
          column := 1;
        } else {
          return;
        }
      }
    }

    /** Reads the rest of the word whose first character `next` was just consumed. */
    method EatWord(next: char, loc: Location) returns (r: Result<Token>)
      requires Valid() && 1 <= index && raw[index - 1] == next
      modifies this
      ensures Valid() && old(index) <= index
      ensures Paired(r, index) == WordToken(raw, old(index) - 1, loc)
    {
      var k := 0;
      while k < |Config|
        invariant k <= |Config|
        invariant MatchRule(next, k) == MatchRule(next)
        invariant index == old(index)
      {
        var rule := Config[k];
        if Includes(rule.init, next) {
          assert MatchRule(next) == Some(rule);
          assert !Includes(rule.body, '\n') by {
            if Includes(rule.body, '\n') { CharSetIsVisible(rule.body, '\n'); }
          }
          var word := EatBody(rule.body);
          assert word == raw[old(index) - 1..index];
          if word in KeyWords {
            return Ok(Token(Keyword, word, loc));
          } else {
            return Ok(Token(rule.kind, word, loc));
          }
        }
        k := k + 1;
      }
      return Fail(loc, "Invalid character " + [next]);
    }

    /**
     * The maximal-munch loop of `eatWord`: consumes characters while they are
     * in `body`, and returns the word so far (its first character included).
     */
    method EatBody(body: CharSet) returns (word: string)
      requires Valid() && 1 <= index && !Includes(body, '\n')
      modifies this
      ensures Valid()
      ensures index == WordEnd(raw, old(index), body)
      ensures word == raw[old(index) - 1..index]
    {
      word := [raw[index - 1]];
      while index < |raw| && Includes(body, raw[index])
        invariant Valid() && old(index) <= index
        invariant word == raw[old(index) - 1..index]
        invariant WordEnd(raw, index, body) == WordEnd(raw, old(index), body)
        decreases |raw| - index
      {
        word := word + [raw[index]];
        index := index + 1;
        column := column + 1;
      }
    }

    /** Reads a string literal whose opening quote was just consumed. */
    method EatString(loc: Location) returns (r: Result<Token>)
      requires Valid() && 1 <= index && raw[index - 1] == '"'
      requires loc.sourceFile == sourceFile
      modifies this
      ensures Valid() && old(index) <= index
      ensures Paired(r, index) == StringToken(raw, old(index) - 1, loc)
    {
      var word := "";
      while index < |raw|
        invariant Valid() && old(index) <= index
        invariant word == raw[old(index)..index]
        invariant QuoteIndex(raw, index) == QuoteIndex(raw, old(index))
        decreases |raw| - index
      {
        var maybeQuote := raw[index];
        index := index + 1;
        column := column + 1;
        if maybeQuote != '"' {
          word := word + [maybeQuote];
          if maybeQuote == '\n' {
            column := 1;
            line := line + 1;
          }
        } else {
          return Ok(Token(StringLiteral, word, loc));
        }
      }
      return Fail(loc, "Unexpected EOF at " + Render(Location(sourceFile, line, column))
        + ". Unclosed string literal starting");
    }

    /** Consumes the first character of a token and reads the rest of it. */
    method EatToken(loc: Location) returns (t: Result<Token>)
      requires Valid() && index < |raw| && !IsWhitespace(raw[index])
      requires loc == LocAt(sourceFile, raw, index)
      modifies this
      ensures Valid() && old(index) < index
      ensures Paired(t, index) == NextToken(sourceFile, raw, old(index))
    {
      var next := raw[index];
      assert Position(raw, index + 1) == Cursor(line, column + 1);
      index := index + 1;
      column := column + 1;
      if next == '"' {
        t := EatString(loc);
      } else {
        t := EatWord(next, loc);
      }
    }

    /** `lex`: the tokens from the cursor on, ending with one `EOF`. */
    method Lex() returns (r: Result<seq<Token>>)
      requires Valid()
      modifies this
      ensures Valid() && old(index) <= index
      ensures r == LexFrom(sourceFile, raw, old(index), [])
      ensures r.Ok? ==> index == |raw|
    {
      var tokens: seq<Token> := [];
      while true
        invariant Valid() && old(index) <= index
        invariant LexFrom(sourceFile, raw, index, tokens) == LexFrom(sourceFile, raw, old(index), [])
        decreases |raw| - index
      {
        ghost var before := index;
        EatWhitespace();
        var loc := Here();
        if index == |raw| {
          assert LexFrom(sourceFile, raw, before, tokens) == Ok(tokens + [Token(EOF, "", loc)]);
          tokens := tokens + [Token(EOF, "", loc)];
          return Ok(tokens);
        }
        var t := EatToken(loc);
        if t.Err? {
          assert LexFrom(sourceFile, raw, before, tokens) == Err(t.error);
          return Err(t.error);
        }
        assert LexFrom(sourceFile, raw, before, tokens) == LexFrom(sourceFile, raw, index, tokens + [t.value]);
        tokens := tokens + [t.value];
      }
    }
  }

  /** Lexes a whole text with a fresh cursor. */
  method LexSource(sourceFile: string, raw: string) returns (r: Result<seq<Token>>)
    ensures r == Tokenize(sourceFile, raw)
  {
    var lexer := new Lexer(sourceFile, raw);
    r := lexer.Lex();
  }
}
