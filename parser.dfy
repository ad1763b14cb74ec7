/**
 * The recursive-descent parser of src/parser.ts.
 *
 * The first half says what each `parse*` method computes: a function of the
 * token array and the index the method starts at, giving the expression and
 * the index it stops at, or the syntax error it raises. The class `Parser`
 * below keeps the source's mutable `index`, and each of its methods is proved
 * to compute what the matching function says.
 *
 * Every method reads `tokens[index]` without a bounds check; the lexer always
 * ends the array with an `EOF` token whose word is empty, and since no method
 * consumes such a token and succeeds, `index` stays inside the array.
 */
module Parsing {
  import opened Ast
  import opened Lexing
  import LexerProperties

  /** What the parser relies on: the last token is the lexer's `EOF`. */
  predicate WellFormed(ts: seq<Token>)
  {
    |ts| > 0 && ts[|ts| - 1].kind == EOF && ts[|ts| - 1].word == ""
  }

  /** Every token array the lexer produces is one the parser can run on. */
  lemma TokenizeIsWellFormed(sourceFile: string, raw: string)
    ensures Tokenize(sourceFile, raw).Ok? ==> WellFormed(Tokenize(sourceFile, raw).value)
  {
    LexerProperties.TokenizeEndsWithEof(sourceFile, raw);
  }

  /** A successful step consumed at least one token and not the final `EOF`. */
  predicate Advances<T>(r: Result<(T, nat)>, ts: seq<Token>, i: nat)
  {
    r.Ok? ==> i < r.value.1 < |ts|
  }

  // ---------------------------------------------------------------------------
  // The four token tests

  /** `expectType`: the next token must have this type; it is consumed either way. */
  function TypeAt(ts: seq<Token>, i: nat, kind: TokenType, message: string): (r: Result<(Token, nat)>)
    requires WellFormed(ts) && i < |ts| && kind != EOF
    ensures Advances(r, ts, i)
    ensures r.Ok? <==> ts[i].kind == kind
    ensures r.Ok? ==> r.value == (ts[i], i + 1)
    ensures r.Err? ==> r.error.loc == ts[i].loc
  {
    if ts[i].kind == kind then Ok((ts[i], i + 1))
    else Fail(ts[i].loc, "Syntax error. Expected " + message + " but found " + ts[i].word)
  }

  /** `expectExact`: the next token must have this word; it is consumed either way. */
  function ExactAt(ts: seq<Token>, i: nat, word: string): (r: Result<nat>)
    requires WellFormed(ts) && i < |ts| && word != ""
    ensures r.Ok? <==> ts[i].word == word
    ensures r.Ok? ==> r.value == i + 1 < |ts|
    ensures r.Err? ==> r.error.loc == ts[i].loc
  {
    if ts[i].word == word then Ok(i + 1)
    else Fail(ts[i].loc, "Syntax error. Expected '" + word + "' but found " + ts[i].word)
  }

  // `checkType` and `checkExact` consume the next token only when it matches;
  // the functions below test `ts[i]` directly where the source calls them.

  // ---------------------------------------------------------------------------
  // What each parse method computes

  const CompareOperators: set<string> := {"==", "!=", "<=", ">=", "<", ">"}
  const SumOperators: set<string> := {"+", "-"}
  const ProdOperators: set<string> := {"*", "/"}

  /**
   * The call node a binary operator token desugars to: `Core.<op>(left, right)`,
   * located at the operator, with the left operand first; no node is lost.
   */
  function Binary(op: Token, left: Expression, right: Expression): (r: Expression)
    ensures r.CallEx? && r.loc == op.loc && r.args == [left, right]
    ensures r.func.IdentifierEx? && r.func.name == "Core." + op.word
    ensures Size(r) == Size(left) + Size(right) + 2
  {
    var r := CallEx(op.loc, IdentifierEx(op.loc, "Core." + op.word), [left, right]);
    assert SizeList([left, right]) == Size(left) + SizeList([right]);
    assert [left, right][1..] == [right] && [right][1..] == [];
    r
  }

  /**
   * `parseModule`, from index `i`, with the functions `acc` already read: the
   * module holds `acc` followed by the functions read next, and reads none
   * exactly when it is at `EOF`.
   */
  function ModuleFrom(ts: seq<Token>, i: nat, acc: seq<FunctionDecl>): (r: Result<ModuleEx>)
    requires WellFormed(ts) && i < |ts|
    ensures r.Ok? ==> |acc| <= |r.value.functions| && forall k :: 0 <= k < |acc| ==> r.value.functions[k] == acc[k]
    ensures r.Ok? ==> (|r.value.functions| == |acc| <==> ts[i].kind == EOF)
    decreases |ts| - i
  {
    if ts[i].kind == EOF then Ok(ModuleEx(acc))
    else
      var j :- ExactAt(ts, i, "fun");
      var f :- FunctionFrom(ts, j);
      ModuleFrom(ts, f.1, acc + [f.0])
  }

  /** `parseFunction`; the `fun` keyword is the token before `i`. */
  function FunctionFrom(ts: seq<Token>, i: nat): (r: Result<(Expression, nat)>)
    requires WellFormed(ts) && 1 <= i < |ts|
    ensures Advances(r, ts, i)
    ensures r.Ok? ==> r.value.0.FunctionEx? && r.value.0.loc == ts[i - 1].loc
    decreases |ts| - i, 9
  {
    var name :- TypeAt(ts, i, Identifier, "function name");
    var open :- ExactAt(ts, name.1, "(");
    var params :- ParamsFrom(ts, open);
    var close :- ExactAt(ts, params.1, ")");
    var eq :- ExactAt(ts, close, "=");
    var body :- ExpressionFrom(ts, eq);
    Ok((FunctionEx(ts[i - 1].loc, name.0.word, params.0, body.0), body.1))
  }

  /** The parameter list of `parseFunction`: empty, or identifiers separated by commas. */
  function ParamsFrom(ts: seq<Token>, i: nat): (r: Result<(seq<string>, nat)>)
    requires WellFormed(ts) && i < |ts|
    ensures r.Ok? ==> i <= r.value.1 < |ts|
  {
    if ts[i].kind == Identifier then ParamsRestFrom(ts, i + 1, [ts[i].word]) else Ok(([], i))
  }

  /** The `while (checkExact(','))` loop of `parseFunction`. */
  function ParamsRestFrom(ts: seq<Token>, i: nat, acc: seq<string>): (r: Result<(seq<string>, nat)>)
    requires WellFormed(ts) && i < |ts|
    ensures r.Ok? ==> i <= r.value.1 < |ts|
    decreases |ts| - i
  {
    if ts[i].word == "," then
      var p :- TypeAt(ts, i + 1, Identifier, "parameter");
      ParamsRestFrom(ts, p.1, acc + [p.0.word])
    else Ok((acc, i))
  }

  /** `parseExpression`: a function, an assignment, an `if`, or a comparison. */
  function ExpressionFrom(ts: seq<Token>, i: nat): (r: Result<(Expression, nat)>)
    requires WellFormed(ts) && i < |ts|
    ensures Advances(r, ts, i)
    decreases |ts| - i, 8
  {
    if ts[i].word == "fun" then FunctionFrom(ts, i + 1)
    else if ts[i].word == "val" then AssignmentFrom(ts, i + 1)
    else if ts[i].word == "if" then IfFrom(ts, i + 1)
    else CompareFrom(ts, i)
  }

  /** `parseAssignment`; the `val` keyword is the token before `i`. */
  function AssignmentFrom(ts: seq<Token>, i: nat): (r: Result<(Expression, nat)>)
    requires WellFormed(ts) && 1 <= i < |ts|
    ensures Advances(r, ts, i)
    decreases |ts| - i, 9
  {
    var name :- TypeAt(ts, i, Identifier, "value name");
    var eq :- ExactAt(ts, name.1, "=");
    var body :- ExpressionFrom(ts, eq);
    Ok((AssignmentEx(ts[i - 1].loc, name.0.word, body.0), body.1))
  }

  /** `parseIf`; the `if` keyword is the token before `i`. */
  function IfFrom(ts: seq<Token>, i: nat): (r: Result<(Expression, nat)>)
    requires WellFormed(ts) && 1 <= i < |ts|
    ensures Advances(r, ts, i)
    decreases |ts| - i, 9
  {
    var open :- ExactAt(ts, i, "(");
    var condition :- ExpressionFrom(ts, open);
    var close :- ExactAt(ts, condition.1, ")");
    var thenBlock :- ExpressionFrom(ts, close);
    if ts[thenBlock.1].word == "else" then
      var elseBlock :- ExpressionFrom(ts, thenBlock.1 + 1);
      Ok((IfEx(ts[i - 1].loc, condition.0, thenBlock.0, Some(elseBlock.0)), elseBlock.1))
    else
      Ok((IfEx(ts[i - 1].loc, condition.0, thenBlock.0, None), thenBlock.1))
  }

  /** `parseCompare`: a sum, optionally followed by ONE comparison and another sum. */
  function CompareFrom(ts: seq<Token>, i: nat): (r: Result<(Expression, nat)>)
    requires WellFormed(ts) && i < |ts|
    ensures Advances(r, ts, i)
    decreases |ts| - i, 7
  {
    var left :- SumFrom(ts, i);
    if ts[left.1].word in CompareOperators then
      var right :- SumFrom(ts, left.1 + 1);
      Ok((Binary(ts[left.1], left.0, right.0), right.1))
    else Ok(left)
  }

  /** `parseSum`: a product, optionally followed by ONE `+`/`-` and another product. */
  function SumFrom(ts: seq<Token>, i: nat): (r: Result<(Expression, nat)>)
    requires WellFormed(ts) && i < |ts|
    ensures Advances(r, ts, i)
    decreases |ts| - i, 6
  {
    var left :- ProdFrom(ts, i);
    if ts[left.1].word in SumOperators then
      var right :- ProdFrom(ts, left.1 + 1);
      Ok((Binary(ts[left.1], left.0, right.0), right.1))
    else Ok(left)
  }

  /** `parseProd`: a call, optionally followed by ONE `*`/`/` and another call. */
  function ProdFrom(ts: seq<Token>, i: nat): (r: Result<(Expression, nat)>)
    requires WellFormed(ts) && i < |ts|
    ensures Advances(r, ts, i)
    decreases |ts| - i, 5
  {
    var left :- CallFrom(ts, i);
    if ts[left.1].word in ProdOperators then
      var right :- CallFrom(ts, left.1 + 1);
      Ok((Binary(ts[left.1], left.0, right.0), right.1))
    else Ok(left)
  }

  /** `parseCall`: a block, optionally followed by ONE parenthesised argument list. */
  function CallFrom(ts: seq<Token>, i: nat): (r: Result<(Expression, nat)>)
    requires WellFormed(ts) && i < |ts|
    ensures Advances(r, ts, i)
    decreases |ts| - i, 4
  {
    var func :- BlockFrom(ts, i);
    if ts[func.1].word == "(" then
      var args :- ArgumentsFrom(ts, func.1 + 1, ")");
      Ok((CallEx(func.0.loc, func.0, args.0), args.1))
    else Ok(func)
  }

  /**
   * The argument lists of `parseCall` and `parseArrayLiteral`, after the
   * opening bracket: either the closing bracket at once, or expressions
   * separated by commas and then the closing bracket.
   */
  function ArgumentsFrom(ts: seq<Token>, i: nat, close: string): (r: Result<(seq<Expression>, nat)>)
    requires WellFormed(ts) && i < |ts| && close != ""
    ensures Advances(r, ts, i)
    decreases |ts| - i, 10
  {
    if ts[i].word == close then Ok(([], i + 1))
    else
      var first :- ExpressionFrom(ts, i);
      var args :- ArgumentsRestFrom(ts, first.1, [first.0]);
      var end :- ExactAt(ts, args.1, close);
      Ok((args.0, end))
  }

  /** The `while (checkExact(','))` loop of `parseCall` and `parseArrayLiteral`. */
  function ArgumentsRestFrom(ts: seq<Token>, i: nat, acc: seq<Expression>): (r: Result<(seq<Expression>, nat)>)
    requires WellFormed(ts) && i < |ts|
    ensures r.Ok? ==> i <= r.value.1 < |ts|
    decreases |ts| - i, 0
  {
    if ts[i].word == "," then
      var e :- ExpressionFrom(ts, i + 1);
      ArgumentsRestFrom(ts, e.1, acc + [e.0])
    else Ok((acc, i))
  }

  /** `parseBlock`: `{` expressions `}`, or else an array literal. */
  function BlockFrom(ts: seq<Token>, i: nat): (r: Result<(Expression, nat)>)
    requires WellFormed(ts) && i < |ts|
    ensures Advances(r, ts, i)
    decreases |ts| - i, 3
  {
    if ts[i].word == "{" then BlockBodyFrom(ts, i + 1, ts[i].loc, [])
    else ArrayLiteralFrom(ts, i)
  }

  /** The `while (!checkExact('}'))` loop of `parseBlock`. */
  function BlockBodyFrom(ts: seq<Token>, i: nat, loc: Location, acc: seq<Expression>): (r: Result<(Expression, nat)>)
    requires WellFormed(ts) && i < |ts|
    ensures Advances(r, ts, i)
    decreases |ts| - i, 10
  {
    if ts[i].word == "}" then Ok((BlockEx(loc, acc), i + 1))
    else
      var e :- ExpressionFrom(ts, i);
      BlockBodyFrom(ts, e.1, loc, acc + [e.0])
  }

  /** `parseArrayLiteral`: `[e1, ..., en]` as a call of `List.build`, or else a term. */
  function ArrayLiteralFrom(ts: seq<Token>, i: nat): (r: Result<(Expression, nat)>)
    requires WellFormed(ts) && i < |ts|
    ensures Advances(r, ts, i)
    decreases |ts| - i, 2
  {
    if ts[i].word == "[" then
      var args :- ArgumentsFrom(ts, i + 1, "]");
      Ok((CallEx(ts[i].loc, IdentifierEx(ts[i].loc, "List.build"), args.0), args.1))
    else TermFrom(ts, i)
  }

  /** `parseTerm`: a literal or a name; anything else is a syntax error. */
  function TermFrom(ts: seq<Token>, i: nat): (r: Result<(Expression, nat)>)
    requires WellFormed(ts) && i < |ts|
    ensures Advances(r, ts, i)
    decreases |ts| - i, 1
  {
    var next := ts[i];
    match next.kind
    case StringLiteral => Ok((LiteralEx(next.loc, LitString(next.word)), i + 1))
    case NumberLiteral => Ok((LiteralEx(next.loc, LitNumber(next.word)), i + 1))
    case Module => Ok((IdentifierEx(next.loc, next.word), i + 1))
    case Identifier => Ok((IdentifierEx(next.loc, next.word), i + 1))
    case _ => Fail(next.loc, "Syntax error. Expected term but found '" + next.word + "'")
  }

  /**
   * `Parser.parseModule` on a fresh parser: the module is empty exactly when
   * the first token is `EOF`, which is never an error.
   */
  function ModuleOf(ts: seq<Token>): (r: Result<ModuleEx>)
    requires WellFormed(ts)
    ensures r.Ok? ==> (r.value.functions == [] <==> ts[0].kind == EOF)
    ensures ts[0].kind == EOF ==> r == Ok(ModuleEx([]))
  {
    ModuleFrom(ts, 0, [])
  }

  // ---------------------------------------------------------------------------
  // The parser object

  class Parser {
    const tokens: seq<Token>
    var index: nat

    /** The cursor is on a token, and the array ends with the lexer's `EOF`. */
    ghost predicate Valid()
      reads this
    {
      WellFormed(tokens) && index < |tokens|
    }

    constructor (tokens: seq<Token>)
      requires WellFormed(tokens)
      ensures Valid() && this.tokens == tokens && index == 0
    {
      this.tokens := tokens;
      index := 0;
    }

    /** `checkType`: consumes the next token exactly when it has this type. */
    method CheckType(kind: TokenType) returns (r: Option<Token>)
      requires Valid()
      modifies this
      ensures tokens[old(index)].kind == kind ==> r == Some(tokens[old(index)]) && index == old(index) + 1
      ensures tokens[old(index)].kind != kind ==> r == None && index == old(index)
      ensures (kind != EOF || r.None?) ==> Valid()
    {
      var next := tokens[index];
      if next.kind == kind {
        index := index + 1;
        return Some(next);
      } else {
        return None;
      }
    }

    /** `checkExact`: consumes the next token exactly when it has this word. */
    method CheckExact(word: string) returns (r: Option<Token>)
      requires Valid() && word != ""
      modifies this
      ensures tokens[old(index)].word == word ==> r == Some(tokens[old(index)]) && index == old(index) + 1
      ensures tokens[old(index)].word != word ==> r == None && index == old(index)
      ensures Valid()
    {
      var next := tokens[index];
      if next.word == word {
        index := index + 1;
        return Some(next);
      } else {
        return None;
      }
    }

    /** `expectType`: consumes the next token, which must have this type. */
    method ExpectType(kind: TokenType, message: string) returns (r: Result<Token>)
      requires Valid() && kind != EOF
      modifies this
      ensures Paired(r, index) == TypeAt(tokens, old(index), kind, message)
      ensures r.Ok? ==> Valid()
    {
      var next := tokens[index];
      index := index + 1;
      if next.kind == kind {
        return Ok(next);
      } else {
        return Fail(next.loc, "Syntax error. Expected " + message + " but found " + next.word);
      }
    }

    /** `expectExact`: consumes the next token, which must have this word. */
    method ExpectExact(word: string) returns (err: Option<LocatedError>)
      requires Valid() && word != ""
      modifies this
      ensures err.None? <==> ExactAt(tokens, old(index), word).Ok?
      ensures err.None? ==> index == ExactAt(tokens, old(index), word).value && Valid()
      ensures err.Some? ==> err.value == ExactAt(tokens, old(index), word).error
    {
      var next := tokens[index];
      index := index + 1;
      if next.word != word {
        return Some(LocatedError(next.loc, "Syntax error. Expected '" + word + "' but found " + next.word));
      }
      return None;
    }

    /** `parseModule`: function declarations up to the first `EOF`. */
    method ParseModule() returns (r: Result<ModuleEx>)
      requires Valid()
      modifies this
      ensures r == ModuleFrom(tokens, old(index), [])
    {
      var functions: seq<FunctionDecl> := [];
      while index < |tokens|
        invariant Valid()
        invariant ModuleFrom(tokens, index, functions) == ModuleFrom(tokens, old(index), [])
        decreases |tokens| - index
      {
        var eof := CheckType(EOF);
        if eof.Some? {
          return Ok(ModuleEx(functions));
        }
        var err := ExpectExact("fun");
        if err.Some? {
          return Err(err.value);
        }
        var f := ParseFunction();
        if f.Err? {
          return Err(f.error);
        }
        functions := functions + [f.value];
      }
      // The source throws "Invalid token stream. No EOF!" here; with the
      // lexer's `EOF` last, the loop only ends by returning.
      assert false;
    }

    /** `parseFunction`, called just after the `fun` keyword. */
    method ParseFunction() returns (r: Result<Expression>)
      requires Valid() && 1 <= index
      modifies this
      ensures Paired(r, index) == FunctionFrom(tokens, old(index))
      decreases |tokens| - index, 9
    {
      var loc := tokens[index - 1].loc;
      var name := ExpectType(Identifier, "function name");
      if name.Err? {
        return Err(name.error);
      }
      var err := ExpectExact("(");
      if err.Some? {
        return Err(err.value);
      }
      ghost var paramsStart := index;
      var params: seq<string> := [];
      var firstParam := CheckType(Identifier);
      if firstParam.Some? {
        params := [firstParam.value.word];
        while true
          invariant Valid() && paramsStart < index
          invariant ParamsRestFrom(tokens, index, params) == ParamsFrom(tokens, paramsStart)
          decreases |tokens| - index
        {
          var comma := CheckExact(",");
          if comma.None? {
            break;
          }
          var param := ExpectType(Identifier, "parameter");
          if param.Err? {
            return Err(param.error);
          }
          params := params + [param.value.word];
        }
      }
      assert ParamsFrom(tokens, paramsStart) == Ok((params, index));
      err := ExpectExact(")");
      if err.Some? {
        return Err(err.value);
      }
      err := ExpectExact("=");
      if err.Some? {
        return Err(err.value);
      }
      var body := ParseExpression();
      if body.Err? {
        return Err(body.error);
      }
      return Ok(FunctionEx(loc, name.value.word, params, body.value));
    }

    /** `parseExpression`: dispatches on the keywords `fun`, `val` and `if`. */
    method ParseExpression() returns (r: Result<Expression>)
      requires Valid()
      modifies this
      ensures Paired(r, index) == ExpressionFrom(tokens, old(index))
      decreases |tokens| - index, 8
    {
      var keyword := CheckExact("fun");
      if keyword.Some? {
        r := ParseFunction();
        return;
      }
      keyword := CheckExact("val");
      if keyword.Some? {
        r := ParseAssignment();
        return;
      }
      keyword := CheckExact("if");
      if keyword.Some? {
        r := ParseIf();
        return;
      }
      r := ParseCompare();
    }

    /** `parseAssignment`, called just after the `val` keyword. */
    method ParseAssignment() returns (r: Result<Expression>)
      requires Valid() && 1 <= index
      modifies this
      ensures Paired(r, index) == AssignmentFrom(tokens, old(index))
      decreases |tokens| - index, 9
    {
      var loc := tokens[index - 1].loc;
      var name := ExpectType(Identifier, "value name");
      if name.Err? {
        return Err(name.error);
      }
      var err := ExpectExact("=");
      if err.Some? {
        return Err(err.value);
      }
      var body := ParseExpression();
      if body.Err? {
        return Err(body.error);
      }
      return Ok(AssignmentEx(loc, name.value.word, body.value));
    }

    /** `parseIf`, called just after the `if` keyword. */
    method ParseIf() returns (r: Result<Expression>)
      requires Valid() && 1 <= index
      modifies this
      ensures Paired(r, index) == IfFrom(tokens, old(index))
      decreases |tokens| - index, 9
    {
      var loc := tokens[index - 1].loc;
      var err := ExpectExact("(");
      if err.Some? {
        return Err(err.value);
      }
      var condition := ParseExpression();
      if condition.Err? {
        return Err(condition.error);
      }
      err := ExpectExact(")");
      if err.Some? {
        return Err(err.value);
      }
      var thenBlock := ParseExpression();
      if thenBlock.Err? {
        return Err(thenBlock.error);
      }
      var elseBlock: Option<Expression> := None;
      var keyword := CheckExact("else");
      if keyword.Some? {
        var e := ParseExpression();
        if e.Err? {
          return Err(e.error);
        }
        elseBlock := Some(e.value);
      }
      return Ok(IfEx(loc, condition.value, thenBlock.value, elseBlock));
    }

    /** `parseCompare`. */
    method ParseCompare() returns (r: Result<Expression>)
      requires Valid()
      modifies this
      ensures Paired(r, index) == CompareFrom(tokens, old(index))
      decreases |tokens| - index, 7
    {
      var left := ParseSum();
      if left.Err? {
        return left;
      }
      var next := tokens[index];
      if next.word in CompareOperators {
        index := index + 1;
        var right := ParseSum();
        if right.Err? {
          return right;
        }
        return Ok(Binary(next, left.value, right.value));
      }
      return left;
    }

    /** `parseSum`. */
    method ParseSum() returns (r: Result<Expression>)
      requires Valid()
      modifies this
      ensures Paired(r, index) == SumFrom(tokens, old(index))
      decreases |tokens| - index, 6
    {
      var left := ParseProd();
      if left.Err? {
        return left;
      }
      var next := tokens[index];
      if next.word in SumOperators {
        index := index + 1;
        var right := ParseProd();
        if right.Err? {
          return right;
        }
        return Ok(Binary(next, left.value, right.value));
      }
      return left;
    }

    /** `parseProd`. */
    method ParseProd() returns (r: Result<Expression>)
      requires Valid()
      modifies this
      ensures Paired(r, index) == ProdFrom(tokens, old(index))
      decreases |tokens| - index, 5
    {
      var left := ParseCall();
      if left.Err? {
        return left;
      }
      var next := tokens[index];
      if next.word in ProdOperators {
        index := index + 1;
        var right := ParseCall();
        if right.Err? {
          return right;
        }
        return Ok(Binary(next, left.value, right.value));
      }
      return left;
    }

    /** `parseCall`: a callee and at most one argument list. */
    method ParseCall() returns (r: Result<Expression>)
      requires Valid()
      modifies this
      ensures Paired(r, index) == CallFrom(tokens, old(index))
      decreases |tokens| - index, 4
    {
      var func := ParseBlock();
      if func.Err? {
        return func;
      }
      ghost var funcEnd := index;
      assert BlockFrom(tokens, old(index)) == Ok((func.value, funcEnd));
      var open := CheckExact("(");
      if open.None? {
        return func;
      }
      var args: seq<Expression> := [];
      var close := CheckExact(")");
      if close.Some? {
        return Ok(CallEx(func.value.loc, func.value, args));
      }
      var first := ParseExpression();
      if first.Err? {
        return Err(first.error);
      }
      var rest := ParseArgumentsRest([first.value]);
      if rest.Err? {
        return Err(rest.error);
      }
      args := rest.value;
      var err := ExpectExact(")");
      if err.Some? {
        return Err(err.value);
      }
      return Ok(CallEx(func.value.loc, func.value, args));
    }

    /**
     * The `while (checkExact(','))` loop that `parseCall` and
     * `parseArrayLiteral` both run after the first argument: appends one
     * argument to `acc` per comma.
     */
    method ParseArgumentsRest(acc: seq<Expression>) returns (r: Result<seq<Expression>>)
      requires Valid()
      modifies this
      ensures Paired(r, index) == ArgumentsRestFrom(tokens, old(index), acc)
      decreases |tokens| - index, 0
    {
      var args := acc;
      while true
        invariant Valid() && old(index) <= index
        invariant ArgumentsRestFrom(tokens, index, args) == ArgumentsRestFrom(tokens, old(index), acc)
        decreases |tokens| - index
      {
        var comma := CheckExact(",");
        if comma.None? {
          return Ok(args);
        }
        var arg := ParseExpression();
        if arg.Err? {
          return Err(arg.error);
        }
        args := args + [arg.value];
      }
    }

    /** `parseBlock`: expressions up to the closing brace, in a block node. */
    method ParseBlock() returns (r: Result<Expression>)
      requires Valid()
      modifies this
      ensures Paired(r, index) == BlockFrom(tokens, old(index))
      decreases |tokens| - index, 3
    {
      var open := CheckExact("{");
      if open.None? {
        r := ParseArrayLiteral();
        return;
      }
      var loc := open.value.loc;
      var body: seq<Expression> := [];
      while true
        invariant Valid() && old(index) < index
        invariant BlockBodyFrom(tokens, index, loc, body) == BlockFrom(tokens, old(index))
        decreases |tokens| - index
      {
        var close := CheckExact("}");
        if close.Some? {
          return Ok(BlockEx(loc, body));
        }
        var e := ParseExpression();
        if e.Err? {
          return Err(e.error);
        }
        body := body + [e.value];
      }
    }

    /** `parseArrayLiteral`: `[e1, ..., en]` as a call of `List.build`. */
    method ParseArrayLiteral() returns (r: Result<Expression>)
      requires Valid()
      modifies this
      ensures Paired(r, index) == ArrayLiteralFrom(tokens, old(index))
      decreases |tokens| - index, 2
    {
      var open := CheckExact("[");
      if open.None? {
        r := ParseTerm();
        return;
      }
      var args: seq<Expression> := [];
      var func := IdentifierEx(open.value.loc, "List.build");
      var close := CheckExact("]");
      if close.Some? {
        return Ok(CallEx(open.value.loc, func, args));
      }
      var first := ParseExpression();
      if first.Err? {
        return Err(first.error);
      }
      var rest := ParseArgumentsRest([first.value]);
      if rest.Err? {
        return Err(rest.error);
      }
      args := rest.value;
      var err := ExpectExact("]");
      if err.Some? {
        return Err(err.value);
      }
      return Ok(CallEx(func.loc, func, args));
    }

    /** `parseTerm`: one literal or name token. */
    method ParseTerm() returns (r: Result<Expression>)
      requires Valid()
      modifies this
      ensures Paired(r, index) == TermFrom(tokens, old(index))
      decreases |tokens| - index, 1
    {
      var next := tokens[index];
      index := index + 1;
      if next.kind == StringLiteral {
        return Ok(LiteralEx(next.loc, LitString(next.word)));
      } else if next.kind == NumberLiteral {
        return Ok(LiteralEx(next.loc, LitNumber(next.word)));
      } else if next.kind == Module {
        return Ok(IdentifierEx(next.loc, next.word));
      } else if next.kind == Identifier {
        return Ok(IdentifierEx(next.loc, next.word));
      } else {
        return Fail(next.loc, "Syntax error. Expected term but found '" + next.word + "'");
      }
    }
  }

  /** `Parser.parseModule(tokens)`: parses a token array with a fresh parser. */
  method ParseTokens(tokens: seq<Token>) returns (r: Result<ModuleEx>)
    requires WellFormed(tokens)
    ensures r == ModuleOf(tokens)
  {
    var parser := new Parser(tokens);
    r := parser.ParseModule();
  }
}
