/**
 * The parser reads back what an unparser writes.
 *
 * `Print` writes an expression tree as the token array the parser expects:
 * a call whose callee is `Core.<op>` with two operands of tighter levels is
 * written infix, a call of `List.build` at the callee's own location as an
 * array literal, and every other call as `callee(args)`. `ExpressionParses`
 * proves that the parser rebuilds the same tree, locations included, and
 * stops right after it, for every tree that the grammar can express.
 */
module ParserRoundTrip {
  import opened Ast
  import opened Parsing

  // ---------------------------------------------------------------------------
  // Which trees can be written

  predicate IsOperator(w: string)
  {
    w in CompareOperators || w in SumOperators || w in ProdOperators
  }

  /** Words a name or literal may not have, as the parser tests words first. */
  predicate IsReserved(w: string)
  {
    w in {"fun", "val", "if", "else", "{", "}", "[", "]", "(", ")"} || IsOperator(w)
  }

  /**
   * The tightest parse level that goes on when it meets `w` right after an
   * operand: 4 (`parseCall`) for `(`, 5 to 7 (`parseProd`, `parseSum`,
   * `parseCompare`) for the operators, and 8 when no level does. For an
   * operator this is its precedence; smaller binds tighter.
   */
  function ContinuesAt(w: string): (n: nat)
    ensures 4 <= n <= 8
  {
    if w == "(" then 4
    else if w in ProdOperators then 5
    else if w in SumOperators then 6
    else if w in CompareOperators then 7
    else 8
  }

  /** A call node shaped as `Binary` builds it: `Core.<op>(l, r)` located at the callee. */
  predicate BinaryShape(e: Expression)
  {
    && e.CallEx? && e.func.IdentifierEx? && e.func.loc == e.loc && |e.args| == 2
    && |e.func.name| > 5 && e.func.name[..5] == "Core." && IsOperator(e.func.name[5..])
  }

  /** A call node shaped as an array literal: `List.build(...)` located at the callee. */
  predicate ArrayShape(e: Expression)
  {
    e.CallEx? && e.func.IdentifierEx? && e.func.loc == e.loc && e.func.name == "List.build"
  }

  /**
   * The tightest parse method whose result can be `e` once written out:
   * 3 for a block, array literal, name or literal, 4 for a call, 5 to 7 for the
   * binary levels, and 8 for a function, assignment or `if`.
   */
  function Level(e: Expression): (n: nat)
    ensures 3 <= n <= 8
    decreases e, 1
  {
    match e
    case FunctionEx(_, _, _, _) => 8
    case AssignmentEx(_, _, _) => 8
    case IfEx(_, _, _, _) => 8
    case CallEx(_, _, _) => CallLevel(e)
    case BlockEx(_, _) => 3
    case IdentifierEx(_, _) => 3
    case LiteralEx(_, _) => 3
  }

  /** The level of a call: that of its operator when written infix, else 3 or 4. */
  function CallLevel(e: Expression): (n: nat)
    requires e.CallEx?
    ensures 3 <= n <= 7
    decreases e, 0
  {
    if BinaryShape(e) && Level(e.args[0]) < ContinuesAt(e.func.name[5..])
      && Level(e.args[1]) < ContinuesAt(e.func.name[5..])
    then ContinuesAt(e.func.name[5..])
    else if ArrayShape(e) then 3
    else 4
  }

  predicate IsInfix(e: Expression)
  {
    e.CallEx? && 5 <= Level(e) <= 7
  }

  function LiteralWord(v: LiteralValue): string
  {
    match v
    case LitString(text) => text
    case LitNumber(lexeme) => lexeme
  }

  /** Does `e` end with an `if` that has no `else`, which would take a following `else`? */
  predicate OpenEnd(e: Expression)
    decreases e
  {
    match e
    case FunctionEx(_, _, _, body) => OpenEnd(body)
    case AssignmentEx(_, _, body) => OpenEnd(body)
    case IfEx(_, _, _, elseBlock) => !elseBlock.Some? || OpenEnd(elseBlock.value)
    case _ => false
  }

  predicate Printable(e: Expression)
    decreases e, 1
  {
    match e
    case FunctionEx(_, _, _, body) => Printable(body)
    case AssignmentEx(_, _, body) => Printable(body)
    case IfEx(_, _, _, _) => PrintableIf(e)
    case BlockEx(_, _) => PrintableBlock(e)
    case CallEx(_, _, _) => PrintableCall(e)
    case IdentifierEx(_, name) => !IsReserved(name)
    case LiteralEx(_, value) => !IsReserved(LiteralWord(value))
  }

  predicate PrintableIf(e: Expression)
    requires e.IfEx?
    decreases e, 0
  {
    Printable(e.condition) && Printable(e.thenBlock)
    && (e.elseBlock.Some? ==> Printable(e.elseBlock.value) && !OpenEnd(e.thenBlock))
  }

  predicate PrintableBlock(e: Expression)
    requires e.BlockEx?
    decreases e, 0
  {
    forall x | x in e.exprs :: Printable(x)
  }

  predicate PrintableCall(e: Expression)
    requires e.CallEx?
    decreases e, 0
  {
    (forall x | x in e.args :: Printable(x))
    && (IsInfix(e) || ArrayShape(e) || (Level(e.func) == 3 && e.func.loc == e.loc && Printable(e.func)))
  }

  /** An infix call is `Binary`-shaped, and its operands sit at tighter levels. */
  lemma InfixParts(e: Expression)
    requires IsInfix(e)
    ensures BinaryShape(e) && Level(e) == ContinuesAt(e.func.name[5..])
    ensures Level(e.args[0]) < Level(e) && Level(e.args[1]) < Level(e)
  {
    assert Level(e) == CallLevel(e);
  }

  // ---------------------------------------------------------------------------
  // Writing trees as tokens

  function Sym(w: string, loc: Location): Token { Token(Symbol, w, loc) }
  function Key(w: string, loc: Location): Token { Token(Keyword, w, loc) }
  function Name(w: string, loc: Location): Token { Token(Identifier, w, loc) }

  function Print(e: Expression): (p: seq<Token>)
    ensures |p| > 0
    decreases Size(e), 1
  {
    match e
    case FunctionEx(_, _, _, _) => PrintFunction(e)
    case AssignmentEx(loc, name, body) =>
      [Key("val", loc), Name(name, loc), Token(Operator, "=", loc)] + Print(body)
    case IfEx(_, _, _, _) => PrintIf(e)
    case BlockEx(_, _) => PrintBlock(e)
    case CallEx(_, _, _) => PrintCall(e)
    case IdentifierEx(loc, name) => [Name(name, loc)]
    case LiteralEx(loc, value) =>
      match value
      case LitString(text) => [Token(StringLiteral, text, loc)]
      case LitNumber(lexeme) => [Token(NumberLiteral, lexeme, loc)]
  }

  /** `fun name(params) = body`. */
  function PrintFunction(e: Expression): (p: seq<Token>)
    requires e.FunctionEx?
    ensures |p| > 0
    decreases Size(e), 0
  {
    var FunctionEx(loc, name, params, body) := e;
    [Key("fun", loc), Name(name, loc), Sym("(", loc)] + PrintParams(params, loc)
      + [Sym(")", loc), Token(Operator, "=", loc)] + Print(body)
  }

  /** `if (condition) thenBlock`, then `else elseBlock` when there is one. */
  function PrintIf(e: Expression): (p: seq<Token>)
    requires e.IfEx?
    ensures |p| > 0
    decreases Size(e), 0
  {
    var IfEx(loc, condition, thenBlock, elseBlock) := e;
    [Key("if", loc), Sym("(", loc)] + Print(condition) + [Sym(")", loc)] + Print(thenBlock)
      + (if elseBlock.Some? then [Key("else", loc)] + Print(elseBlock.value) else [])
  }

  /** `{ exprs }`. */
  function PrintBlock(e: Expression): (p: seq<Token>)
    requires e.BlockEx?
    ensures |p| > 0
    decreases Size(e), 0
  {
    [Sym("{", e.loc)] + PrintSeq(e.exprs) + [Sym("}", e.loc)]
  }

  /** A call: infix, as an array literal, or as `callee(args)`. */
  function PrintCall(e: Expression): (p: seq<Token>)
    requires e.CallEx?
    ensures |p| > 0
    decreases Size(e), 0
  {
    var CallEx(loc, func, args) := e;
    if IsInfix(e) then
      InfixParts(e);
      assert Size(args[0]) <= SizeList(args) && Size(args[1]) <= SizeList(args[1..]);
      Print(args[0]) + [Token(Operator, func.name[5..], loc)] + Print(args[1])
    else if ArrayShape(e) then [Sym("[", loc)] + PrintArgs(args, loc) + [Sym("]", loc)]
    else Print(func) + [Sym("(", loc)] + PrintArgs(args, loc) + [Sym(")", loc)]
  }

  /** Block elements, one after the other. */
  function PrintSeq(es: seq<Expression>): seq<Token>
    decreases SizeList(es), 2
  {
    if es == [] then [] else Print(es[0]) + PrintSeq(es[1..])
  }

  /** Arguments separated by commas. */
  function PrintArgs(es: seq<Expression>, loc: Location): seq<Token>
    decreases SizeList(es), 3
  {
    if es == [] then [] else Print(es[0]) + PrintCommaSeq(es[1..], loc)
  }

  /** Each argument after the first, preceded by its comma. */
  function PrintCommaSeq(es: seq<Expression>, loc: Location): seq<Token>
    decreases SizeList(es), 2
  {
    if es == [] then [] else [Sym(",", loc)] + Print(es[0]) + PrintCommaSeq(es[1..], loc)
  }

  function PrintParams(params: seq<string>, loc: Location): seq<Token>
  {
    if params == [] then [] else [Name(params[0], loc)] + PrintCommaNames(params[1..], loc)
  }

  function PrintCommaNames(params: seq<string>, loc: Location): seq<Token>
  {
    if params == [] then [] else [Sym(",", loc), Name(params[0], loc)] + PrintCommaNames(params[1..], loc)
  }

  // ---------------------------------------------------------------------------
  // Where the tokens of a written tree sit

  /**
   * `ts` holds the tokens `p` from index `i` on. Stated one token at a time, so
   * that only the tokens a proof asks for are looked at; `SpellsAt` reads off any one.
   */
  predicate Spells(ts: seq<Token>, i: nat, p: seq<Token>)
    decreases |p|
  {
    p == [] || (i < |ts| && ts[i] == p[0] && Spells(ts, i + 1, p[1..]))
  }

  lemma {:induction false} SpellsSplit(ts: seq<Token>, i: nat, p: seq<Token>, q: seq<Token>)
    requires Spells(ts, i, p + q)
    ensures Spells(ts, i, p) && Spells(ts, i + |p|, q)
    decreases |p|
  {
    if p == [] {
      assert p + q == q;
    } else {
      assert (p + q)[0] == p[0];
      assert (p + q)[1..] == p[1..] + q;
      SpellsSplit(ts, i + 1, p[1..], q);
    }
  }

  lemma {:induction false} SpellsAt(ts: seq<Token>, i: nat, p: seq<Token>, k: nat)
    requires Spells(ts, i, p) && k < |p|
    ensures i + k < |ts| && ts[i + k] == p[k]
    decreases k
  {
    if k > 0 {
      SpellsAt(ts, i + 1, p[1..], k - 1);
    }
  }

  /** `e`, written out, sits in the parser's input from `i` on, and a token follows it. */
  predicate WrittenAt(e: Expression, ts: seq<Token>, i: nat)
  {
    WellFormed(ts) && Printable(e) && i + |Print(e)| < |ts| && Spells(ts, i, Print(e))
  }

  /**
   * `w` ends the expression `e` that comes before it: no level goes on with
   * `w`, and an `e` that ends in an `if` without `else` is not followed by `else`.
   */
  predicate StopsExpression(e: Expression, w: string) { ContinuesAt(w) == 8 && (w == "else" ==> !OpenEnd(e)) }

  /** A written tree starts with a keyword, an opening bracket or a name, never with a closing word. */
  lemma FirstWord(e: Expression)
    requires Printable(e)
    ensures !IsOperator(Print(e)[0].word) && Print(e)[0].word !in {"else", "}", "]", ")", "("}
    ensures Level(e) < 8 ==> Print(e)[0].word !in {"fun", "val", "if"}
    decreases e
  {
    match e
    case CallEx(loc, func, args) =>
      assert Print(e) == PrintCall(e) && Printable(e) == PrintableCall(e);
      if IsInfix(e) {
        InfixParts(e);
        assert args[0] in args;
        FirstWord(args[0]);
        assert Print(e)[0] == Print(args[0])[0];
      } else if !ArrayShape(e) {
        FirstWord(func);
        assert Print(e)[0] == Print(func)[0];
      }
    case _ =>
  }

  /** The word that starts a written tree ends whatever expression comes before it. */
  lemma StartStops(e: Expression, f: Expression)
    requires Printable(f)
    ensures StopsExpression(e, Print(f)[0].word)
  {
    FirstWord(f);
  }

  /**
   * Closing brackets, commas and the end of input end every expression;
   * `else` ends every binary level.
   */
  lemma ClosersStop(e: Expression)
    ensures StopsExpression(e, ")") && StopsExpression(e, "]") && StopsExpression(e, "}")
    ensures StopsExpression(e, ",") && StopsExpression(e, "") && ContinuesAt("else") == 8
  {
  }


  /** The first token of a written tree is the token at its position. */
  lemma SpellsHead(ts: seq<Token>, i: nat, p: seq<Token>)
    requires Spells(ts, i, p) && p != []
    ensures i < |ts| && ts[i] == p[0]
  {
  }

  /** A tree below the keyword level does not start with `fun`, `val` or `if`. */
  lemma LeadingWord(e: Expression, ts: seq<Token>, i: nat)
    requires WrittenAt(e, ts, i) && Level(e) < 8
    ensures i < |ts| && ts[i].word !in {"fun", "val", "if"}
  {
    FirstWord(e);
    SpellsHead(ts, i, Print(e));
  }

  lemma ConsAppend<T>(acc: seq<T>, es: seq<T>)
    requires es != []
    ensures acc + [es[0]] + es[1..] == acc + es
  {
  }

  // ---------------------------------------------------------------------------
  // One step of each parse function, in terms of the steps it is made of

  lemma FunctionStep(ts: seq<Token>, i: nat, e: Expression, k: nat, m: nat)
    requires e.FunctionEx? && WellFormed(ts) && i + 3 < |ts|
    requires ts[i].word == "fun" && ts[i].loc == e.loc
    requires ts[i + 1].kind == Identifier && ts[i + 1].word == e.identifier && ts[i + 2].word == "("
    requires ParamsFrom(ts, i + 3) == Ok((e.params, k)) && k + 2 < |ts|
    requires ts[k].word == ")" && ts[k + 1].word == "=" && ExpressionFrom(ts, k + 2) == Ok((e.body, m))
    ensures ExpressionFrom(ts, i) == Ok((e, m))
  {
    FunctionHeadStep(ts, i + 1, e, k, m);
  }

  /** The `fun` case of `FunctionStep`, from the token after the keyword, at `j`. */
  lemma FunctionHeadStep(ts: seq<Token>, j: nat, e: Expression, k: nat, m: nat)
    requires e.FunctionEx? && WellFormed(ts) && 1 <= j && j + 2 < |ts| && ts[j - 1].loc == e.loc
    requires ts[j].kind == Identifier && ts[j].word == e.identifier && ts[j + 1].word == "("
    requires ParamsFrom(ts, j + 2) == Ok((e.params, k)) && k + 2 < |ts|
    requires ts[k].word == ")" && ts[k + 1].word == "=" && ExpressionFrom(ts, k + 2) == Ok((e.body, m))
    ensures FunctionFrom(ts, j) == Ok((e, m))
  {
    assert TypeAt(ts, j, Identifier, "function name") == Ok((ts[j], j + 1));
    assert ExactAt(ts, j + 1, "(") == Ok(j + 2);
    assert ExactAt(ts, k, ")") == Ok(k + 1);
    assert ExactAt(ts, k + 1, "=") == Ok(k + 2);
  }

  lemma AssignmentStep(ts: seq<Token>, i: nat, e: Expression, m: nat)
    requires e.AssignmentEx? && WellFormed(ts) && i + 3 < |ts|
    requires ts[i].word == "val" && ts[i].loc == e.loc
    requires ts[i + 1].kind == Identifier && ts[i + 1].word == e.identifier && ts[i + 2].word == "="
    requires ExpressionFrom(ts, i + 3) == Ok((e.body, m))
    ensures ExpressionFrom(ts, i) == Ok((e, m))
  {
    assert TypeAt(ts, i + 1, Identifier, "value name") == Ok((ts[i + 1], i + 2));
    assert ExactAt(ts, i + 2, "=") == Ok(i + 3);
    assert AssignmentFrom(ts, i + 1) == Ok((e, m));
  }

  lemma IfStep(ts: seq<Token>, i: nat, e: Expression, k: nat, m: nat)
    requires e.IfEx? && !e.elseBlock.Some? && WellFormed(ts) && i + 2 < |ts|
    requires ts[i].word == "if" && ts[i].loc == e.loc && ts[i + 1].word == "("
    requires ExpressionFrom(ts, i + 2) == Ok((e.condition, k)) && k + 1 < |ts| && ts[k].word == ")"
    requires ExpressionFrom(ts, k + 1) == Ok((e.thenBlock, m)) && ts[m].word != "else"
    ensures ExpressionFrom(ts, i) == Ok((e, m))
  {
    assert ExactAt(ts, i + 1, "(") == Ok(i + 2);
    assert ExactAt(ts, k, ")") == Ok(k + 1);
    assert IfFrom(ts, i + 1) == Ok((e, m));
  }

  lemma IfElseStep(ts: seq<Token>, i: nat, e: Expression, k: nat, m: nat, n: nat)
    requires e.IfEx? && e.elseBlock.Some? && WellFormed(ts) && i + 2 < |ts|
    requires ts[i].word == "if" && ts[i].loc == e.loc && ts[i + 1].word == "("
    requires ExpressionFrom(ts, i + 2) == Ok((e.condition, k)) && k + 1 < |ts| && ts[k].word == ")"
    requires ExpressionFrom(ts, k + 1) == Ok((e.thenBlock, m)) && ts[m].word == "else" && m + 1 < |ts|
    requires ExpressionFrom(ts, m + 1) == Ok((e.elseBlock.value, n))
    ensures ExpressionFrom(ts, i) == Ok((e, n))
  {
    IfElseHeadStep(ts, i + 1, e.condition, e.thenBlock, e.elseBlock.value, k, m, n);
    assert e == IfEx(ts[i].loc, e.condition, e.thenBlock, Some(e.elseBlock.value));
  }

  /** The `if` case of `IfElseStep`, from the token after the keyword, at `j`. */
  lemma IfElseHeadStep(ts: seq<Token>, j: nat, c: Expression, t: Expression, el: Expression, k: nat, m: nat, n: nat)
    requires WellFormed(ts) && 1 <= j && j + 1 < |ts| && ts[j].word == "("
    requires ExpressionFrom(ts, j + 1) == Ok((c, k)) && k + 1 < |ts| && ts[k].word == ")"
    requires ExpressionFrom(ts, k + 1) == Ok((t, m)) && ts[m].word == "else" && m + 1 < |ts|
    requires ExpressionFrom(ts, m + 1) == Ok((el, n))
    ensures IfFrom(ts, j) == Ok((IfEx(ts[j - 1].loc, c, t, Some(el)), n))
  {
    assert ExactAt(ts, j, "(") == Ok(j + 1);
    assert ExactAt(ts, k, ")") == Ok(k + 1);
  }

  lemma CompareStep(ts: seq<Token>, i: nat, e: Expression, j: nat)
    requires WellFormed(ts) && i < |ts| && ts[i].word !in {"fun", "val", "if"}
    requires SumFrom(ts, i) == Ok((e, j)) && ContinuesAt(ts[j].word) > 7
    ensures ExpressionFrom(ts, i) == Ok((e, j))
  {
    assert CompareFrom(ts, i) == Ok((e, j));
  }

  lemma CompareOpStep(ts: seq<Token>, i: nat, l: Expression, j: nat, r: Expression, k: nat)
    requires WellFormed(ts) && i < |ts| && ts[i].word !in {"fun", "val", "if"}
    requires SumFrom(ts, i) == Ok((l, j)) && ContinuesAt(ts[j].word) == 7
    requires SumFrom(ts, j + 1) == Ok((r, k))
    ensures ExpressionFrom(ts, i) == Ok((Binary(ts[j], l, r), k))
  {
    assert CompareFrom(ts, i) == Ok((Binary(ts[j], l, r), k));
  }

  lemma SumStep(ts: seq<Token>, i: nat, e: Expression, j: nat)
    requires WellFormed(ts) && i < |ts|
    requires ProdFrom(ts, i) == Ok((e, j)) && ContinuesAt(ts[j].word) > 6
    ensures SumFrom(ts, i) == Ok((e, j))
  {
  }

  lemma SumOpStep(ts: seq<Token>, i: nat, l: Expression, j: nat, r: Expression, k: nat)
    requires WellFormed(ts) && i < |ts|
    requires ProdFrom(ts, i) == Ok((l, j)) && ContinuesAt(ts[j].word) == 6
    requires ProdFrom(ts, j + 1) == Ok((r, k))
    ensures SumFrom(ts, i) == Ok((Binary(ts[j], l, r), k))
  {
  }

  lemma ProdStep(ts: seq<Token>, i: nat, e: Expression, j: nat)
    requires WellFormed(ts) && i < |ts|
    requires CallFrom(ts, i) == Ok((e, j)) && ContinuesAt(ts[j].word) > 5
    ensures ProdFrom(ts, i) == Ok((e, j))
  {
  }

  lemma ProdOpStep(ts: seq<Token>, i: nat, l: Expression, j: nat, r: Expression, k: nat)
    requires WellFormed(ts) && i < |ts|
    requires CallFrom(ts, i) == Ok((l, j)) && ContinuesAt(ts[j].word) == 5
    requires CallFrom(ts, j + 1) == Ok((r, k))
    ensures ProdFrom(ts, i) == Ok((Binary(ts[j], l, r), k))
  {
  }

  lemma CallStep(ts: seq<Token>, i: nat, e: Expression, j: nat)
    requires WellFormed(ts) && i < |ts|
    requires BlockFrom(ts, i) == Ok((e, j)) && ContinuesAt(ts[j].word) > 4
    ensures CallFrom(ts, i) == Ok((e, j))
  {
  }

  lemma CallArgsStep(ts: seq<Token>, i: nat, e: Expression, j: nat, n: nat)
    requires e.CallEx? && e.func.loc == e.loc && WellFormed(ts) && i < |ts|
    requires BlockFrom(ts, i) == Ok((e.func, j)) && ts[j].word == "(" && j + 1 < |ts|
    requires ArgumentsFrom(ts, j + 1, ")") == Ok((e.args, n))
    ensures CallFrom(ts, i) == Ok((e, n))
  {
  }

  lemma BlockStep(ts: seq<Token>, i: nat, e: Expression, k: nat)
    requires e.BlockEx? && WellFormed(ts) && i + 1 < |ts| && ts[i].word == "{" && ts[i].loc == e.loc
    requires BlockBodyFrom(ts, i + 1, e.loc, []) == Ok((BlockEx(e.loc, [] + e.exprs), k))
    ensures BlockFrom(ts, i) == Ok((e, k))
  {
    assert [] + e.exprs == e.exprs;
  }

  lemma ArrayStep(ts: seq<Token>, i: nat, e: Expression, k: nat)
    requires ArrayShape(e) && WellFormed(ts) && i + 1 < |ts| && ts[i].word == "[" && ts[i].loc == e.loc
    requires ArgumentsFrom(ts, i + 1, "]") == Ok((e.args, k))
    ensures BlockFrom(ts, i) == Ok((e, k))
  {
    assert ts[i].word != "{";
  }

  lemma TermStep(e: Expression, ts: seq<Token>, i: nat, n: nat)
    requires e.IdentifierEx? || e.LiteralEx?
    requires WellFormed(ts) && Printable(e) && i < |ts| && ts[i] == Print(e)[0] && n == i + 1
    ensures BlockFrom(ts, i) == Ok((e, n))
  {
  }

  lemma BlockBodyStep(ts: seq<Token>, i: nat, loc: Location, acc: seq<Expression>, e: Expression, j: nat)
    requires WellFormed(ts) && i < |ts| && ts[i].word != "}"
    requires ExpressionFrom(ts, i) == Ok((e, j))
    ensures BlockBodyFrom(ts, i, loc, acc) == BlockBodyFrom(ts, j, loc, acc + [e])
  {
  }

  lemma ArgumentsStep(ts: seq<Token>, i: nat, close: string, args: seq<Expression>, j: nat, c: nat, n: nat)
    requires args != [] && WellFormed(ts) && i < |ts| && close != "" && ts[i].word != close
    requires ExpressionFrom(ts, i) == Ok((args[0], j))
    requires ArgumentsRestFrom(ts, j, [args[0]]) == Ok(([args[0]] + args[1..], c)) && ts[c].word == close
    requires n == c + 1
    ensures ArgumentsFrom(ts, i, close) == Ok((args, n))
  {
    assert [args[0]] + args[1..] == args;
    assert ExactAt(ts, c, close) == Ok(n);
  }

  lemma CommaStep(ts: seq<Token>, i: nat, acc: seq<Expression>, e: Expression, j: nat)
    requires WellFormed(ts) && i + 1 < |ts| && ts[i].word == ","
    requires ExpressionFrom(ts, i + 1) == Ok((e, j))
    ensures ArgumentsRestFrom(ts, i, acc) == ArgumentsRestFrom(ts, j, acc + [e])
  {
  }

  lemma CommaNameStep(ts: seq<Token>, i: nat, acc: seq<string>)
    requires WellFormed(ts) && i + 2 < |ts| && ts[i].word == "," && ts[i + 1].kind == Identifier
    ensures ParamsRestFrom(ts, i, acc) == ParamsRestFrom(ts, i + 2, acc + [ts[i + 1].word])
  {
    assert TypeAt(ts, i + 1, Identifier, "parameter") == Ok((ts[i + 1], i + 2));
  }

  // ---------------------------------------------------------------------------
  // The tokens each kind of tree is written as

  /** `ts` spells `a + b` from `i` on: `a` from `i`, and `b` from `j`, where `a` ends. */
  lemma SpellsParts(ts: seq<Token>, i: nat, a: seq<Token>, b: seq<Token>, j: nat)
    requires Spells(ts, i, a + b) && j == i + |a|
    ensures Spells(ts, i, a) && Spells(ts, j, b) && j + |b| == i + |a + b|
  {
    SpellsSplit(ts, i, a, b);
  }

  lemma SpellsParts3(ts: seq<Token>, i: nat, a: seq<Token>, b: seq<Token>, c: seq<Token>, j: nat, k: nat)
    requires Spells(ts, i, a + b + c) && j == i + |a| && k == j + |b|
    ensures Spells(ts, i, a) && Spells(ts, j, b) && Spells(ts, k, c) && k + |c| == i + |a + b + c|
  {
    SpellsParts(ts, i, a + b, c, k);
    SpellsParts(ts, i, a, b, j);
  }

  lemma SpellsParts4(ts: seq<Token>, i: nat, a: seq<Token>, b: seq<Token>, c: seq<Token>, d: seq<Token>,
                     j: nat, k: nat, m: nat)
    requires Spells(ts, i, a + b + c + d) && j == i + |a| && k == j + |b| && m == k + |c|
    ensures Spells(ts, i, a) && Spells(ts, j, b) && Spells(ts, k, c) && Spells(ts, m, d)
    ensures m + |d| == i + |a + b + c + d|
  {
    SpellsParts(ts, i, a + b + c, d, m);
    SpellsParts3(ts, i, a, b, c, j, k);
  }

  lemma SpellsOne(ts: seq<Token>, i: nat, t: Token)
    requires Spells(ts, i, [t])
    ensures i < |ts| && ts[i] == t
  {
  }

  lemma SpellsTwo(ts: seq<Token>, i: nat, t: Token, u: Token)
    requires Spells(ts, i, [t, u])
    ensures i + 1 < |ts| && ts[i] == t && ts[i + 1] == u
  {
    assert [t, u][1..] == [u];
    SpellsOne(ts, i + 1, u);
  }

  lemma SpellsThree(ts: seq<Token>, i: nat, t: Token, u: Token, v: Token)
    requires Spells(ts, i, [t, u, v])
    ensures i + 2 < |ts| && ts[i] == t && ts[i + 1] == u && ts[i + 2] == v
  {
    assert [t, u, v][1..] == [u, v];
    SpellsTwo(ts, i + 1, u, v);
  }

  /** `fun name(params) =`, and where the body starts. */
  lemma FunctionPieces(e: Expression, ts: seq<Token>, i: nat) returns (k: nat)
    requires e.FunctionEx? && WrittenAt(e, ts, i)
    ensures k == i + 3 + |PrintParams(e.params, e.loc)| && k + 2 < |ts|
    ensures WellFormed(ts) && i + 3 < |ts| && ts[i].word == "fun" && ts[i].loc == e.loc
    ensures ts[i + 1].kind == Identifier && ts[i + 1].word == e.identifier && ts[i + 2].word == "("
    ensures Spells(ts, i + 3, PrintParams(e.params, e.loc)) && ts[k] == Sym(")", e.loc) && ts[k + 1].word == "="
    ensures Spells(ts, k + 2, Print(e.body)) && k + 2 + |Print(e.body)| == i + |Print(e)|
  {
    var head := [Key("fun", e.loc), Name(e.identifier, e.loc), Sym("(", e.loc)];
    var pp := PrintParams(e.params, e.loc);
    var mid := [Sym(")", e.loc), Token(Operator, "=", e.loc)];
    k := i + 3 + |pp|;
    assert Print(e) == PrintFunction(e) == head + pp + mid + Print(e.body);
    SpellsParts4(ts, i, head, pp, mid, Print(e.body), i + 3, k, k + 2);
    SpellsThree(ts, i, Key("fun", e.loc), Name(e.identifier, e.loc), Sym("(", e.loc));
    SpellsTwo(ts, k, Sym(")", e.loc), Token(Operator, "=", e.loc));
  }

  /** The body of a function sits where its tokens are, and what follows it ends it. */
  lemma FunctionBodyPieces(e: Expression, ts: seq<Token>, i: nat, k: nat, n: nat)
    requires e.FunctionEx? && WrittenAt(e, ts, i) && n == i + |Print(e)| && StopsExpression(e, ts[n].word)
    requires Spells(ts, k + 2, Print(e.body)) && k + 2 + |Print(e.body)| == n
    ensures WrittenAt(e.body, ts, k + 2) && StopsExpression(e.body, ts[n].word)
  {
    assert OpenEnd(e) == OpenEnd(e.body);
  }

  lemma AssignmentPieces(e: Expression, ts: seq<Token>, i: nat, n: nat)
    requires e.AssignmentEx? && WrittenAt(e, ts, i) && n == i + |Print(e)| && StopsExpression(e, ts[n].word)
    ensures WellFormed(ts) && i + 3 < |ts| && ts[i].word == "val" && ts[i].loc == e.loc
    ensures ts[i + 1].kind == Identifier && ts[i + 1].word == e.identifier && ts[i + 2].word == "="
    ensures WrittenAt(e.body, ts, i + 3) && n == i + 3 + |Print(e.body)| && StopsExpression(e.body, ts[n].word)
  {
    var head := [Key("val", e.loc), Name(e.identifier, e.loc), Token(Operator, "=", e.loc)];
    assert Print(e) == head + Print(e.body);
    SpellsParts(ts, i, head, Print(e.body), i + 3);
    SpellsThree(ts, i, Key("val", e.loc), Name(e.identifier, e.loc), Token(Operator, "=", e.loc));
    assert OpenEnd(e) == OpenEnd(e.body);
  }

  /** The tokens of an `if` up to the end of its then-branch. */
  function IfFront(e: Expression): seq<Token>
    requires e.IfEx?
  {
    [Key("if", e.loc), Sym("(", e.loc)] + Print(e.condition) + [Sym(")", e.loc)] + Print(e.thenBlock)
  }

  /** `if (condition) thenBlock`, followed by whatever `tail` holds. */
  lemma IfFrontPieces(e: Expression, ts: seq<Token>, i: nat, tail: seq<Token>) returns (k: nat, m: nat)
    requires e.IfEx? && WellFormed(ts) && Printable(e) && PrintableIf(e)
    requires Spells(ts, i, IfFront(e) + tail) && i + |IfFront(e) + tail| < |ts|
    ensures k == i + 2 + |Print(e.condition)| && m == k + 1 + |Print(e.thenBlock)|
    ensures i + 2 < |ts| && ts[i].word == "if" && ts[i].loc == e.loc && ts[i + 1].word == "("
    ensures WrittenAt(e.condition, ts, i + 2) && StopsExpression(e.condition, ts[k].word)
    ensures k + 1 < |ts| && ts[k].word == ")" && WrittenAt(e.thenBlock, ts, k + 1)
    ensures Spells(ts, m, tail) && m + |tail| == i + |IfFront(e) + tail|
  {
    var head := [Key("if", e.loc), Sym("(", e.loc)];
    var close := [Sym(")", e.loc)];
    k := i + 2 + |Print(e.condition)|;
    m := k + 1 + |Print(e.thenBlock)|;
    SpellsParts(ts, i, IfFront(e), tail, m);
    SpellsParts4(ts, i, head, Print(e.condition), close, Print(e.thenBlock), i + 2, k, k + 1);
    SpellsTwo(ts, i, Key("if", e.loc), Sym("(", e.loc));
    SpellsOne(ts, k, Sym(")", e.loc));
    ClosersStop(e.condition);
  }

  /** An `if` without `else`: its pieces, and the then-branch ends it. */
  lemma IfThenPieces(e: Expression, ts: seq<Token>, i: nat, n: nat) returns (k: nat)
    requires e.IfEx? && !e.elseBlock.Some? && WrittenAt(e, ts, i)
    requires n == i + |Print(e)| && StopsExpression(e, ts[n].word)
    ensures k == i + 2 + |Print(e.condition)| && WellFormed(ts) && i + 2 < |ts|
    ensures ts[i].word == "if" && ts[i].loc == e.loc && ts[i + 1].word == "("
    ensures WrittenAt(e.condition, ts, i + 2) && StopsExpression(e.condition, ts[k].word)
    ensures k + 1 < |ts| && ts[k].word == ")" && WrittenAt(e.thenBlock, ts, k + 1)
    ensures n == k + 1 + |Print(e.thenBlock)| && ts[n].word != "else"
    ensures StopsExpression(e.thenBlock, ts[n].word)
  {
    assert Printable(e) == PrintableIf(e);
    assert Print(e) == PrintIf(e) == IfFront(e) + [];
    var m;
    k, m := IfFrontPieces(e, ts, i, []);
    assert OpenEnd(e);
  }

  /** An `if` with an `else`: its pieces, and the `else` word ends the then-branch. */
  lemma IfElsePieces(e: Expression, ts: seq<Token>, i: nat, n: nat) returns (k: nat, m: nat)
    requires e.IfEx? && e.elseBlock.Some? && WrittenAt(e, ts, i) && n == i + |Print(e)|
    ensures k == i + 2 + |Print(e.condition)| && WellFormed(ts) && Printable(e) && i + 2 < |ts|
    ensures ts[i].word == "if" && ts[i].loc == e.loc && ts[i + 1].word == "("
    ensures WrittenAt(e.condition, ts, i + 2) && StopsExpression(e.condition, ts[k].word)
    ensures k + 1 < |ts| && ts[k].word == ")" && WrittenAt(e.thenBlock, ts, k + 1)
    ensures m == k + 1 + |Print(e.thenBlock)|
    ensures Spells(ts, m, [Key("else", e.loc)] + Print(e.elseBlock.value))
    ensures n == m + 1 + |Print(e.elseBlock.value)|
  {
    assert Printable(e) == PrintableIf(e);
    var tail := [Key("else", e.loc)] + Print(e.elseBlock.value);
    assert Print(e) == PrintIf(e) == IfFront(e) + tail;
    k, m := IfFrontPieces(e, ts, i, tail);
  }

  /** `else elseBlock`, after the then-branch. */
  lemma ElsePieces(e: Expression, ts: seq<Token>, m: nat, n: nat)
    requires e.IfEx? && e.elseBlock.Some? && WellFormed(ts) && Printable(e)
    requires Spells(ts, m, [Key("else", e.loc)] + Print(e.elseBlock.value))
    requires n == m + 1 + |Print(e.elseBlock.value)| && n < |ts| && StopsExpression(e, ts[n].word)
    ensures m + 1 < |ts| && ts[m].word == "else" && StopsExpression(e.thenBlock, ts[m].word)
    ensures WrittenAt(e.elseBlock.value, ts, m + 1) && StopsExpression(e.elseBlock.value, ts[n].word)
  {
    assert Printable(e) == PrintableIf(e);
    SpellsParts(ts, m, [Key("else", e.loc)], Print(e.elseBlock.value), m + 1);
    SpellsOne(ts, m, Key("else", e.loc));
    ClosersStop(e.thenBlock);
    assert OpenEnd(e) == OpenEnd(e.elseBlock.value);
  }

  /** The operands and the operator token of a tree written infix. */
  lemma InfixPieces(e: Expression, ts: seq<Token>, i: nat, n: nat) returns (l: Expression, r: Expression, j: nat)
    requires IsInfix(e) && WrittenAt(e, ts, i) && n == i + |Print(e)|
    ensures BinaryShape(e)
    ensures l == e.args[0] && r == e.args[1] && j == i + |Print(l)| && j < |ts| && e == Binary(ts[j], l, r)
    ensures Level(l) < Level(e) && Level(r) < Level(e) && Size(l) < Size(e) && Size(r) < Size(e)
    ensures WrittenAt(l, ts, i) && WrittenAt(r, ts, j + 1) && n == j + 1 + |Print(r)|
    ensures ContinuesAt(ts[j].word) == Level(e)
  {
    InfixParts(e);
    assert Print(e) == PrintCall(e) && Printable(e) == PrintableCall(e);
    var CallEx(loc, func, args) := e;
    var op := Token(Operator, func.name[5..], loc);
    l, r := args[0], args[1];
    j := i + |Print(l)|;
    assert l in args && r in args;
    assert Print(e) == Print(l) + [op] + Print(r);
    SpellsParts3(ts, i, Print(l), [op], Print(r), j, j + 1);
    SpellsOne(ts, j, op);
    assert func.name == "Core." + op.word;
    assert args == [l, r];
    assert SizeList(args) == Size(l) + Size(r) by {
      assert args[1..] == [r];
      assert SizeList(args[1..][1..]) == 0;
      assert SizeList(args[1..]) == Size(r);
    }
  }

  /** `func(args)`: the callee, then the argument list in parentheses. */
  lemma CallPieces(e: Expression, ts: seq<Token>, i: nat, n: nat) returns (j: nat, c: nat)
    requires Level(e) == 4 && WrittenAt(e, ts, i) && n == i + |Print(e)|
    ensures e.CallEx? && e.func.loc == e.loc && j == i + |Print(e.func)|
    ensures WrittenAt(e.func, ts, i) && Level(e.func) == 3 && Size(e.func) < Size(e)
    ensures ts[j].word == "(" && j + 1 < |ts|
    ensures WellFormed(ts) && (forall x | x in e.args :: Printable(x)) && SizeList(e.args) < Size(e)
    ensures Spells(ts, j + 1, PrintArgs(e.args, e.loc)) && c == j + 1 + |PrintArgs(e.args, e.loc)|
    ensures c < |ts| && ts[c].word == ")" && n == c + 1
  {
    assert Level(e) == CallLevel(e) && Print(e) == PrintCall(e) && Printable(e) == PrintableCall(e);
    var pa := PrintArgs(e.args, e.loc);
    var open, close := [Sym("(", e.loc)], [Sym(")", e.loc)];
    j := i + |Print(e.func)|;
    c := j + 1 + |pa|;
    assert Print(e) == Print(e.func) + open + pa + close;
    SpellsParts4(ts, i, Print(e.func), open, pa, close, j, j + 1, c);
    SpellsOne(ts, j, Sym("(", e.loc));
    SpellsOne(ts, c, Sym(")", e.loc));
  }

  /** `{ exprs }`. */
  lemma BlockPieces(e: Expression, ts: seq<Token>, i: nat, n: nat) returns (c: nat)
    requires e.BlockEx? && WrittenAt(e, ts, i) && n == i + |Print(e)|
    ensures WellFormed(ts) && i + 1 < |ts| && ts[i].word == "{" && ts[i].loc == e.loc
    ensures (forall x | x in e.exprs :: Printable(x)) && SizeList(e.exprs) < Size(e)
    ensures Spells(ts, i + 1, PrintSeq(e.exprs)) && c == i + 1 + |PrintSeq(e.exprs)|
    ensures c < |ts| && ts[c].word == "}" && n == c + 1
  {
    assert Printable(e) == PrintableBlock(e);
    var open, body, close := [Sym("{", e.loc)], PrintSeq(e.exprs), [Sym("}", e.loc)];
    c := i + 1 + |body|;
    assert Print(e) == PrintBlock(e) == open + body + close;
    SpellsParts3(ts, i, open, body, close, i + 1, c);
    SpellsOne(ts, i, Sym("{", e.loc));
    SpellsOne(ts, c, Sym("}", e.loc));
  }

  /** `[ args ]`. */
  lemma ArrayPieces(e: Expression, ts: seq<Token>, i: nat, n: nat) returns (c: nat)
    requires ArrayShape(e) && !IsInfix(e) && WrittenAt(e, ts, i) && n == i + |Print(e)|
    ensures WellFormed(ts) && i + 1 < |ts| && ts[i].word == "[" && ts[i].loc == e.loc
    ensures (forall x | x in e.args :: Printable(x)) && SizeList(e.args) < Size(e)
    ensures Spells(ts, i + 1, PrintArgs(e.args, e.loc)) && c == i + 1 + |PrintArgs(e.args, e.loc)|
    ensures c < |ts| && ts[c].word == "]" && n == c + 1
  {
    assert Print(e) == PrintCall(e) && Printable(e) == PrintableCall(e);
    var open, body, close := [Sym("[", e.loc)], PrintArgs(e.args, e.loc), [Sym("]", e.loc)];
    c := i + 1 + |body|;
    assert Print(e) == open + body + close;
    SpellsParts3(ts, i, open, body, close, i + 1, c);
    SpellsOne(ts, i, Sym("[", e.loc));
    SpellsOne(ts, c, Sym("]", e.loc));
  }

  /** The first element of a block body, and what follows it. */
  lemma BlockElementPieces(es: seq<Expression>, ts: seq<Token>, i: nat, c: nat) returns (j: nat)
    requires es != [] && WellFormed(ts) && (forall x | x in es :: Printable(x))
    requires Spells(ts, i, PrintSeq(es)) && c == i + |PrintSeq(es)| && c < |ts| && ts[c].word == "}"
    ensures j == i + |Print(es[0])|
    ensures WrittenAt(es[0], ts, i) && ts[i].word != "}" && StopsExpression(es[0], ts[j].word)
    ensures Spells(ts, j, PrintSeq(es[1..])) && (forall x | x in es[1..] :: Printable(x))
    ensures c == j + |PrintSeq(es[1..])|
  {
    var first, rest := es[0], PrintSeq(es[1..]);
    j := i + |Print(first)|;
    assert first in es;
    SpellsParts(ts, i, Print(first), rest, j);
    FirstWord(first);
    SpellsHead(ts, i, Print(first));
    if es[1..] != [] {
      var next := es[1..][0];
      assert next in es[1..];
      assert rest[0] == Print(next)[0];
      SpellsHead(ts, j, rest);
      StartStops(first, next);
    } else {
      assert rest == [];
      ClosersStop(first);
    }
  }

  /** The first argument of a list, and what follows it. */
  lemma ArgumentPieces(args: seq<Expression>, ts: seq<Token>, i: nat, loc: Location, close: string, c: nat)
    returns (j: nat)
    requires args != [] && (close == ")" || close == "]")
    requires WellFormed(ts) && (forall x | x in args :: Printable(x))
    requires Spells(ts, i, PrintArgs(args, loc)) && c == i + |PrintArgs(args, loc)| && c < |ts| && ts[c].word == close
    ensures j == i + |Print(args[0])|
    ensures WrittenAt(args[0], ts, i) && ts[i].word != close && StopsExpression(args[0], ts[j].word)
    ensures Spells(ts, j, PrintCommaSeq(args[1..], loc)) && (forall x | x in args[1..] :: Printable(x))
    ensures c == j + |PrintCommaSeq(args[1..], loc)|
  {
    var first, rest := args[0], PrintCommaSeq(args[1..], loc);
    j := i + |Print(first)|;
    assert first in args;
    SpellsParts(ts, i, Print(first), rest, j);
    FirstWord(first);
    SpellsHead(ts, i, Print(first));
    ClosersStop(first);
    if args[1..] != [] {
      SpellsHead(ts, j, rest);
    } else {
      assert rest == [];
    }
  }

  /** A comma, the argument after it, and what follows that argument. */
  lemma CommaPieces(es: seq<Expression>, ts: seq<Token>, i: nat, loc: Location, close: string, c: nat)
    returns (j: nat)
    requires es != [] && (close == ")" || close == "]")
    requires WellFormed(ts) && (forall x | x in es :: Printable(x))
    requires Spells(ts, i, PrintCommaSeq(es, loc)) && c == i + |PrintCommaSeq(es, loc)| && c < |ts| && ts[c].word == close
    ensures j == i + 1 + |Print(es[0])|
    ensures i + 1 < |ts| && ts[i].word == "," && WrittenAt(es[0], ts, i + 1) && StopsExpression(es[0], ts[j].word)
    ensures Spells(ts, j, PrintCommaSeq(es[1..], loc)) && (forall x | x in es[1..] :: Printable(x))
    ensures c == j + |PrintCommaSeq(es[1..], loc)|
  {
    var first, rest := es[0], PrintCommaSeq(es[1..], loc);
    j := i + 1 + |Print(first)|;
    assert first in es;
    SpellsParts3(ts, i, [Sym(",", loc)], Print(first), rest, i + 1, j);
    SpellsOne(ts, i, Sym(",", loc));
    ClosersStop(first);
    if es[1..] != [] {
      SpellsHead(ts, j, rest);
    } else {
      assert rest == [];
    }
  }

  /** A comma and the parameter name after it. */
  lemma CommaNamePieces(ps: seq<string>, ts: seq<Token>, i: nat, loc: Location, k: nat)
    requires ps != [] && Spells(ts, i, PrintCommaNames(ps, loc)) && k == i + |PrintCommaNames(ps, loc)| && k < |ts|
    ensures i + 2 < |ts| && ts[i].word == "," && ts[i + 1].kind == Identifier && ts[i + 1].word == ps[0]
    ensures Spells(ts, i + 2, PrintCommaNames(ps[1..], loc)) && k == i + 2 + |PrintCommaNames(ps[1..], loc)|
  {
    var head := [Sym(",", loc), Name(ps[0], loc)];
    SpellsParts(ts, i, head, PrintCommaNames(ps[1..], loc), i + 2);
    SpellsTwo(ts, i, Sym(",", loc), Name(ps[0], loc));
  }

  // ---------------------------------------------------------------------------
  // The round trip, level by level

  /** The main round trip: a written tree followed by a word that ends it parses back to itself. */
  lemma ExpressionParses(e: Expression, ts: seq<Token>, i: nat, n: nat)
    requires WrittenAt(e, ts, i) && n == i + |Print(e)| && StopsExpression(e, ts[n].word)
    ensures ExpressionFrom(ts, i) == Ok((e, n))
    decreases Size(e), 10
  {
    if e.FunctionEx? {
      FunctionParses(e, ts, i, n);
    } else if e.AssignmentEx? {
      AssignmentPieces(e, ts, i, n);
      ExpressionParses(e.body, ts, i + 3, n);
      AssignmentStep(ts, i, e, n);
    } else if e.IfEx? {
      IfParses(e, ts, i, n);
    } else {
      LeadingWord(e, ts, i);
      CompareParses(e, ts, i, n);
    }
  }

  lemma FunctionParses(e: Expression, ts: seq<Token>, i: nat, n: nat)
    requires e.FunctionEx? && WrittenAt(e, ts, i) && n == i + |Print(e)| && StopsExpression(e, ts[n].word)
    ensures ExpressionFrom(ts, i) == Ok((e, n))
    decreases Size(e), 9
  {
    var k := FunctionPieces(e, ts, i);
    ParamsParse(e.params, ts, i + 3, e.loc, k);
    FunctionBodyParses(e, ts, i, k, n);
  }

  /** A function declaration, once its parameters are read. */
  lemma FunctionBodyParses(e: Expression, ts: seq<Token>, i: nat, k: nat, n: nat)
    requires e.FunctionEx? && WrittenAt(e, ts, i) && n == i + |Print(e)| && StopsExpression(e, ts[n].word)
    requires i + 3 < |ts| && ts[i].word == "fun" && ts[i].loc == e.loc
    requires ts[i + 1].kind == Identifier && ts[i + 1].word == e.identifier && ts[i + 2].word == "("
    requires ParamsFrom(ts, i + 3) == Ok((e.params, k)) && k + 2 < |ts| && ts[k].word == ")" && ts[k + 1].word == "="
    requires Spells(ts, k + 2, Print(e.body)) && k + 2 + |Print(e.body)| == n
    ensures ExpressionFrom(ts, i) == Ok((e, n))
    decreases Size(e), 8
  {
    FunctionBodyPieces(e, ts, i, k, n);
    ExpressionParses(e.body, ts, k + 2, n);
    FunctionStep(ts, i, e, k, n);
  }

  lemma IfParses(e: Expression, ts: seq<Token>, i: nat, n: nat)
    requires e.IfEx? && WrittenAt(e, ts, i) && n == i + |Print(e)| && StopsExpression(e, ts[n].word)
    ensures ExpressionFrom(ts, i) == Ok((e, n))
    decreases Size(e), 9
  {
    if e.elseBlock.Some? {
      IfElseParses(e, ts, i, n);
    } else {
      IfThenParses(e, ts, i, n);
    }
  }

  /** An `if` without `else`. */
  lemma IfThenParses(e: Expression, ts: seq<Token>, i: nat, n: nat)
    requires e.IfEx? && !e.elseBlock.Some? && WrittenAt(e, ts, i)
    requires n == i + |Print(e)| && StopsExpression(e, ts[n].word)
    ensures ExpressionFrom(ts, i) == Ok((e, n))
    decreases Size(e), 8
  {
    var k := IfThenPieces(e, ts, i, n);
    ExpressionParses(e.condition, ts, i + 2, k);
    ExpressionParses(e.thenBlock, ts, k + 1, n);
    IfStep(ts, i, e, k, n);
  }

  /** An `if` with an `else`. */
  lemma IfElseParses(e: Expression, ts: seq<Token>, i: nat, n: nat)
    requires e.IfEx? && e.elseBlock.Some? && WrittenAt(e, ts, i)
    requires n == i + |Print(e)| && StopsExpression(e, ts[n].word)
    ensures ExpressionFrom(ts, i) == Ok((e, n))
    decreases Size(e), 8
  {
    var k, m := IfElsePieces(e, ts, i, n);
    ExpressionParses(e.condition, ts, i + 2, k);
    ThenElseParses(e, ts, i, k, m, n);
  }

  /** An `if` with an `else`, once its condition is read. */
  lemma ThenElseParses(e: Expression, ts: seq<Token>, i: nat, k: nat, m: nat, n: nat)
    requires e.IfEx? && e.elseBlock.Some? && WellFormed(ts) && Printable(e) && i + 2 < |ts|
    requires ts[i].word == "if" && ts[i].loc == e.loc && ts[i + 1].word == "("
    requires ExpressionFrom(ts, i + 2) == Ok((e.condition, k)) && k + 1 < |ts| && ts[k].word == ")"
    requires WrittenAt(e.thenBlock, ts, k + 1) && m == k + 1 + |Print(e.thenBlock)|
    requires Spells(ts, m, [Key("else", e.loc)] + Print(e.elseBlock.value))
    requires n == m + 1 + |Print(e.elseBlock.value)| && n < |ts| && StopsExpression(e, ts[n].word)
    ensures ExpressionFrom(ts, i) == Ok((e, n))
    decreases Size(e), 7
  {
    ElsePieces(e, ts, m, n);
    ExpressionParses(e.thenBlock, ts, k + 1, m);
    ElseParses(e, ts, i, k, m, n);
  }

  /** The `else` branch, once the then-branch is read. */
  lemma ElseParses(e: Expression, ts: seq<Token>, i: nat, k: nat, m: nat, n: nat)
    requires e.IfEx? && e.elseBlock.Some? && WellFormed(ts) && i + 2 < |ts|
    requires ts[i].word == "if" && ts[i].loc == e.loc && ts[i + 1].word == "("
    requires ExpressionFrom(ts, i + 2) == Ok((e.condition, k)) && k + 1 < |ts| && ts[k].word == ")"
    requires ExpressionFrom(ts, k + 1) == Ok((e.thenBlock, m)) && m + 1 < |ts| && ts[m].word == "else"
    requires WrittenAt(e.elseBlock.value, ts, m + 1) && n == m + 1 + |Print(e.elseBlock.value)|
    requires StopsExpression(e.elseBlock.value, ts[n].word)
    ensures ExpressionFrom(ts, i) == Ok((e, n))
    decreases Size(e), 6
  {
    ExpressionParses(e.elseBlock.value, ts, m + 1, n);
    IfElseStep(ts, i, e, k, m, n);
  }

  /** Below `parseExpression`: the comparison level, given a word that is not a keyword. */
  lemma CompareParses(e: Expression, ts: seq<Token>, i: nat, n: nat)
    requires WrittenAt(e, ts, i) && n == i + |Print(e)| && Level(e) <= 7 && ContinuesAt(ts[n].word) > 7
    requires i < |ts| && ts[i].word !in {"fun", "val", "if"}
    ensures ExpressionFrom(ts, i) == Ok((e, n))
    decreases Size(e), 9
  {
    if Level(e) == 7 {
      CompareOpParses(e, ts, i, n);
    } else {
      SumParses(e, ts, i, n);
      CompareStep(ts, i, e, n);
    }
  }

  lemma CompareOpParses(e: Expression, ts: seq<Token>, i: nat, n: nat)
    requires WrittenAt(e, ts, i) && n == i + |Print(e)| && Level(e) == 7 && ContinuesAt(ts[n].word) > 7
    requires i < |ts| && ts[i].word !in {"fun", "val", "if"}
    ensures ExpressionFrom(ts, i) == Ok((e, n))
    decreases Size(e), 8
  {
    var l, r, j := InfixPieces(e, ts, i, n);
    SumParses(l, ts, i, j);
    SumParses(r, ts, j + 1, n);
    CompareOpStep(ts, i, l, j, r, n);
  }

  lemma SumParses(e: Expression, ts: seq<Token>, i: nat, n: nat)
    requires WrittenAt(e, ts, i) && n == i + |Print(e)| && Level(e) <= 6 && ContinuesAt(ts[n].word) > 6
    ensures SumFrom(ts, i) == Ok((e, n))
    decreases Size(e), 8
  {
    if Level(e) == 6 {
      SumOpParses(e, ts, i, n);
    } else {
      ProdParses(e, ts, i, n);
      SumStep(ts, i, e, n);
    }
  }

  lemma SumOpParses(e: Expression, ts: seq<Token>, i: nat, n: nat)
    requires WrittenAt(e, ts, i) && n == i + |Print(e)| && Level(e) == 6 && ContinuesAt(ts[n].word) > 6
    ensures SumFrom(ts, i) == Ok((e, n))
    decreases Size(e), 7
  {
    var l, r, j := InfixPieces(e, ts, i, n);
    ProdParses(l, ts, i, j);
    ProdParses(r, ts, j + 1, n);
    SumOpStep(ts, i, l, j, r, n);
  }

  lemma ProdParses(e: Expression, ts: seq<Token>, i: nat, n: nat)
    requires WrittenAt(e, ts, i) && n == i + |Print(e)| && Level(e) <= 5 && ContinuesAt(ts[n].word) > 5
    ensures ProdFrom(ts, i) == Ok((e, n))
    decreases Size(e), 7
  {
    if Level(e) == 5 {
      ProdOpParses(e, ts, i, n);
    } else {
      CallParses(e, ts, i, n);
      ProdStep(ts, i, e, n);
    }
  }

  lemma ProdOpParses(e: Expression, ts: seq<Token>, i: nat, n: nat)
    requires WrittenAt(e, ts, i) && n == i + |Print(e)| && Level(e) == 5 && ContinuesAt(ts[n].word) > 5
    ensures ProdFrom(ts, i) == Ok((e, n))
    decreases Size(e), 6
  {
    var l, r, j := InfixPieces(e, ts, i, n);
    CallParses(l, ts, i, j);
    CallParses(r, ts, j + 1, n);
    ProdOpStep(ts, i, l, j, r, n);
  }

  lemma CallParses(e: Expression, ts: seq<Token>, i: nat, n: nat)
    requires WrittenAt(e, ts, i) && n == i + |Print(e)| && Level(e) <= 4 && ContinuesAt(ts[n].word) > 4
    ensures CallFrom(ts, i) == Ok((e, n))
    decreases Size(e), 6
  {
    if Level(e) == 4 {
      var j, c := CallPieces(e, ts, i, n);
      AtomParses(e.func, ts, i, j);
      ArgumentsParse(e.args, ts, j + 1, e.loc, ")", c, n);
      CallArgsStep(ts, i, e, j, n);
    } else {
      AtomParses(e, ts, i, n);
      CallStep(ts, i, e, n);
    }
  }

  /** Blocks, array literals, names and literals: nothing after them is looked at. */
  lemma AtomParses(e: Expression, ts: seq<Token>, i: nat, n: nat)
    requires WrittenAt(e, ts, i) && n == i + |Print(e)| && Level(e) == 3
    ensures BlockFrom(ts, i) == Ok((e, n))
    decreases Size(e), 5
  {
    if e.BlockEx? {
      var c := BlockPieces(e, ts, i, n);
      BlockBodyParses(e.exprs, [], ts, i + 1, e.loc, c, n);
      BlockStep(ts, i, e, n);
    } else if e.CallEx? {
      var c := ArrayPieces(e, ts, i, n);
      ArgumentsParse(e.args, ts, i + 1, e.loc, "]", c, n);
      ArrayStep(ts, i, e, n);
    } else {
      SpellsHead(ts, i, Print(e));
      TermStep(e, ts, i, n);
    }
  }

  /** Block elements up to the closing brace. */
  lemma BlockBodyParses(es: seq<Expression>, acc: seq<Expression>, ts: seq<Token>, i: nat, loc: Location, c: nat, n: nat)
    requires WellFormed(ts) && (forall x | x in es :: Printable(x))
    requires Spells(ts, i, PrintSeq(es)) && c == i + |PrintSeq(es)| && c < |ts| && ts[c].word == "}" && n == c + 1
    ensures BlockBodyFrom(ts, i, loc, acc) == Ok((BlockEx(loc, acc + es), n))
    decreases SizeList(es), 12
  {
    if es == [] {
      assert acc + es == acc;
    } else {
      var j := BlockHeadParses(es, acc, ts, i, loc, c);
      BlockBodyParses(es[1..], acc + [es[0]], ts, j, loc, c, n);
      ConsAppend(acc, es);
    }
  }

  /** The first element of a block body. */
  lemma BlockHeadParses(es: seq<Expression>, acc: seq<Expression>, ts: seq<Token>, i: nat, loc: Location, c: nat)
    returns (j: nat)
    requires es != [] && WellFormed(ts) && (forall x | x in es :: Printable(x))
    requires Spells(ts, i, PrintSeq(es)) && c == i + |PrintSeq(es)| && c < |ts| && ts[c].word == "}"
    ensures i < j < |ts| && BlockBodyFrom(ts, i, loc, acc) == BlockBodyFrom(ts, j, loc, acc + [es[0]])
    ensures Spells(ts, j, PrintSeq(es[1..])) && (forall x | x in es[1..] :: Printable(x))
    ensures c == j + |PrintSeq(es[1..])|
    decreases SizeList(es), 11
  {
    j := BlockElementPieces(es, ts, i, c);
    ExpressionParses(es[0], ts, i, j);
    BlockBodyStep(ts, i, loc, acc, es[0], j);
  }

  /** An argument list and its closing bracket. */
  lemma ArgumentsParse(args: seq<Expression>, ts: seq<Token>, i: nat, loc: Location, close: string, c: nat, n: nat)
    requires close == ")" || close == "]"
    requires WellFormed(ts) && (forall x | x in args :: Printable(x))
    requires Spells(ts, i, PrintArgs(args, loc)) && c == i + |PrintArgs(args, loc)| && c < |ts|
    requires ts[c].word == close && n == c + 1
    ensures ArgumentsFrom(ts, i, close) == Ok((args, n))
    decreases SizeList(args), 12
  {
    if args != [] {
      var j := ArgumentPieces(args, ts, i, loc, close, c);
      ExpressionParses(args[0], ts, i, j);
      ArgumentsRestParse(args, ts, i, loc, close, j, c, n);
    }
  }

  /** An argument list, once its first argument is read. */
  lemma ArgumentsRestParse(args: seq<Expression>, ts: seq<Token>, i: nat, loc: Location, close: string,
                           j: nat, c: nat, n: nat)
    requires args != [] && (close == ")" || close == "]") && WellFormed(ts) && i < |ts| && ts[i].word != close
    requires ExpressionFrom(ts, i) == Ok((args[0], j))
    requires Spells(ts, j, PrintCommaSeq(args[1..], loc)) && (forall x | x in args[1..] :: Printable(x))
    requires c == j + |PrintCommaSeq(args[1..], loc)| && c < |ts| && ts[c].word == close && n == c + 1
    ensures ArgumentsFrom(ts, i, close) == Ok((args, n))
    decreases SizeList(args), 11
  {
    CommaSeqParses(args[1..], [args[0]], ts, j, loc, close, c);
    ArgumentsStep(ts, i, close, args, j, c, n);
  }

  /** The arguments after the first, each after its comma. */
  lemma CommaSeqParses(es: seq<Expression>, acc: seq<Expression>, ts: seq<Token>, i: nat, loc: Location,
                       close: string, c: nat)
    requires close == ")" || close == "]"
    requires WellFormed(ts) && (forall x | x in es :: Printable(x))
    requires Spells(ts, i, PrintCommaSeq(es, loc)) && c == i + |PrintCommaSeq(es, loc)| && c < |ts|
    requires ts[c].word == close
    ensures ArgumentsRestFrom(ts, i, acc) == Ok((acc + es, c))
    decreases SizeList(es), 12
  {
    if es == [] {
      assert acc + es == acc;
    } else {
      var j := CommaHeadParses(es, acc, ts, i, loc, close, c);
      CommaSeqParses(es[1..], acc + [es[0]], ts, j, loc, close, c);
      ConsAppend(acc, es);
    }
  }

  /** One comma and the argument after it. */
  lemma CommaHeadParses(es: seq<Expression>, acc: seq<Expression>, ts: seq<Token>, i: nat, loc: Location,
                        close: string, c: nat)
    returns (j: nat)
    requires es != [] && (close == ")" || close == "]")
    requires WellFormed(ts) && (forall x | x in es :: Printable(x))
    requires Spells(ts, i, PrintCommaSeq(es, loc)) && c == i + |PrintCommaSeq(es, loc)| && c < |ts|
    requires ts[c].word == close
    ensures i < j < |ts| && ArgumentsRestFrom(ts, i, acc) == ArgumentsRestFrom(ts, j, acc + [es[0]])
    ensures Spells(ts, j, PrintCommaSeq(es[1..], loc)) && (forall x | x in es[1..] :: Printable(x))
    ensures c == j + |PrintCommaSeq(es[1..], loc)|
    decreases SizeList(es), 11
  {
    j := CommaPieces(es, ts, i, loc, close, c);
    ExpressionParses(es[0], ts, i + 1, j);
    CommaStep(ts, i, acc, es[0], j);
  }

  lemma CommaNamesParse(ps: seq<string>, acc: seq<string>, ts: seq<Token>, i: nat, loc: Location, k: nat)
    requires WellFormed(ts) && Spells(ts, i, PrintCommaNames(ps, loc))
    requires k == i + |PrintCommaNames(ps, loc)| && k < |ts| && ts[k].word == ")"
    ensures ParamsRestFrom(ts, i, acc) == Ok((acc + ps, k))
    decreases ps
  {
    if ps == [] {
      assert acc + ps == acc;
    } else {
      CommaNamePieces(ps, ts, i, loc, k);
      CommaNameStep(ts, i, acc);
      CommaNamesParse(ps[1..], acc + [ps[0]], ts, i + 2, loc, k);
      ConsAppend(acc, ps);
    }
  }

  lemma ParamsParse(params: seq<string>, ts: seq<Token>, i: nat, loc: Location, k: nat)
    requires WellFormed(ts) && Spells(ts, i, PrintParams(params, loc))
    requires k == i + |PrintParams(params, loc)| && k < |ts| && ts[k] == Sym(")", loc)
    ensures ParamsFrom(ts, i) == Ok((params, k))
  {
    if params != [] {
      var rest := PrintCommaNames(params[1..], loc);
      SpellsSplit(ts, i, [Name(params[0], loc)], rest);
      SpellsHead(ts, i, [Name(params[0], loc)]);
      CommaNamesParse(params[1..], [params[0]], ts, i + 1, loc, k);
      assert [params[0]] + params[1..] == params;
    }
  }

  // ---------------------------------------------------------------------------
  // Whole inputs: one expression, and a module of function declarations

  /** The declarations of a module written one after another. */
  function PrintFunctions(fs: seq<FunctionDecl>): seq<Token>
  {
    if fs == [] then [] else Print(fs[0]) + PrintFunctions(fs[1..])
  }

  /** A token array holds `p` from `i` on when its slice there is `p`. */
  lemma {:induction false} SpellsSlice(ts: seq<Token>, i: nat, p: seq<Token>)
    requires i + |p| <= |ts| && ts[i..i + |p|] == p
    ensures Spells(ts, i, p)
    decreases |p|
  {
    if p != [] {
      assert ts[i + 1..i + 1 + |p[1..]|] == p[1..];
      SpellsSlice(ts, i + 1, p[1..]);
    }
  }

  /** A written expression followed by the end of input parses back to itself, consuming all but `EOF`. */
  lemma ExpressionRoundTrip(e: Expression, eofLoc: Location)
    requires Printable(e)
    ensures WellFormed(Print(e) + [Token(EOF, "", eofLoc)])
    ensures ExpressionFrom(Print(e) + [Token(EOF, "", eofLoc)], 0) == Ok((e, |Print(e)|))
  {
    var ts := Print(e) + [Token(EOF, "", eofLoc)];
    assert ts[0..|Print(e)|] == Print(e);
    SpellsSlice(ts, 0, Print(e));
    ExpressionParses(e, ts, 0, |Print(e)|);
  }

  /** A function declaration is written starting with `fun`. */
  lemma FunctionStartsWithFun(f: Expression)
    requires f.FunctionEx?
    ensures Print(f)[0] == Key("fun", f.loc)
  {
    assert Print(f) == PrintFunction(f);
  }

  /**
   * `parseModule` reads back the declarations written one after another,
   * in their order, and stops at the end of input.
   */
  lemma ModuleRoundTrip(m: ModuleEx, eofLoc: Location)
    requires forall f | f in m.functions :: Printable(f)
    ensures WellFormed(PrintFunctions(m.functions) + [Token(EOF, "", eofLoc)])
    ensures ModuleFrom(PrintFunctions(m.functions) + [Token(EOF, "", eofLoc)], 0, []) == Ok(m)
  {
    var p := PrintFunctions(m.functions);
    var ts := p + [Token(EOF, "", eofLoc)];
    assert ts[0..|p|] == p;
    SpellsSlice(ts, 0, p);
    FunctionsParse(m.functions, [], ts, 0);
    assert [] + m.functions == m.functions;
  }

  lemma {:induction false} FunctionsParse(fs: seq<FunctionDecl>, acc: seq<FunctionDecl>, ts: seq<Token>, i: nat)
    requires WellFormed(ts) && (forall f | f in fs :: Printable(f))
    requires Spells(ts, i, PrintFunctions(fs)) && i + |PrintFunctions(fs)| == |ts| - 1
    ensures ModuleFrom(ts, i, acc) == Ok(ModuleEx(acc + fs))
    decreases fs
  {
    if fs == [] {
      assert acc + fs == acc;
    } else {
      FunctionDeclParses(fs, ts, i);
      FunctionsParse(fs[1..], acc + [fs[0]], ts, i + |Print(fs[0])|);
      ConsAppend(acc, fs);
    }
  }

  /**
   * The first declaration of the rest of a module is read back whole, up to
   * the next `fun` or the end of input, and ends where its printed form ends.
   */
  lemma FunctionDeclParses(fs: seq<FunctionDecl>, ts: seq<Token>, i: nat)
    requires fs != [] && WellFormed(ts) && (forall f | f in fs :: Printable(f))
    requires Spells(ts, i, PrintFunctions(fs)) && i + |PrintFunctions(fs)| == |ts| - 1
    ensures var j := i + |Print(fs[0])|;
      && i < j < |ts| && ts[i].kind != EOF && ExactAt(ts, i, "fun") == Ok(i + 1)
      && FunctionFrom(ts, i + 1) == Ok((fs[0], j))
      && Spells(ts, j, PrintFunctions(fs[1..])) && j + |PrintFunctions(fs[1..])| == |ts| - 1
  {
    var f := fs[0];
    FunctionDeclLayout(fs, ts, i, i + |Print(f)|);
    ExpressionParses(f, ts, i, i + |Print(f)|);
    assert ExpressionFrom(ts, i) == FunctionFrom(ts, i + 1);
  }

  /** Where the first declaration of the rest of a module ends, and what follows it. */
  lemma FunctionDeclLayout(fs: seq<FunctionDecl>, ts: seq<Token>, i: nat, j: nat)
    requires fs != [] && WellFormed(ts) && (forall f | f in fs :: Printable(f))
    requires Spells(ts, i, PrintFunctions(fs)) && i + |PrintFunctions(fs)| == |ts| - 1
    requires j == i + |Print(fs[0])|
    ensures WrittenAt(fs[0], ts, i) && StopsExpression(fs[0], ts[j].word)
    ensures ts[i] == Key("fun", fs[0].loc)
    ensures Spells(ts, j, PrintFunctions(fs[1..])) && j + |PrintFunctions(fs[1..])| == |ts| - 1
  {
    var f := fs[0];
    assert f in fs;
    SpellsParts(ts, i, Print(f), PrintFunctions(fs[1..]), j);
    FunctionStartsWithFun(f);
    SpellsHead(ts, i, Print(f));
    NextDeclarationStops(fs, ts, j);
  }

  /** What follows a declaration in a module, `fun` or the end of input, ends it. */
  lemma NextDeclarationStops(fs: seq<FunctionDecl>, ts: seq<Token>, j: nat)
    requires fs != [] && WellFormed(ts) && (forall f | f in fs :: Printable(f))
    requires Spells(ts, j, PrintFunctions(fs[1..])) && j + |PrintFunctions(fs[1..])| == |ts| - 1
    ensures j < |ts| && StopsExpression(fs[0], ts[j].word)
  {
    var rest := PrintFunctions(fs[1..]);
    if fs[1..] != [] {
      var g := fs[1..][0];
      assert g in fs;
      assert rest == Print(g) + PrintFunctions(fs[1..][1..]);
      FunctionStartsWithFun(g);
      SpellsHead(ts, j, rest);
      assert ts[j].word == Print(g)[0].word;
      StartStops(fs[0], g);
    } else {
      assert rest == [];
      assert ts[j].word == "";
      ClosersStop(fs[0]);
    }
  }
}
