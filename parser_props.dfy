/**
 * Properties of the parser of src/parser.ts, stated over the functions of
 * module `Parsing` that the `Parser` methods are proved to compute.
 */
module ParserProperties {
  import opened Ast
  import opened Parsing

  // ---------------------------------------------------------------------------
  // Every failure is a syntax error at a token

  /** The prefix of every message the parser raises. */
  const SyntaxErrorPrefix := "Syntax error. Expected "

  /** `e` is a syntax error reported at one of the tokens from `i` on. */
  predicate SyntaxErrorFrom(ts: seq<Token>, i: nat, e: LocatedError)
  {
    SyntaxErrorPrefix <= e.message && exists k :: i <= k < |ts| && e.loc == ts[k].loc
  }

  predicate FailsAtToken<T>(r: Result<T>, ts: seq<Token>, i: nat)
  {
    r.Err? ==> SyntaxErrorFrom(ts, i, r.error)
  }

  lemma PrefixOfConcat(a: string, b: string)
    ensures a <= a + b
  {
    assert (a + b)[..|a|] == a;
  }

  /** `expectType` fails at the token it consumed, with a syntax error. */
  lemma TypeAtFails(ts: seq<Token>, i: nat, kind: TokenType, message: string)
    requires WellFormed(ts) && i < |ts| && kind != EOF
    ensures FailsAtToken(TypeAt(ts, i, kind, message), ts, i)
    ensures TypeAt(ts, i, kind, message).Err? ==>
      TypeAt(ts, i, kind, message).error.message == SyntaxErrorPrefix + message + " but found " + ts[i].word
  {
    PrefixOfConcat(SyntaxErrorPrefix, message + " but found " + ts[i].word);
    assert SyntaxErrorPrefix + message + " but found " + ts[i].word
      == SyntaxErrorPrefix + (message + " but found " + ts[i].word);
  }

  /** `expectExact` fails at the token it consumed, with a syntax error. */
  lemma ExactAtFails(ts: seq<Token>, i: nat, word: string)
    requires WellFormed(ts) && i < |ts| && word != ""
    ensures FailsAtToken(ExactAt(ts, i, word), ts, i)
    ensures ExactAt(ts, i, word).Err? ==>
      ExactAt(ts, i, word).error.message == SyntaxErrorPrefix + "'" + word + "' but found " + ts[i].word
  {
    PrefixOfConcat(SyntaxErrorPrefix, "'" + word + "' but found " + ts[i].word);
    assert SyntaxErrorPrefix + "'" + word + "' but found " + ts[i].word
      == SyntaxErrorPrefix + ("'" + word + "' but found " + ts[i].word);
  }

  /**
   * `parseModule` either succeeds or raises a syntax error located at a token
   * it reached; no other error escapes the parser.
   */
  lemma {:induction false} ModuleFails(ts: seq<Token>, i: nat, acc: seq<FunctionDecl>)
    requires WellFormed(ts) && i < |ts|
    ensures FailsAtToken(ModuleFrom(ts, i, acc), ts, i)
    decreases |ts| - i
  {
    if ts[i].kind != EOF {
      ExactAtFails(ts, i, "fun");
      if ts[i].word == "fun" {
        FunctionFails(ts, i + 1);
        var f := FunctionFrom(ts, i + 1);
        if f.Ok? {
          ModuleFails(ts, f.value.1, acc + [f.value.0]);
        }
      }
    }
  }

  lemma {:induction false} FunctionFails(ts: seq<Token>, i: nat)
    requires WellFormed(ts) && 1 <= i < |ts|
    ensures FailsAtToken(FunctionFrom(ts, i), ts, i)
    decreases |ts| - i, 9
  {
    TypeAtFails(ts, i, Identifier, "function name");
    if ts[i].kind == Identifier {
      ExactAtFails(ts, i + 1, "(");
      if ts[i + 1].word == "(" {
        ParamsFails(ts, i + 2);
        var params := ParamsFrom(ts, i + 2);
        if params.Ok? {
          var k := params.value.1;
          ExactAtFails(ts, k, ")");
          if ts[k].word == ")" {
            ExactAtFails(ts, k + 1, "=");
            if ts[k + 1].word == "=" {
              ExpressionFails(ts, k + 2);
            }
          }
        }
      }
    }
  }

  lemma {:induction false} ParamsFails(ts: seq<Token>, i: nat)
    requires WellFormed(ts) && i < |ts|
    ensures FailsAtToken(ParamsFrom(ts, i), ts, i)
  {
    if ts[i].kind == Identifier {
      ParamsRestFails(ts, i + 1, [ts[i].word]);
    }
  }

  lemma {:induction false} ParamsRestFails(ts: seq<Token>, i: nat, acc: seq<string>)
    requires WellFormed(ts) && i < |ts|
    ensures FailsAtToken(ParamsRestFrom(ts, i, acc), ts, i)
    decreases |ts| - i
  {
    if ts[i].word == "," {
      TypeAtFails(ts, i + 1, Identifier, "parameter");
      if ts[i + 1].kind == Identifier {
        ParamsRestFails(ts, i + 2, acc + [ts[i + 1].word]);
      }
    }
  }

  lemma {:induction false} ExpressionFails(ts: seq<Token>, i: nat)
    requires WellFormed(ts) && i < |ts|
    ensures FailsAtToken(ExpressionFrom(ts, i), ts, i)
    decreases |ts| - i, 8
  {
    if ts[i].word == "fun" {
      FunctionFails(ts, i + 1);
    } else if ts[i].word == "val" {
      AssignmentFails(ts, i + 1);
    } else if ts[i].word == "if" {
      IfFails(ts, i + 1);
    } else {
      CompareFails(ts, i);
    }
  }

  lemma {:induction false} AssignmentFails(ts: seq<Token>, i: nat)
    requires WellFormed(ts) && 1 <= i < |ts|
    ensures FailsAtToken(AssignmentFrom(ts, i), ts, i)
    decreases |ts| - i, 9
  {
    TypeAtFails(ts, i, Identifier, "value name");
    if ts[i].kind == Identifier {
      ExactAtFails(ts, i + 1, "=");
      if ts[i + 1].word == "=" {
        ExpressionFails(ts, i + 2);
      }
    }
  }

  lemma {:induction false} IfFails(ts: seq<Token>, i: nat)
    requires WellFormed(ts) && 1 <= i < |ts|
    ensures FailsAtToken(IfFrom(ts, i), ts, i)
    decreases |ts| - i, 9
  {
    ExactAtFails(ts, i, "(");
    if ts[i].word == "(" {
      ExpressionFails(ts, i + 1);
      var condition := ExpressionFrom(ts, i + 1);
      if condition.Ok? {
        var k := condition.value.1;
        ExactAtFails(ts, k, ")");
        if ts[k].word == ")" {
          ExpressionFails(ts, k + 1);
          var thenBlock := ExpressionFrom(ts, k + 1);
          if thenBlock.Ok? && ts[thenBlock.value.1].word == "else" {
            ExpressionFails(ts, thenBlock.value.1 + 1);
          }
        }
      }
    }
  }

  lemma {:induction false} CompareFails(ts: seq<Token>, i: nat)
    requires WellFormed(ts) && i < |ts|
    ensures FailsAtToken(CompareFrom(ts, i), ts, i)
    decreases |ts| - i, 7
  {
    SumFails(ts, i);
    var left := SumFrom(ts, i);
    if left.Ok? && ts[left.value.1].word in CompareOperators {
      SumFails(ts, left.value.1 + 1);
    }
  }

  lemma {:induction false} SumFails(ts: seq<Token>, i: nat)
    requires WellFormed(ts) && i < |ts|
    ensures FailsAtToken(SumFrom(ts, i), ts, i)
    decreases |ts| - i, 6
  {
    ProdFails(ts, i);
    var left := ProdFrom(ts, i);
    if left.Ok? && ts[left.value.1].word in SumOperators {
      ProdFails(ts, left.value.1 + 1);
    }
  }

  lemma {:induction false} ProdFails(ts: seq<Token>, i: nat)
    requires WellFormed(ts) && i < |ts|
    ensures FailsAtToken(ProdFrom(ts, i), ts, i)
    decreases |ts| - i, 5
  {
    CallFails(ts, i);
    var left := CallFrom(ts, i);
    if left.Ok? && ts[left.value.1].word in ProdOperators {
      CallFails(ts, left.value.1 + 1);
    }
  }

  lemma {:induction false} CallFails(ts: seq<Token>, i: nat)
    requires WellFormed(ts) && i < |ts|
    ensures FailsAtToken(CallFrom(ts, i), ts, i)
    decreases |ts| - i, 4
  {
    BlockFails(ts, i);
    var func := BlockFrom(ts, i);
    if func.Ok? && ts[func.value.1].word == "(" {
      ArgumentsFails(ts, func.value.1 + 1, ")");
    }
  }

  lemma {:induction false} ArgumentsFails(ts: seq<Token>, i: nat, close: string)
    requires WellFormed(ts) && i < |ts| && close != ""
    ensures FailsAtToken(ArgumentsFrom(ts, i, close), ts, i)
    decreases |ts| - i, 10
  {
    if ts[i].word != close {
      ExpressionFails(ts, i);
      var first := ExpressionFrom(ts, i);
      if first.Ok? {
        ArgumentsRestFails(ts, first.value.1, [first.value.0]);
        var args := ArgumentsRestFrom(ts, first.value.1, [first.value.0]);
        if args.Ok? {
          ExactAtFails(ts, args.value.1, close);
        }
      }
    }
  }

  lemma {:induction false} ArgumentsRestFails(ts: seq<Token>, i: nat, acc: seq<Expression>)
    requires WellFormed(ts) && i < |ts|
    ensures FailsAtToken(ArgumentsRestFrom(ts, i, acc), ts, i)
    decreases |ts| - i, 0
  {
    if ts[i].word == "," {
      ExpressionFails(ts, i + 1);
      var e := ExpressionFrom(ts, i + 1);
      if e.Ok? {
        ArgumentsRestFails(ts, e.value.1, acc + [e.value.0]);
      }
    }
  }

  lemma {:induction false} BlockFails(ts: seq<Token>, i: nat)
    requires WellFormed(ts) && i < |ts|
    ensures FailsAtToken(BlockFrom(ts, i), ts, i)
    decreases |ts| - i, 3
  {
    if ts[i].word == "{" {
      BlockBodyFails(ts, i + 1, ts[i].loc, []);
    } else {
      ArrayLiteralFails(ts, i);
    }
  }

  lemma {:induction false} BlockBodyFails(ts: seq<Token>, i: nat, loc: Location, acc: seq<Expression>)
    requires WellFormed(ts) && i < |ts|
    ensures FailsAtToken(BlockBodyFrom(ts, i, loc, acc), ts, i)
    decreases |ts| - i, 10
  {
    if ts[i].word != "}" {
      ExpressionFails(ts, i);
      var e := ExpressionFrom(ts, i);
      if e.Ok? {
        BlockBodyFails(ts, e.value.1, loc, acc + [e.value.0]);
      }
    }
  }

  lemma {:induction false} ArrayLiteralFails(ts: seq<Token>, i: nat)
    requires WellFormed(ts) && i < |ts|
    ensures FailsAtToken(ArrayLiteralFrom(ts, i), ts, i)
    decreases |ts| - i, 2
  {
    if ts[i].word == "[" {
      ArgumentsFails(ts, i + 1, "]");
    } else {
      TermFails(ts, i);
    }
  }

  /** `parseTerm` rejects every token that is not a literal or a name. */
  lemma TermFails(ts: seq<Token>, i: nat)
    requires WellFormed(ts) && i < |ts|
    ensures TermFrom(ts, i).Err? <==> ts[i].kind !in {StringLiteral, NumberLiteral, Module, Identifier}
    ensures FailsAtToken(TermFrom(ts, i), ts, i)
  {
    var rest := "term but found '" + ts[i].word + "'";
    if ts[i].kind !in {StringLiteral, NumberLiteral, Module, Identifier} {
      assert "Syntax error. Expected term but found '" + ts[i].word + "'" == SyntaxErrorPrefix + rest;
      assert TermFrom(ts, i) == Err(LocatedError(ts[i].loc, SyntaxErrorPrefix + rest));
      PrefixOfConcat(SyntaxErrorPrefix, rest);
    }
  }

  // ---------------------------------------------------------------------------
  // parseModule

  /** At `EOF` `parseModule` returns what it has; any other word than `fun` is an error there. */
  lemma ModuleNeedsFun(ts: seq<Token>, i: nat, acc: seq<FunctionDecl>)
    requires WellFormed(ts) && i < |ts|
    ensures ts[i].kind == EOF ==> ModuleFrom(ts, i, acc) == Ok(ModuleEx(acc))
    ensures ts[i].kind != EOF && ts[i].word != "fun" ==>
      ModuleFrom(ts, i, acc) == Err(LocatedError(ts[i].loc, SyntaxErrorPrefix + "'fun' but found " + ts[i].word))
  {
    if ts[i].kind != EOF && ts[i].word != "fun" {
      ExactAtFails(ts, i, "fun");
      assert SyntaxErrorPrefix + "'" + "fun" + "' but found " + ts[i].word
        == SyntaxErrorPrefix + "'fun' but found " + ts[i].word;
    }
  }

  // ---------------------------------------------------------------------------
  // parseFunction

  /** The tokens a parameter list spells: names at even offsets, commas between them. */
  predicate SpellsParams(ts: seq<Token>, i: nat, params: seq<string>, j: nat)
  {
    && (params == [] ==> j == i)
    && (params != [] ==> j == i + 2 * |params| - 1)
    && j < |ts|
    && (forall n :: 0 <= n < |params| ==> ts[i + 2 * n].kind == Identifier && ts[i + 2 * n].word == params[n])
    && (forall n :: 0 <= n < |params| - 1 ==> ts[i + 2 * n + 1].word == ",")
  }

  /**
   * A parameter list is empty or identifiers separated by commas; it stops
   * at the first token that is neither an identifier (at the start) nor a comma.
   */
  lemma ParamsShape(ts: seq<Token>, i: nat)
    requires WellFormed(ts) && i < |ts|
    ensures ParamsFrom(ts, i).Ok? ==> SpellsParams(ts, i, ParamsFrom(ts, i).value.0, ParamsFrom(ts, i).value.1)
    ensures ParamsFrom(ts, i).Ok? && ParamsFrom(ts, i).value.0 != [] ==> ts[ParamsFrom(ts, i).value.1].word != ","
  {
    if ts[i].kind == Identifier {
      ParamsRestShape(ts, i, [ts[i].word], i + 1);
    }
  }

  lemma {:induction false} ParamsRestShape(ts: seq<Token>, s: nat, acc: seq<string>, i: nat)
    requires WellFormed(ts) && i < |ts| && acc != [] && SpellsParams(ts, s, acc, i)
    ensures ParamsRestFrom(ts, i, acc).Ok? ==>
      var (ps, j) := ParamsRestFrom(ts, i, acc).value;
      SpellsParams(ts, s, ps, j) && ts[j].word != ","
    decreases |ts| - i
  {
    if ts[i].word == "," && ts[i + 1].kind == Identifier {
      var acc' := acc + [ts[i + 1].word];
      assert SpellsParams(ts, s, acc', i + 2) by {
        forall n | 0 <= n < |acc'|
          ensures ts[s + 2 * n].kind == Identifier && ts[s + 2 * n].word == acc'[n]
        {
          if n < |acc| {
            assert acc'[n] == acc[n];
          } else {
            assert s + 2 * n == i + 1;
          }
        }
        forall n | 0 <= n < |acc'| - 1
          ensures ts[s + 2 * n + 1].word == ","
        {
          if n == |acc| - 1 {
            assert s + 2 * n + 1 == i;
          }
        }
      }
      ParamsRestShape(ts, s, acc', i + 2);
    }
  }

  /**
   * `fun` is followed by a name, `(`, the parameters, `)`, `=` and one body
   * expression; the declaration is located at the `fun` keyword.
   */
  lemma FunctionShape(ts: seq<Token>, i: nat)
    requires WellFormed(ts) && 1 <= i < |ts|
    ensures FunctionFrom(ts, i).Ok? ==>
      var (f, j) := FunctionFrom(ts, i).value;
      && f.FunctionEx? && f.loc == ts[i - 1].loc
      && ts[i].kind == Identifier && f.identifier == ts[i].word && ts[i + 1].word == "("
      && ParamsFrom(ts, i + 2).Ok? && ParamsFrom(ts, i + 2).value.0 == f.params
      && var k := ParamsFrom(ts, i + 2).value.1;
         k + 2 < |ts| && ts[k].word == ")" && ts[k + 1].word == "="
         && ExpressionFrom(ts, k + 2) == Ok((f.body, j))
  {
  }

  // ---------------------------------------------------------------------------
  // The binary levels

  /** A literal or name token that the expression levels read as one operand. */
  predicate PlainOperand(t: Token)
  {
    t.kind in {NumberLiteral, Identifier} && t.word !in {"{", "[", "fun", "val", "if"}
  }

  /** The tree `parseTerm` builds for a plain operand. */
  function Operand(t: Token): Expression
  {
    if t.kind == NumberLiteral then LiteralEx(t.loc, LitNumber(t.word)) else IdentifierEx(t.loc, t.word)
  }

  /** A word that no expression level goes on with. */
  predicate EndsExpression(w: string)
  {
    w != "(" && w !in CompareOperators && w !in SumOperators && w !in ProdOperators
  }

  /** An operand followed by a word other than `(` and `*`/`/` is a whole product. */
  lemma OperandAt(ts: seq<Token>, i: nat)
    requires WellFormed(ts) && i + 1 < |ts| && PlainOperand(ts[i])
    requires ts[i + 1].word != "(" && ts[i + 1].word !in ProdOperators
    ensures ProdFrom(ts, i) == Ok((Operand(ts[i]), i + 1))
  {
    var x := Operand(ts[i]);
    assert TermFrom(ts, i) == Ok((x, i + 1));
    assert ArrayLiteralFrom(ts, i) == Ok((x, i + 1));
    assert BlockFrom(ts, i) == Ok((x, i + 1));
    assert CallFrom(ts, i) == Ok((x, i + 1));
  }

  /** An operand followed by a word no level goes on with is a whole expression. */
  lemma OperandExpression(ts: seq<Token>, i: nat)
    requires WellFormed(ts) && i + 1 < |ts| && PlainOperand(ts[i]) && EndsExpression(ts[i + 1].word)
    ensures ExpressionFrom(ts, i) == Ok((Operand(ts[i]), i + 1))
  {
    OperandAt(ts, i);
    assert SumFrom(ts, i) == Ok((Operand(ts[i]), i + 1));
  }

  /** `a + b * c` is `Core.+(a, Core.*(b, c))`: products bind tighter than sums. */
  lemma ProductBindsTighter(ts: seq<Token>, i: nat)
    requires WellFormed(ts) && i + 5 < |ts|
    requires PlainOperand(ts[i]) && PlainOperand(ts[i + 2]) && PlainOperand(ts[i + 4])
    requires ts[i + 1].word in SumOperators && ts[i + 3].word in ProdOperators && EndsExpression(ts[i + 5].word)
    ensures ExpressionFrom(ts, i)
      == Ok((Binary(ts[i + 1], Operand(ts[i]), Binary(ts[i + 3], Operand(ts[i + 2]), Operand(ts[i + 4]))), i + 5))
  {
    OperandAt(ts, i);
    OperandAt(ts, i + 4);
    var product := Binary(ts[i + 3], Operand(ts[i + 2]), Operand(ts[i + 4]));
    assert CallFrom(ts, i + 2) == Ok((Operand(ts[i + 2]), i + 3)) by { OperandCall(ts, i + 2); }
    assert ProdFrom(ts, i + 2) == Ok((product, i + 5));
    var sum := Binary(ts[i + 1], Operand(ts[i]), product);
    assert SumFrom(ts, i) == Ok((sum, i + 5));
    assert CompareFrom(ts, i) == Ok((sum, i + 5));
  }

  /** `a * b < c` is `Core.<(Core.*(a, b), c)`: comparisons bind loosest. */
  lemma ComparisonBindsLoosest(ts: seq<Token>, i: nat)
    requires WellFormed(ts) && i + 5 < |ts|
    requires PlainOperand(ts[i]) && PlainOperand(ts[i + 2]) && PlainOperand(ts[i + 4])
    requires ts[i + 1].word in ProdOperators && ts[i + 3].word in CompareOperators && EndsExpression(ts[i + 5].word)
    ensures ExpressionFrom(ts, i)
      == Ok((Binary(ts[i + 3], Binary(ts[i + 1], Operand(ts[i]), Operand(ts[i + 2])), Operand(ts[i + 4])), i + 5))
  {
    OperandCall(ts, i);
    OperandAt(ts, i + 2);
    var product := Binary(ts[i + 1], Operand(ts[i]), Operand(ts[i + 2]));
    assert ProdFrom(ts, i) == Ok((product, i + 3));
    assert SumFrom(ts, i) == Ok((product, i + 3));
    OperandAt(ts, i + 4);
    assert SumFrom(ts, i + 4) == Ok((Operand(ts[i + 4]), i + 5));
    assert CompareFrom(ts, i) == Ok((Binary(ts[i + 3], product, Operand(ts[i + 4])), i + 5));
  }

  /** An operand not followed by `(` is a whole call level. */
  lemma OperandCall(ts: seq<Token>, i: nat)
    requires WellFormed(ts) && i + 1 < |ts| && PlainOperand(ts[i]) && ts[i + 1].word != "("
    ensures CallFrom(ts, i) == Ok((Operand(ts[i]), i + 1))
  {
    var x := Operand(ts[i]);
    assert TermFrom(ts, i) == Ok((x, i + 1));
    assert ArrayLiteralFrom(ts, i) == Ok((x, i + 1));
    assert BlockFrom(ts, i) == Ok((x, i + 1));
  }

  /**
   * Operators do not chain: in `a + b + c` (any two sum operators) the
   * expression ends in front of the second operator, after `a + b`.
   */
  lemma OperatorsDoNotChain(ts: seq<Token>, i: nat)
    requires WellFormed(ts) && i + 3 < |ts| && PlainOperand(ts[i]) && PlainOperand(ts[i + 2])
    requires ts[i + 1].word in SumOperators && ts[i + 3].word in SumOperators
    ensures ExpressionFrom(ts, i) == Ok((Binary(ts[i + 1], Operand(ts[i]), Operand(ts[i + 2])), i + 3))
  {
    var sum := Binary(ts[i + 1], Operand(ts[i]), Operand(ts[i + 2]));
    OperandAt(ts, i);
    OperandAt(ts, i + 2);
    assert SumFrom(ts, i) == Ok((sum, i + 3));
    assert CompareFrom(ts, i) == Ok((sum, i + 3));
  }

  /** `fun name() = body`: a declaration without parameters. */
  lemma FunctionWithoutParams(ts: seq<Token>, i: nat, body: Expression, j: nat)
    requires WellFormed(ts) && 1 <= i && i + 4 < |ts|
    requires ts[i].kind == Identifier && ts[i + 1].word == "(" && ts[i + 2].kind != Identifier
    requires ts[i + 2].word == ")" && ts[i + 3].word == "=" && ExpressionFrom(ts, i + 4) == Ok((body, j))
    ensures FunctionFrom(ts, i) == Ok((FunctionEx(ts[i - 1].loc, ts[i].word, [], body), j))
  {
    assert ParamsFrom(ts, i + 2) == Ok(([], i + 2));
  }

  /**
   * Hence `fun f() = a + b + c` is rejected: `parseModule` expects the next
   * `fun` where the second operator stands.
   */
  lemma ChainedOperatorsAreRejected(ts: seq<Token>, i: nat, acc: seq<FunctionDecl>)
    requires WellFormed(ts) && i + 8 < |ts| && ts[i].kind == Keyword && ts[i].word == "fun"
    requires ts[i + 1].kind == Identifier && ts[i + 2].word == "(" && ts[i + 3].kind != Identifier
    requires ts[i + 3].word == ")" && ts[i + 4].word == "="
    requires PlainOperand(ts[i + 5]) && PlainOperand(ts[i + 7])
    requires ts[i + 6].word in SumOperators && ts[i + 8].word in SumOperators && ts[i + 8].kind == Operator
    ensures ModuleFrom(ts, i, acc)
      == Err(LocatedError(ts[i + 8].loc, SyntaxErrorPrefix + "'fun' but found " + ts[i + 8].word))
  {
    var body := Binary(ts[i + 6], Operand(ts[i + 5]), Operand(ts[i + 7]));
    OperatorsDoNotChain(ts, i + 5);
    FunctionWithoutParams(ts, i + 1, body, i + 8);
    var f := FunctionEx(ts[i].loc, ts[i + 1].word, [], body);
    assert ModuleFrom(ts, i, acc) == ModuleFrom(ts, i + 8, acc + [f]);
    ModuleNeedsFun(ts, i + 8, acc + [f]);
  }

  // ---------------------------------------------------------------------------
  // Blocks and array literals

  /** The argument loop keeps the arguments read so far in front of the ones it reads next. */
  /**
   * From `i`, the expressions `es` are read one after another, each after a
   * comma, and the list stops at `j`, in front of a word other than a comma.
   */
  predicate ReadsAfterCommas(ts: seq<Token>, i: nat, es: seq<Expression>, j: nat)
    requires WellFormed(ts)
    decreases |es|
  {
    && i < |ts|
    && if es == [] then j == i && ts[i].word != ","
       else
         && ts[i].word == "," && i + 1 < |ts|
         && ExpressionFrom(ts, i + 1).Ok? && ExpressionFrom(ts, i + 1).value.0 == es[0]
         && ReadsAfterCommas(ts, ExpressionFrom(ts, i + 1).value.1, es[1..], j)
  }

  lemma {:induction false} ArgumentsRestKeep(ts: seq<Token>, i: nat, acc: seq<Expression>)
    requires WellFormed(ts) && i < |ts|
    ensures ArgumentsRestFrom(ts, i, acc).Ok? ==>
      var (args, j) := ArgumentsRestFrom(ts, i, acc).value;
      |acc| <= |args| && args[..|acc|] == acc && ts[j].word != ","
      && ReadsAfterCommas(ts, i, args[|acc|..], j)
    decreases |ts| - i
  {
    if ts[i].word == "," {
      var e := ExpressionFrom(ts, i + 1);
      if e.Ok? {
        var acc' := acc + [e.value.0];
        ArgumentsRestKeep(ts, e.value.1, acc');
        if ArgumentsRestFrom(ts, i, acc).Ok? {
          var (args, j) := ArgumentsRestFrom(ts, i, acc).value;
          assert args[..|acc|] == args[..|acc'|][..|acc|];
          assert args[|acc|..][0] == args[..|acc'|][|acc|] == e.value.0;
          assert args[|acc|..][1..] == args[|acc'|..];
        }
      }
    } else if ArgumentsRestFrom(ts, i, acc).Ok? {
      assert ArgumentsRestFrom(ts, i, acc).value.0[|acc|..] == [];
    }
  }

  /**
   * An argument list ends with its closing bracket, and it is empty exactly
   * when the closing bracket comes first; otherwise its arguments are the
   * expressions read one after another from `i`, separated by commas.
   */
  lemma ArgumentsShape(ts: seq<Token>, i: nat, close: string)
    requires WellFormed(ts) && i < |ts| && close != ""
    ensures ArgumentsFrom(ts, i, close).Ok? ==>
      var (args, j) := ArgumentsFrom(ts, i, close).value;
      i < j && ts[j - 1].word == close && (args == [] <==> ts[i].word == close)
    ensures ArgumentsFrom(ts, i, close).Ok? && ts[i].word != close ==>
      var (args, j) := ArgumentsFrom(ts, i, close).value;
      && ExpressionFrom(ts, i).Ok? && args[0] == ExpressionFrom(ts, i).value.0
      && ReadsAfterCommas(ts, ExpressionFrom(ts, i).value.1, args[1..], j - 1)
  {
    if ts[i].word != close {
      var first := ExpressionFrom(ts, i);
      if first.Ok? {
        ArgumentsRestKeep(ts, first.value.1, [first.value.0]);
      }
    }
  }

  /**
   * `[e1, ..., en]` is a call of `List.build` located at `[`, with the
   * elements as arguments; `[]` gives no arguments.
   */
  lemma ArrayLiteralShape(ts: seq<Token>, i: nat)
    requires WellFormed(ts) && i < |ts| && ts[i].word == "["
    ensures ArrayLiteralFrom(ts, i).Ok? ==>
      var (e, j) := ArrayLiteralFrom(ts, i).value;
      && e == CallEx(ts[i].loc, IdentifierEx(ts[i].loc, "List.build"), e.args)
      && ArgumentsFrom(ts, i + 1, "]") == Ok((e.args, j)) && ts[j - 1].word == "]"
    ensures i + 1 < |ts| && ts[i + 1].word == "]" ==>
      ArrayLiteralFrom(ts, i) == Ok((CallEx(ts[i].loc, IdentifierEx(ts[i].loc, "List.build"), []), i + 2))
  {
    ArgumentsShape(ts, i + 1, "]");
  }

  /**
   * From `i`, the expressions `es` are read one after another, none starting
   * at a `}`, and then a `}` ends the block just before `j`.
   */
  predicate ReadsUntilBrace(ts: seq<Token>, i: nat, es: seq<Expression>, j: nat)
    requires WellFormed(ts)
    decreases |es|
  {
    && i < |ts|
    && if es == [] then ts[i].word == "}" && j == i + 1
       else
         && ts[i].word != "}"
         && ExpressionFrom(ts, i).Ok? && ExpressionFrom(ts, i).value.0 == es[0]
         && ReadsUntilBrace(ts, ExpressionFrom(ts, i).value.1, es[1..], j)
  }

  /** The block loop keeps the expressions read so far and stops after `}`. */
  lemma {:induction false} BlockBodyKeeps(ts: seq<Token>, i: nat, loc: Location, acc: seq<Expression>)
    requires WellFormed(ts) && i < |ts|
    ensures BlockBodyFrom(ts, i, loc, acc).Ok? ==>
      var (e, j) := BlockBodyFrom(ts, i, loc, acc).value;
      && e.BlockEx? && e.loc == loc && |acc| <= |e.exprs| && e.exprs[..|acc|] == acc
      && ts[j - 1].word == "}" && (e.exprs == acc <==> ts[i].word == "}")
      && ReadsUntilBrace(ts, i, e.exprs[|acc|..], j)
    decreases |ts| - i
  {
    if ts[i].word != "}" {
      var x := ExpressionFrom(ts, i);
      if x.Ok? {
        var acc' := acc + [x.value.0];
        BlockBodyKeeps(ts, x.value.1, loc, acc');
        if BlockBodyFrom(ts, i, loc, acc).Ok? {
          var es := BlockBodyFrom(ts, i, loc, acc).value.0.exprs;
          assert es[..|acc|] == es[..|acc'|][..|acc|];
          assert |es| > |acc|;
          assert es[|acc|..][0] == es[..|acc'|][|acc|] == x.value.0;
          assert es[|acc|..][1..] == es[|acc'|..];
        }
      }
    } else if BlockBodyFrom(ts, i, loc, acc).Ok? {
      assert BlockBodyFrom(ts, i, loc, acc).value.0.exprs[|acc|..] == [];
    }
  }

  /**
   * A block is located at `{` and holds, in order, the expressions read one
   * after another up to its `}`;
   * `{}` is a legal, empty block.
   */
  lemma BlockShape(ts: seq<Token>, i: nat)
    requires WellFormed(ts) && i < |ts| && ts[i].word == "{"
    ensures BlockFrom(ts, i).Ok? ==>
      var (e, j) := BlockFrom(ts, i).value;
      e.BlockEx? && e.loc == ts[i].loc && ts[j - 1].word == "}" && ReadsUntilBrace(ts, i + 1, e.exprs, j)
    ensures i + 1 < |ts| && ts[i + 1].word == "}" ==> BlockFrom(ts, i) == Ok((BlockEx(ts[i].loc, []), i + 2))
  {
    BlockBodyKeeps(ts, i + 1, ts[i].loc, []);
  }

  // ---------------------------------------------------------------------------
  // if

  /**
   * An `if` node is located at its keyword. Its condition is the expression
   * read after `(`, which a `)` closes; its then branch is the expression read
   * after that `)`. Its else branch is the expression after an `else` token
   * that directly follows the then branch, and without one the node ends
   * right after the then branch, in front of a word other than `else`.
   */
  lemma IfShape(ts: seq<Token>, i: nat)
    requires WellFormed(ts) && 1 <= i < |ts|
    ensures IfFrom(ts, i).Ok? ==>
      var (e, j) := IfFrom(ts, i).value;
      && e.IfEx? && e.loc == ts[i - 1].loc && ts[i].word == "(" && i + 1 < |ts|
      && ExpressionFrom(ts, i + 1).Ok? && ExpressionFrom(ts, i + 1).value.0 == e.condition
      && IfBranches(ts, ExpressionFrom(ts, i + 1).value.1, e, j)
  {
    if IfFrom(ts, i).Ok? {
      var (e, j) := IfFrom(ts, i).value;
      var c := ExpressionFrom(ts, i + 1).value;
      var t := ExpressionFrom(ts, c.1 + 1).value;
      assert ExpressionFrom(ts, c.1 + 1) == Ok((e.thenBlock, t.1));
    }
  }

  /**
   * From `m`, a `)` closes the condition of `e`, its then branch is read after
   * it, and its else branch, if any, after an `else` that follows; the node
   * ends at `j`.
   */
  predicate IfBranches(ts: seq<Token>, m: nat, e: Expression, j: nat)
    requires WellFormed(ts) && e.IfEx?
  {
    && m + 1 < |ts| && ts[m].word == ")"
    && ExpressionFrom(ts, m + 1).Ok? && ExpressionFrom(ts, m + 1).value.0 == e.thenBlock
    && var n := ExpressionFrom(ts, m + 1).value.1;
       && (e.elseBlock.None? ==> j == n && ts[n].word != "else")
       && (e.elseBlock.Some? ==>
             ts[n].word == "else" && n + 1 < |ts| && ExpressionFrom(ts, n + 1) == Ok((e.elseBlock.value, j)))
  }

  /** `if (c) t` followed by anything but `else` has no else branch. */
  lemma IfWithoutElse(ts: seq<Token>, i: nat)
    requires WellFormed(ts) && i + 5 < |ts| && ts[i].word == "if" && ts[i + 1].word == "("
    requires PlainOperand(ts[i + 2]) && ts[i + 3].word == ")" && PlainOperand(ts[i + 4])
    requires EndsExpression(ts[i + 5].word) && ts[i + 5].word != "else"
    ensures ExpressionFrom(ts, i) == Ok((IfEx(ts[i].loc, Operand(ts[i + 2]), Operand(ts[i + 4]), None), i + 5))
  {
    OperandExpression(ts, i + 2);
    OperandExpression(ts, i + 4);
    assert IfFrom(ts, i + 1) == Ok((IfEx(ts[i].loc, Operand(ts[i + 2]), Operand(ts[i + 4]), None), i + 5));
  }
}
