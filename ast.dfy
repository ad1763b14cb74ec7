/**
 * Source locations, tokens and the expression tree shared by the lexer, the
 * parser and the interpreter (src/ast.ts).
 *
 * The source reports every failure by throwing from `Location.error`; here a
 * failure is the value `Err(LocatedError(loc, message))`, and `ErrorText`
 * renders it exactly as the thrown message reads.
 */
module Ast {

  datatype Option<+T> = None | Some(value: T)

  /** A line/column pair; both start at 1 in every source file. */
  datatype Location = Location(sourceFile: string, line: nat, column: nat)

  /** What `Location.error(message)` throws, kept as a value. */
  datatype LocatedError = LocatedError(loc: Location, message: string)

  datatype Result<+T> = Ok(value: T) | Err(error: LocatedError) {
    predicate IsFailure() { Err? }
    function PropagateFailure<U>(): Result<U> requires Err? { Err(error) }
    function Extract(): T requires Ok? { value }
  }

  /** `Location.error`: the operation is abandoned with this error. */
  function Fail<T>(loc: Location, message: string): (r: Result<T>)
    ensures r.Err? && r.error.loc == loc && r.error.message == message
  {
    Err(LocatedError(loc, message))
  }

  /**
   * A method's result together with the cursor it left behind, in the shape
   * the specification functions return; the cursor does not matter on failure.
   */
  function Paired<T>(r: Result<T>, i: nat): Result<(T, nat)>
  {
    match r
    case Ok(v) => Ok((v, i))
    case Err(e) => Err(e)
  }

  /** The eight token types; `EOF` marks the end of input. */
  datatype TokenType =
    | Identifier | Module | Operator | Symbol | Keyword | StringLiteral | NumberLiteral | EOF

  datatype Token = Token(kind: TokenType, word: string, loc: Location)

  /** The value of a literal: a string, or a number kept as its lexeme. */
  datatype LiteralValue = LitString(text: string) | LitNumber(lexeme: string)

  /** The seven expression kinds; only an `IfEx`'s else branch is optional. */
  datatype Expression =
    | FunctionEx(loc: Location, identifier: string, params: seq<string>, body: Expression)
    | AssignmentEx(loc: Location, identifier: string, body: Expression)
    | BlockEx(loc: Location, exprs: seq<Expression>)
    | CallEx(loc: Location, func: Expression, args: seq<Expression>)
    | IfEx(loc: Location, condition: Expression, thenBlock: Expression, elseBlock: Option<Expression>)
    | IdentifierEx(loc: Location, name: string)
    | LiteralEx(loc: Location, value: LiteralValue)

  type FunctionDecl = e: Expression | e.FunctionEx?
    witness FunctionEx(Location("", 1, 1), "main", [], BlockEx(Location("", 1, 1), []))

  /** A parsed source file: its top-level function declarations in order. */
  datatype ModuleEx = ModuleEx(functions: seq<FunctionDecl>)

  /** Number of nodes; a termination measure for walks over the tree. */
  function Size(e: Expression): (n: nat)
    ensures n >= 1
  {
    match e
    case FunctionEx(_, _, _, body) => 1 + Size(body)
    case AssignmentEx(_, _, body) => 1 + Size(body)
    case BlockEx(_, exprs) => 1 + SizeList(exprs)
    case CallEx(_, func, args) => 1 + Size(func) + SizeList(args)
    case IfEx(_, c, t, el) => 1 + Size(c) + Size(t) + (if el.Some? then Size(el.value) else 0)
    case IdentifierEx(_, _) => 1
    case LiteralEx(_, _) => 1
  }

  function SizeList(es: seq<Expression>): nat
  {
    if es == [] then 0 else Size(es[0]) + SizeList(es[1..])
  }

  // ---------------------------------------------------------------------------
  // Decimal rendering of naturals, as JavaScript's template strings print them.

  predicate IsDigit(c: char) { '0' <= c <= '9' }

  predicate AllDigits(s: string) { forall k :: 0 <= k < |s| ==> IsDigit(s[k]) }

  function DigitChar(d: nat): (c: char)
    requires d < 10
    ensures IsDigit(c)
  {
    (48 + d) as char
  }

  function DigitValue(c: char): (d: nat)
    requires IsDigit(c)
    ensures d < 10
  {
    c as int - 48
  }

  function NatToString(n: nat): (s: string)
    ensures |s| >= 1 && AllDigits(s)
  {
    if n < 10 then [DigitChar(n)] else NatToString(n / 10) + [DigitChar(n % 10)]
  }

  /** The value of a string of decimal digits (0 for the empty string). */
  function ParseDigits(s: string): nat
    requires AllDigits(s)
  {
    if s == [] then 0 else ParseDigits(s[..|s| - 1]) * 10 + DigitValue(s[|s| - 1])
  }

  lemma {:induction false} ParseNatToString(n: nat)
    ensures ParseDigits(NatToString(n)) == n
  {
    var s := NatToString(n);
    if n >= 10 {
      ParseNatToString(n / 10);
      assert s[..|s| - 1] == NatToString(n / 10);
    }
  }

  // ---------------------------------------------------------------------------
  // Location.toString and Location.error

  /**
   * `Location.toString`: `line:column`, so that the line and the column can
   * be read back from the text.
   */
  function Render(loc: Location): (r: string)
    ensures ReadTrailingPosition(r) == Some((loc.line, loc.column))
  {
    var r := NatToString(loc.line) + ":" + NatToString(loc.column);
    ReadsBackAfter([], r, loc.line, loc.column);
    assert [] + r == r;
    r
  }

  /**
   * The message `Location.error` throws: it starts with the error's own
   * message and ends with the location, whatever the message and the file
   * name hold, so that line and column can be read back from its tail.
   */
  function ErrorText(e: LocatedError): (r: string)
    ensures |e.message| <= |r| && r[..|e.message|] == e.message
    ensures ReadTrailingPosition(r) == Some((e.loc.line, e.loc.column))
  {
    var p := e.message + (" from " + e.loc.sourceFile + " at ");
    ReadsBackAfter(p, Render(e.loc), e.loc.line, e.loc.column);
    PrefixKept(e.message, " from " + e.loc.sourceFile + " at ", Render(e.loc));
    p + Render(e.loc)
  }

  lemma PrefixKept(a: string, b: string, c: string)
    ensures |a| <= |a + b + c| && (a + b + c)[..|a|] == a
  {
    assert (a + b + c)[..|a|] == a;
  }

  /** Number of decimal digits at the end of `s`. */
  function TrailingDigits(s: string): (n: nat)
    ensures n <= |s|
    ensures AllDigits(s[|s| - n..])
    ensures n < |s| ==> !IsDigit(s[|s| - n - 1])
  {
    if s == [] || !IsDigit(s[|s| - 1]) then 0 else TrailingDigits(s[..|s| - 1]) + 1
  }

  /** `t` cut before its trailing run of digits: what comes before, and the digits. */
  function SplitDigits(t: string): (p: (string, string))
    ensures p.0 + p.1 == t && AllDigits(p.1)
    ensures p.0 == [] || !IsDigit(p.0[|p.0| - 1])
  {
    var c := TrailingDigits(t);
    assert t[..|t| - c] + t[|t| - c..] == t;
    (t[..|t| - c], t[|t| - c..])
  }

  /**
   * Reads `line:column` back from the end of a text: a run of digits, a
   * colon, and a run of digits that is not preceded by another digit.
   */
  function ReadTrailingPosition(t: string): Option<(nat, nat)>
  {
    var (rest, cs) := SplitDigits(t);
    if cs == [] || rest == [] || rest[|rest| - 1] != ':' then None
    else
      var (_, ls) := SplitDigits(rest[..|rest| - 1]);
      if ls == [] then None else Some((ParseDigits(ls), ParseDigits(cs)))
  }

  lemma {:induction false} TrailingDigitsOfSuffix(p: string, d: string)
    requires AllDigits(d)
    requires p == [] || !IsDigit(p[|p| - 1])
    ensures TrailingDigits(p + d) == |d|
    decreases |d|
  {
    if d == [] {
      assert p + d == p;
    } else {
      assert (p + d)[..|p + d| - 1] == p + d[..|d| - 1];
      TrailingDigitsOfSuffix(p, d[..|d| - 1]);
    }
  }

  /** Splitting `p + d` gives back `p` and `d` when `p` does not end in a digit. */
  lemma SplitDigitsOfSuffix(p: string, d: string)
    requires AllDigits(d)
    requires p == [] || !IsDigit(p[|p| - 1])
    ensures SplitDigits(p + d) == (p, d)
  {
    TrailingDigitsOfSuffix(p, d);
    assert (p + d)[..|p|] == p && (p + d)[|p|..] == d;
  }

  /** `line:column` after a text that does not end in a digit reads back. */
  lemma ReadsBackAfter(p: string, t: string, line: nat, column: nat)
    requires p == [] || !IsDigit(p[|p| - 1])
    requires t == NatToString(line) + ":" + NatToString(column)
    ensures ReadTrailingPosition(p + t) == Some((line, column))
  {
    var ls, cs := NatToString(line), NatToString(column);
    var rest := (p + ls) + ":";
    assert p + t == rest + cs;
    SplitDigitsOfSuffix(rest, cs);
    assert rest[..|rest| - 1] == p + ls;
    SplitDigitsOfSuffix(p, ls);
    ParseNatToString(line);
    ParseNatToString(column);
  }
}
