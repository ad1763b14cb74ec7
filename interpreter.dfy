/**
 * The tree-walking interpreter of src/interpreter.ts and its scope chain.
 *
 * Every `Context` object the interpreter creates lives in a store, a
 * sequence indexed by creation order, and refers to its parent by index;
 * a closure refers to the context it captured the same way, so it sees
 * later assignments made there. `Eval` says what `interpret` computes: the
 * value and the store afterwards, or the error thrown. A user program may
 * run forever, so `Eval` takes fuel, spent one unit per closure call.
 *
 * What the host JavaScript runtime does is a parameter (`Runtime`): the
 * builtins of src/library.ts other than `List.build`, `String(value)` for
 * error messages, and `parseFloat` for number literals.
 */
module Interpreting {
  import opened Ast

  /** A runtime value; `Num` is a JavaScript number other than NaN. */
  datatype Value =
    | Num(n: real)
    | Str(s: string)
    | Bool(b: bool)
    | Null
    | Undefined
    | List(items: seq<Value>)
    | Closure(scope: nat, params: seq<string>, body: Expression)
    | Builtin(name: string)

  /**
   * JavaScript truthiness: `0`, `""`, `false`, `null` and `undefined` are
   * falsy; every other value, lists and functions included, is truthy.
   */
  predicate Truthy(v: Value)
    ensures Truthy(v) <==> v != Num(0.0) && v != Str("") && v != Bool(false) && v != Null && v != Undefined
  {
    match v
    case Num(n) => n != 0.0
    case Str(s) => s != ""
    case Bool(b) => b
    case Null => false
    case Undefined => false
    case _ => true
  }

  /** `typeof v === 'function'`: closures and builtins; a function value is truthy. */
  predicate IsCallable(v: Value)
    ensures IsCallable(v) ==> Truthy(v)
  {
    v.Closure? || v.Builtin?
  }

  /** The host: library builtins, `String(value)` and `parseFloat`. */
  datatype Runtime = Runtime(call: (string, seq<Value>) -> Value, show: Value -> string, number: string -> real)

  /** The names src/library.ts binds in the root context. */
  const BuiltinNames: set<string> := {
    "Core.+", "Core.-", "Core.*", "Core./", "Core.==", "Core.!=", "Core.<", "Core.<=", "Core.>", "Core.>=",
    "List.length", "List.add", "List.build", "println"
  }

  /** `List.build(...arr)` returns its arguments as a list. */
  function CallBuiltin(rt: Runtime, name: string, args: seq<Value>): (v: Value)
    ensures name == "List.build" ==> v == List(args)
  {
    if name == "List.build" then List(args) else rt.call(name, args)
  }

  // ---------------------------------------------------------------------------
  // Contexts

  /** A `Context`: its own bindings and the index of its parent, if any. */
  datatype Context = Context(scope: map<string, Value>, parent: Option<nat>)

  type Store = seq<Context>

  /**
   * `buildLibrary()`: a root context binding each builtin name, and nothing
   * else, to that builtin; in particular it does not bind `main`.
   */
  function Library(): (lib: Context)
    ensures lib.parent == None
    ensures forall x :: x in lib.scope <==> x in BuiltinNames
    ensures forall x :: x in lib.scope ==> lib.scope[x] == Builtin(x)
    ensures "main" !in lib.scope
  {
    Context(map name | name in BuiltinNames :: Builtin(name), None)
  }

  function UndefinedVariable(id: string): string
  {
    "Variable " + id + " is not defined"
  }

  /**
   * `Context.get`: the binding of `id` in context `c` or, failing that, in
   * its parent, and so on up the chain. A parent always comes before its
   * child in the store; the test `p < c` only makes that visible to Dafny.
   */
  function Get(s: Store, c: nat, id: string, loc: Location): (r: Result<Value>)
    requires c < |s|
    ensures r.Err? ==> r.error == LocatedError(loc, UndefinedVariable(id))
    decreases c
  {
    if id in s[c].scope then Ok(s[c].scope[id])
    else match s[c].parent
      case Some(p) => if p < c then Get(s, p, id, loc) else Fail(loc, UndefinedVariable(id))
      case None => Fail(loc, UndefinedVariable(id))
  }

  /** `Context.set`: binds `id` in context `c` itself; no other context changes. */
  function SetVar(s: Store, c: nat, id: string, v: Value): (r: Store)
    requires c < |s|
    ensures |r| == |s| && r[c].scope == s[c].scope[id := v] && r[c].parent == s[c].parent
    ensures forall k :: 0 <= k < |s| && k != c ==> r[k] == s[k]
  {
    s[c := Context(s[c].scope[id := v], s[c].parent)]
  }

  /** `new Context(parent)`: an empty context at the end of the store. */
  function NewContext(s: Store, parent: Option<nat>): (r: Store)
    ensures |r| == |s| + 1 && r[..|s|] == s && r[|s|] == Context(map[], parent)
  {
    s + [Context(map[], parent)]
  }

  // ---------------------------------------------------------------------------
  // What interpret computes

  /** How an evaluation ends: normally, by a thrown error, or out of fuel. */
  datatype Outcome<+T> = Returned(value: T) | Threw(error: LocatedError) | Exhausted {
    predicate IsFailure() { !Returned? }
    function PropagateFailure<U>(): Outcome<U> requires !Returned? { if Threw? then Threw(error) else Exhausted }
    function Extract(): T requires Returned? { value }
  }

  /** A method's outcome together with the store it left behind. */
  function WithStore(r: Outcome<Value>, s: Store): Outcome<(Value, Store)>
  {
    match r
    case Returned(v) => Returned((v, s))
    case Threw(e) => Threw(e)
    case Exhausted => Exhausted
  }

  /** The store grew and its old part is where it was, or evaluation did not return. */
  predicate Grows<T>(r: Outcome<(T, Store)>, s: Store)
  {
    r.Returned? ==> |r.value.1| >= |s|
  }

  /**
   * The value of a literal node: a string literal is the string itself, a
   * number literal the number the host reads from its lexeme.
   */
  function LiteralOf(rt: Runtime, lit: LiteralValue): (v: Value)
    ensures v.Str? <==> lit.LitString?
    ensures v.Num? <==> lit.LitNumber?
    ensures lit.LitString? ==> v.s == lit.text
    ensures lit.LitNumber? ==> v.n == rt.number(lit.lexeme)
  {
    match lit
    case LitString(t) => Str(t)
    case LitNumber(lexeme) => Num(rt.number(lexeme))
  }

  /** `interpret(node, context)`, with context `c` of store `s`. */
  function Eval(rt: Runtime, s: Store, e: Expression, c: nat, fuel: nat): (r: Outcome<(Value, Store)>)
    requires c < |s|
    ensures Grows(r, s)
    decreases fuel, Size(e), 2
  {
    match e
    case LiteralEx(_, lit) => Returned((LiteralOf(rt, lit), s))
    case IdentifierEx(loc, name) =>
      (match Get(s, c, name, loc)
       case Ok(v) => Returned((v, s))
       case Err(err) => Threw(err))
    case BlockEx(_, _) => EvalBlock(rt, s, e, c, fuel)
    case IfEx(_, _, _, _) => EvalIf(rt, s, e, c, fuel)
    case AssignmentEx(_, id, body) =>
      var b :- Eval(rt, s, body, c, fuel);
      Returned((b.0, SetVar(b.1, c, id, b.0)))
    case CallEx(_, _, _) => EvalCall(rt, s, e, c, fuel)
    case FunctionEx(_, id, params, body) =>
      var f := Closure(c, params, body);
      Returned((f, SetVar(s, c, id, f)))
  }

  /** A block runs its expressions in a new child context and gives the last value, or `null`. */
  function EvalBlock(rt: Runtime, s: Store, e: Expression, c: nat, fuel: nat): (r: Outcome<(Value, Store)>)
    requires e.BlockEx? && c < |s|
    ensures Grows(r, s)
    decreases fuel, Size(e), 1
  {
    EvalSeq(rt, NewContext(s, Some(c)), e.exprs, |s|, Null, fuel)
  }

  /** The loop of the block case: `result` is the value of the last expression run. */
  function EvalSeq(rt: Runtime, s: Store, es: seq<Expression>, c: nat, result: Value, fuel: nat)
    : (r: Outcome<(Value, Store)>)
    requires c < |s|
    ensures Grows(r, s)
    decreases fuel, SizeList(es), 3
  {
    if es == [] then Returned((result, s))
    else
      var x :- Eval(rt, s, es[0], c, fuel);
      EvalSeq(rt, x.1, es[1..], c, x.0, fuel)
  }

  /** `if`: the then branch for a truthy condition, else the else branch or `null`. */
  function EvalIf(rt: Runtime, s: Store, e: Expression, c: nat, fuel: nat): (r: Outcome<(Value, Store)>)
    requires e.IfEx? && c < |s|
    ensures Grows(r, s)
    decreases fuel, Size(e), 1
  {
    var cond :- Eval(rt, s, e.condition, c, fuel);
    if Truthy(cond.0) then Eval(rt, cond.1, e.thenBlock, c, fuel)
    else if e.elseBlock.Some? then Eval(rt, cond.1, e.elseBlock.value, c, fuel)
    else Returned((Null, cond.1))
  }

  /**
   * The message thrown for calling a value that is not a function: the
   * value as the host prints it, quoted, after a fixed 30-character prefix.
   */
  function NotCallable(rt: Runtime, f: Value): (m: string)
    ensures |m| == 31 + |rt.show(f)|
    ensures m[..30] == "Attempt to call non-function '"
    ensures m[30..|m| - 1] == rt.show(f) && m[|m| - 1] == '\''
  {
    "Attempt to call non-function '" + rt.show(f) + "'"
  }

  /** A call: the callee, then the arguments left to right, then the call itself. */
  function EvalCall(rt: Runtime, s: Store, e: Expression, c: nat, fuel: nat): (r: Outcome<(Value, Store)>)
    requires e.CallEx? && c < |s|
    ensures Grows(r, s)
    decreases fuel, Size(e), 1
  {
    var f :- Eval(rt, s, e.func, c, fuel);
    if !IsCallable(f.0) then Threw(LocatedError(e.func.loc, NotCallable(rt, f.0)))
    else
      var args :- EvalArgs(rt, f.1, e.args, c, [], fuel);
      Apply(rt, args.1, f.0, args.0, fuel)
  }

  /** `node.args.map(arg => interpret(arg, context))`, after the values `acc`. */
  function EvalArgs(rt: Runtime, s: Store, args: seq<Expression>, c: nat, acc: seq<Value>, fuel: nat)
    : (r: Outcome<(seq<Value>, Store)>)
    requires c < |s|
    ensures Grows(r, s)
    ensures r.Returned? ==> |r.value.0| == |acc| + |args|
    decreases fuel, SizeList(args), 3
  {
    if args == [] then Returned((acc, s))
    else
      var x :- Eval(rt, s, args[0], c, fuel);
      EvalArgs(rt, x.1, args[1..], c, acc + [x.0], fuel)
  }

  /** The parameter loop of a closure: binds `params[i..]` in context `c`. */
  function Bind(s: Store, c: nat, params: seq<string>, args: seq<Value>, i: nat): (r: Store)
    requires c < |s| && i <= |params|
    ensures |r| == |s| && r[c].parent == s[c].parent
    ensures forall k :: 0 <= k < |s| && k != c ==> r[k] == s[k]
    decreases |params| - i
  {
    if i == |params| then s
    else Bind(SetVar(s, c, params[i], if i < |args| then args[i] else Undefined), c, params, args, i + 1)
  }

  /**
   * Calling a function value: a closure runs its body in a new child of the
   * context it captured, with its parameters bound; a builtin is the host's.
   */
  function Apply(rt: Runtime, s: Store, f: Value, args: seq<Value>, fuel: nat): (r: Outcome<(Value, Store)>)
    requires IsCallable(f)
    ensures Grows(r, s)
    decreases fuel, 0, 0
  {
    match f
    case Closure(scope, params, body) =>
      if fuel == 0 then Exhausted
      else Eval(rt, Bind(NewContext(s, Some(scope)), |s|, params, args, 0), body, |s|, fuel - 1)
    case Builtin(name) => Returned((CallBuiltin(rt, name, args), s))
  }

  /** The `for (const fun of module.functions)` loop of `interpretModule`. */
  function Declare(rt: Runtime, s: Store, fs: seq<FunctionDecl>, c: nat, fuel: nat): (r: Store)
    requires c < |s|
    ensures |r| == |s|
    decreases |fs|
  {
    if fs == [] then s
    else Declare(rt, Eval(rt, s, fs[0], c, fuel).value.1, fs[1..], c, fuel)
  }

  /** Names declared by some function of `fs`. */
  predicate Declares(fs: seq<FunctionDecl>, x: string)
  {
    exists j :: 0 <= j < |fs| && fs[j].identifier == x
  }

  /** `fs[j]` is the last declaration of its name. */
  predicate LastDeclaration(fs: seq<FunctionDecl>, j: nat)
  {
    j < |fs| && forall k :: j < k < |fs| ==> fs[k].identifier != fs[j].identifier
  }

  /**
   * Declaring the functions binds each name in context `c` to a closure over
   * `c` built from its last declaration, and changes nothing else.
   */
  lemma {:induction false} DeclareBindsClosures(rt: Runtime, s: Store, fs: seq<FunctionDecl>, c: nat, fuel: nat)
    requires c < |s|
    ensures var t := Declare(rt, s, fs, c, fuel);
      (forall k :: 0 <= k < |s| && k != c ==> t[k] == s[k]) && t[c].parent == s[c].parent
      && (forall x :: x in t[c].scope <==> x in s[c].scope || Declares(fs, x))
      && (forall j: nat :: LastDeclaration(fs, j) ==> t[c].scope[fs[j].identifier] == Closure(c, fs[j].params, fs[j].body))
      && (forall x :: x in s[c].scope && !Declares(fs, x) ==> t[c].scope[x] == s[c].scope[x])
    decreases |fs|
  {
    if fs != [] {
      var f := fs[0];
      var s1 := SetVar(s, c, f.identifier, Closure(c, f.params, f.body));
      assert Eval(rt, s, f, c, fuel) == Returned((Closure(c, f.params, f.body), s1));
      DeclareBindsClosures(rt, s1, fs[1..], c, fuel);
      var t := Declare(rt, s1, fs[1..], c, fuel);
      assert t == Declare(rt, s, fs, c, fuel);
      forall x ensures Declares(fs, x) <==> x == f.identifier || Declares(fs[1..], x) {
        if Declares(fs, x) && x != f.identifier {
          var j :| 0 <= j < |fs| && fs[j].identifier == x;
          assert fs[1..][j - 1] == fs[j];
        }
        if Declares(fs[1..], x) {
          var j :| 0 <= j < |fs[1..]| && fs[1..][j].identifier == x;
          assert fs[j + 1] == fs[1..][j];
        }
      }
      forall j: nat | LastDeclaration(fs, j) ensures t[c].scope[fs[j].identifier] == Closure(c, fs[j].params, fs[j].body) {
        if j > 0 {
          assert LastDeclaration(fs[1..], j - 1);
        } else {
          assert !Declares(fs[1..], f.identifier);
        }
      }
    }
  }

  const MainLocation := Location("", 1, 1)

  /** The store once every function is declared: the library, then the module scope. */
  function ModuleStore(rt: Runtime, m: ModuleEx, fuel: nat): (s: Store)
    ensures |s| == 2
  {
    Declare(rt, [Library(), Context(map[], Some(0))], m.functions, 1, fuel)
  }

  /**
   * `interpretModule`: the library is context 0, the module scope context 1;
   * every function is declared there, then `main` is called with no arguments.
   * The value `main` returns is discarded: a module that runs to the end gives
   * `undefined`. Without a function named `main` the module fails as an
   * undefined variable at 1:1.
   */
  function RunModule(rt: Runtime, m: ModuleEx, fuel: nat): (r: Outcome<Value>)
    ensures r.Returned? ==> r.value == Undefined
    ensures !Declares(m.functions, "main") ==> r == Threw(LocatedError(MainLocation, UndefinedVariable("main")))
  {
    var s := ModuleStore(rt, m, fuel);
    DeclareBindsClosures(rt, [Library(), Context(map[], Some(0))], m.functions, 1, fuel);
    assert s[0] == Library() && s[1].parent == Some(0);
    match Get(s, 1, "main", MainLocation)
    case Err(err) => Threw(err)
    case Ok(main) =>
      if IsCallable(main) then
        var _ :- Apply(rt, s, main, [], fuel);
        Returned(Undefined)
      else Threw(LocatedError(MainLocation, "main is not a function"))
  }

  lemma {:induction false} SizeListBounds(es: seq<Expression>, k: nat)
    requires k < |es|
    ensures Size(es[k]) <= SizeList(es)
  {
    if k > 0 {
      SizeListBounds(es[1..], k - 1);
    }
  }

  // ---------------------------------------------------------------------------
  // The interpreter object

  /** The interpreter, with the store of every `Context` object created so far. */
  class Interpreter {
    const rt: Runtime
    var contexts: Store

    constructor (rt: Runtime)
      ensures this.rt == rt && contexts == []
    {
      this.rt := rt;
      contexts := [];
    }

    /** `buildLibrary()`. */
    method BuildLibrary() returns (lib: nat)
      modifies this
      ensures lib == |old(contexts)| && contexts == old(contexts) + [Library()]
    {
      lib := |contexts|;
      contexts := contexts + [Library()];
    }

    /** `new Context(parent)`. */
    method NewChild(parent: Option<nat>) returns (c: nat)
      modifies this
      ensures c == |old(contexts)| && contexts == NewContext(old(contexts), parent)
    {
      c := |contexts|;
      contexts := contexts + [Context(map[], parent)];
    }

    /** `context.set(id, value)`. */
    method Set(c: nat, id: string, v: Value)
      requires c < |contexts|
      modifies this
      ensures contexts == SetVar(old(contexts), c, id, v)
    {
      contexts := contexts[c := Context(contexts[c].scope[id := v], contexts[c].parent)];
    }

    /** `interpret(node, context)`. */
    method Interpret(e: Expression, c: nat, fuel: nat) returns (r: Outcome<Value>)
      requires c < |contexts|
      modifies this
      ensures WithStore(r, contexts) == Eval(rt, old(contexts), e, c, fuel)
      decreases fuel, Size(e), 2
    {
      match e
      case LiteralEx(_, lit) =>
        return Returned(LiteralOf(rt, lit));
      case IdentifierEx(loc, name) =>
        var v := Get(contexts, c, name, loc);
        if v.Err? {
          return Threw(v.error);
        }
        return Returned(v.value);
      case BlockEx(_, _) =>
        r := InterpretBlock(e, c, fuel);
      case IfEx(_, _, _, _) =>
        r := InterpretIf(e, c, fuel);
      case AssignmentEx(_, id, body) =>
        r := Interpret(body, c, fuel);
        if r.Returned? {
          Set(c, id, r.value);
        }
      case CallEx(_, _, _) =>
        r := InterpretCall(e, c, fuel);
      case FunctionEx(_, id, params, body) =>
        var f := Closure(c, params, body);
        Set(c, id, f);
        return Returned(f);
    }

    /** The block case: a new child context, and the last result or `null`. */
    method InterpretBlock(e: Expression, c: nat, fuel: nat) returns (r: Outcome<Value>)
      requires e.BlockEx? && c < |contexts|
      modifies this
      ensures WithStore(r, contexts) == Eval(rt, old(contexts), e, c, fuel)
      decreases fuel, Size(e), 1
    {
      var scope := NewChild(Some(c));
      var result := Null;
      var k := 0;
      while k < |e.exprs|
        invariant k <= |e.exprs| && scope < |contexts|
        invariant EvalSeq(rt, contexts, e.exprs[k..], scope, result, fuel) == EvalBlock(rt, old(contexts), e, c, fuel)
      {
        SizeListBounds(e.exprs, k);
        var x := Interpret(e.exprs[k], scope, fuel);
        if !x.Returned? {
          return x;
        }
        result := x.value;
        k := k + 1;
      }
      return Returned(result);
    }

    /** The if case. */
    method InterpretIf(e: Expression, c: nat, fuel: nat) returns (r: Outcome<Value>)
      requires e.IfEx? && c < |contexts|
      modifies this
      ensures WithStore(r, contexts) == Eval(rt, old(contexts), e, c, fuel)
      decreases fuel, Size(e), 1
    {
      var cond := Interpret(e.condition, c, fuel);
      if !cond.Returned? {
        return cond;
      }
      if Truthy(cond.value) {
        r := Interpret(e.thenBlock, c, fuel);
      } else if e.elseBlock.Some? {
        r := Interpret(e.elseBlock.value, c, fuel);
      } else {
        r := Returned(Null);
      }
    }

    /** The call case: the callee, a check that it is a function, the arguments, the call. */
    method InterpretCall(e: Expression, c: nat, fuel: nat) returns (r: Outcome<Value>)
      requires e.CallEx? && c < |contexts|
      modifies this
      ensures WithStore(r, contexts) == Eval(rt, old(contexts), e, c, fuel)
      decreases fuel, Size(e), 1
    {
      var f := Interpret(e.func, c, fuel);
      if !f.Returned? {
        return f;
      }
      if !IsCallable(f.value) {
        return Threw(LocatedError(e.func.loc, NotCallable(rt, f.value)));
      }
      ghost var afterCallee := contexts;
      var args: seq<Value> := [];
      var k := 0;
      while k < |e.args|
        invariant k <= |e.args| && c < |contexts| && |args| == k
        invariant EvalArgs(rt, contexts, e.args[k..], c, args, fuel) == EvalArgs(rt, afterCallee, e.args, c, [], fuel)
      {
        SizeListBounds(e.args, k);
        var x := Interpret(e.args[k], c, fuel);
        if !x.Returned? {
          return if x.Threw? then Threw(x.error) else Exhausted;
        }
        args := args + [x.value];
        k := k + 1;
      }
      r := Invoke(f.value, args, fuel);
    }

    /** `func(...args)`: for a closure, the arrow function built by the function case. */
    method Invoke(f: Value, args: seq<Value>, fuel: nat) returns (r: Outcome<Value>)
      requires IsCallable(f)
      modifies this
      ensures WithStore(r, contexts) == Apply(rt, old(contexts), f, args, fuel)
      decreases fuel, 0, 0
    {
      if f.Builtin? {
        return Returned(CallBuiltin(rt, f.name, args));
      }
      if fuel == 0 {
        return Exhausted;
      }
      var child := NewChild(Some(f.scope));
      var i := 0;
      while i < |f.params|
        invariant i <= |f.params| && child < |contexts|
        invariant Bind(contexts, child, f.params, args, i) == Bind(NewContext(old(contexts), Some(f.scope)), child, f.params, args, 0)
      {
        Set(child, f.params[i], if i < |args| then args[i] else Undefined);
        i := i + 1;
      }
      r := Interpret(f.body, child, fuel - 1);
    }
  }

  /** `Interpreter.interpretModule(module)`, with `fuel` for the calls it makes. */
  method InterpretModule(rt: Runtime, m: ModuleEx, fuel: nat) returns (r: Outcome<Value>)
    ensures r == RunModule(rt, m, fuel)
  {
    var interpreter := new Interpreter(rt);
    var lib := interpreter.BuildLibrary();
    var moduleScope := interpreter.NewChild(Some(lib));
    ghost var start := interpreter.contexts;
    assert start == [Library(), Context(map[], Some(0))];
    var k := 0;
    while k < |m.functions|
      invariant k <= |m.functions| && |interpreter.contexts| == 2 && moduleScope == 1
      invariant Declare(rt, interpreter.contexts, m.functions[k..], 1, fuel) == Declare(rt, start, m.functions, 1, fuel)
    {
      // A declaration only binds its closure, so it always returns.
      var _ := interpreter.Interpret(m.functions[k], moduleScope, fuel);
      k := k + 1;
    }
    var main := Get(interpreter.contexts, moduleScope, "main", MainLocation);
    if main.Err? {
      return Threw(main.error);
    }
    if !IsCallable(main.value) {
      return Threw(LocatedError(MainLocation, "main is not a function"));
    }
    var called := interpreter.Invoke(main.value, [], fuel);
    r := if called.Returned? then Returned(Undefined) else called;
  }
}
