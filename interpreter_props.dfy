/**
 * What src/interpreter.ts promises about scopes, blocks, assignments,
 * conditionals, calls, closures and the module entry point, proved about
 * the model in module Interpreting.
 */
module InterpreterProperties {
  import opened Ast
  import opened Interpreting

  // ---------------------------------------------------------------------------
  // Context.get walks the parent chain

  /** The contexts `Context.get` visits from `c`: `c`, its parent, and so on. */
  function Chain(s: Store, c: nat): (ch: seq<nat>)
    requires c < |s|
    ensures |ch| >= 1 && ch[0] == c
    ensures forall k :: 0 <= k < |ch| ==> ch[k] < |s|
    decreases c
  {
    match s[c].parent
    case Some(p) => if p < c then [c] + Chain(s, p) else [c]
    case None => [c]
  }

  /** The first context on the chain binding `id`, if any. */
  predicate BindsFirst(s: Store, ch: seq<nat>, k: nat, id: string)
    requires forall j :: 0 <= j < |ch| ==> ch[j] < |s|
  {
    k < |ch| && id in s[ch[k]].scope && forall j :: 0 <= j < k ==> id !in s[ch[j]].scope
  }

  /**
   * `Context.get` finds `id` exactly when some context on the chain binds it,
   * and then gives the binding of the nearest one; otherwise it fails with
   * "Variable id is not defined".
   */
  lemma {:induction false} GetFindsNearestBinding(s: Store, c: nat, id: string, loc: Location)
    requires c < |s|
    ensures Get(s, c, id, loc).Ok? <==> exists k :: 0 <= k < |Chain(s, c)| && id in s[Chain(s, c)[k]].scope
    ensures Get(s, c, id, loc).Ok? ==>
      exists k: nat :: BindsFirst(s, Chain(s, c), k, id) && Get(s, c, id, loc).value == s[Chain(s, c)[k]].scope[id]
    ensures Get(s, c, id, loc).Err? ==> Get(s, c, id, loc).error == LocatedError(loc, "Variable " + id + " is not defined")
    decreases c
  {
    var ch := Chain(s, c);
    if id in s[c].scope {
      assert Get(s, c, id, loc).Ok? && 0 < |Chain(s, c)| && id in s[Chain(s, c)[0]].scope;
      assert BindsFirst(s, ch, 0, id);
    } else if s[c].parent.Some? && s[c].parent.value < c {
      var p := s[c].parent.value;
      GetFindsNearestBinding(s, p, id, loc);
      assert ch == [c] + Chain(s, p);
      assert Get(s, c, id, loc) == Get(s, p, id, loc);
      if Get(s, p, id, loc).Ok? {
        var k: nat :| BindsFirst(s, Chain(s, p), k, id) && Get(s, p, id, loc).value == s[Chain(s, p)[k]].scope[id];
        assert BindsFirst(s, ch, k + 1, id);
      } else {
        forall k | 0 <= k < |ch| ensures id !in s[ch[k]].scope {
          if k > 0 {
            assert ch[k] == Chain(s, p)[k - 1];
          }
        }
      }
    } else {
      assert ch == [c];
    }
  }

  /** Lookups only read the contexts on the chain, so a store that keeps them answers alike. */
  lemma {:induction false} GetReadsOnlyChain(s: Store, t: Store, c: nat, id: string, loc: Location)
    requires c < |s| && c < |t|
    requires forall k :: 0 <= k < |Chain(s, c)| ==> Chain(s, c)[k] < |t| && t[Chain(s, c)[k]] == s[Chain(s, c)[k]]
    ensures Get(t, c, id, loc) == Get(s, c, id, loc)
    decreases c
  {
    assert Chain(s, c)[0] == c;
    assert t[c] == s[c];
    if id !in s[c].scope && s[c].parent.Some? && s[c].parent.value < c {
      var p := s[c].parent.value;
      assert Chain(s, c) == [c] + Chain(s, p);
      forall k | 0 <= k < |Chain(s, p)| ensures Chain(s, p)[k] < |t| && t[Chain(s, p)[k]] == s[Chain(s, p)[k]] {
        assert Chain(s, p)[k] == Chain(s, c)[k + 1];
      }
      GetReadsOnlyChain(s, t, p, id, loc);
    }
  }

  /** After `set(id, v)` on context `c`, looking `id` up from `c` gives `v`. */
  lemma GetAfterSet(s: Store, c: nat, id: string, v: Value, loc: Location)
    requires c < |s|
    ensures Get(SetVar(s, c, id, v), c, id, loc) == Ok(v)
  {
  }

  /**
   * `set` writes only locally: a lookup from any context `d` whose chain does
   * not pass through `c`, or of any other name, is unchanged.
   */
  lemma {:induction false} SetIsLocal(s: Store, c: nat, id: string, v: Value, d: nat, x: string, loc: Location)
    requires c < |s| && d < |s|
    requires x != id || c !in Chain(s, d)
    ensures Get(SetVar(s, c, id, v), d, x, loc) == Get(s, d, x, loc)
    decreases d
  {
    var t := SetVar(s, c, id, v);
    assert t[d].parent == s[d].parent;
    if d != c {
      assert t[d] == s[d];
    }
    if x !in s[d].scope && s[d].parent.Some? && s[d].parent.value < d {
      var p := s[d].parent.value;
      assert Chain(s, d) == [d] + Chain(s, p);
      SetIsLocal(s, c, id, v, p, x, loc);
    }
  }

  // ---------------------------------------------------------------------------
  // What an evaluation may change

  /**
   * `t` grew from `s` and differs from it at most in the bindings of context
   * `c`; `c` may be a context `s` does not have yet.
   */
  predicate Keeps(s: Store, t: Store, c: nat)
  {
    |t| >= |s|
    && (forall k :: 0 <= k < |s| && k != c ==> t[k] == s[k])
    && (c < |s| ==> t[c].parent == s[c].parent)
  }

  lemma KeepsTrans(s: Store, t: Store, u: Store, c: nat)
    requires Keeps(s, t, c) && Keeps(t, u, c)
    ensures Keeps(s, u, c)
  {
  }

  /** Keeping every old context keeps in particular all but `c`. */
  lemma KeepsAll(s: Store, t: Store, c: nat)
    requires Keeps(s, t, |s|) && c < |s|
    ensures Keeps(s, t, c)
  {
    assert t[c] == s[c];
  }

  function After<T>(r: Outcome<(T, Store)>, s: Store): Store
  {
    if r.Returned? then r.value.1 else s
  }

  /** Evaluating in context `c` changes no other context that already existed. */
  lemma {:induction false} EvalKeeps(rt: Runtime, s: Store, e: Expression, c: nat, fuel: nat)
    requires c < |s|
    ensures Keeps(s, After(Eval(rt, s, e, c, fuel), s), c)
    decreases fuel, Size(e), 2
  {
    match e
    case LiteralEx(_, _) =>
    case IdentifierEx(_, _) =>
    case BlockEx(_, _) =>
      BlockKeeps(rt, s, e, c, fuel);
      KeepsAll(s, After(Eval(rt, s, e, c, fuel), s), c);
    case IfEx(_, _, _, _) =>
      IfKeeps(rt, s, e, c, fuel);
    case AssignmentEx(_, id, body) =>
      EvalKeeps(rt, s, body, c, fuel);
      var b := Eval(rt, s, body, c, fuel);
      if b.Returned? {
        KeepsTrans(s, b.value.1, SetVar(b.value.1, c, id, b.value.0), c);
      }
    case CallEx(_, _, _) =>
      CallKeeps(rt, s, e, c, fuel);
    case FunctionEx(_, _, _, _) =>
  }

  /** A block changes no context that existed before it: its bindings stay inside. */
  lemma {:induction false} BlockKeeps(rt: Runtime, s: Store, e: Expression, c: nat, fuel: nat)
    requires e.BlockEx? && c < |s|
    ensures Keeps(s, After(EvalBlock(rt, s, e, c, fuel), s), |s|)
    decreases fuel, Size(e), 1
  {
    var s1 := NewContext(s, Some(c));
    SeqKeeps(rt, s1, e.exprs, |s|, Null, fuel);
  }

  lemma {:induction false} SeqKeeps(rt: Runtime, s: Store, es: seq<Expression>, c: nat, result: Value, fuel: nat)
    requires c < |s|
    ensures Keeps(s, After(EvalSeq(rt, s, es, c, result, fuel), s), c)
    decreases fuel, SizeList(es), 3
  {
    if es != [] {
      EvalKeeps(rt, s, es[0], c, fuel);
      var x := Eval(rt, s, es[0], c, fuel);
      if x.Returned? {
        SeqKeeps(rt, x.value.1, es[1..], c, x.value.0, fuel);
        KeepsTrans(s, x.value.1, After(EvalSeq(rt, x.value.1, es[1..], c, x.value.0, fuel), x.value.1), c);
      }
    }
  }

  lemma {:induction false} IfKeeps(rt: Runtime, s: Store, e: Expression, c: nat, fuel: nat)
    requires e.IfEx? && c < |s|
    ensures Keeps(s, After(EvalIf(rt, s, e, c, fuel), s), c)
    decreases fuel, Size(e), 1
  {
    EvalKeeps(rt, s, e.condition, c, fuel);
    var cond := Eval(rt, s, e.condition, c, fuel);
    if cond.Returned? {
      var s1 := cond.value.1;
      if Truthy(cond.value.0) {
        EvalKeeps(rt, s1, e.thenBlock, c, fuel);
        KeepsTrans(s, s1, After(Eval(rt, s1, e.thenBlock, c, fuel), s1), c);
      } else if e.elseBlock.Some? {
        EvalKeeps(rt, s1, e.elseBlock.value, c, fuel);
        KeepsTrans(s, s1, After(Eval(rt, s1, e.elseBlock.value, c, fuel), s1), c);
      }
    }
  }

  lemma {:induction false} CallKeeps(rt: Runtime, s: Store, e: Expression, c: nat, fuel: nat)
    requires e.CallEx? && c < |s|
    ensures Keeps(s, After(EvalCall(rt, s, e, c, fuel), s), c)
    decreases fuel, Size(e), 1
  {
    EvalKeeps(rt, s, e.func, c, fuel);
    var f := Eval(rt, s, e.func, c, fuel);
    if f.Returned? && IsCallable(f.value.0) {
      var s1 := f.value.1;
      ArgsKeeps(rt, s1, e.args, c, [], fuel);
      var a := EvalArgs(rt, s1, e.args, c, [], fuel);
      if a.Returned? {
        var s2 := a.value.1;
        KeepsTrans(s, s1, s2, c);
        ApplyKeeps(rt, s2, f.value.0, a.value.0, fuel);
        var s3 := After(Apply(rt, s2, f.value.0, a.value.0, fuel), s2);
        KeepsAll(s2, s3, c);
        KeepsTrans(s, s2, s3, c);
      }
    }
  }

  lemma {:induction false} ArgsKeeps(rt: Runtime, s: Store, args: seq<Expression>, c: nat, acc: seq<Value>, fuel: nat)
    requires c < |s|
    ensures Keeps(s, After(EvalArgs(rt, s, args, c, acc, fuel), s), c)
    decreases fuel, SizeList(args), 3
  {
    if args != [] {
      EvalKeeps(rt, s, args[0], c, fuel);
      var x := Eval(rt, s, args[0], c, fuel);
      if x.Returned? {
        ArgsKeeps(rt, x.value.1, args[1..], c, acc + [x.value.0], fuel);
        KeepsTrans(s, x.value.1, After(EvalArgs(rt, x.value.1, args[1..], c, acc + [x.value.0], fuel), x.value.1), c);
      }
    }
  }

  /** A call changes no context that existed before it. */
  lemma {:induction false} ApplyKeeps(rt: Runtime, s: Store, f: Value, args: seq<Value>, fuel: nat)
    requires IsCallable(f)
    ensures Keeps(s, After(Apply(rt, s, f, args, fuel), s), |s|)
    decreases fuel, 0, 0
  {
    if f.Closure? && fuel > 0 {
      var s1 := Bind(NewContext(s, Some(f.scope)), |s|, f.params, args, 0);
      EvalKeeps(rt, s1, f.body, |s|, fuel - 1);
    }
  }

  // ---------------------------------------------------------------------------
  // Blocks

  /** An empty block gives `null`. */
  lemma EmptyBlockIsNull(rt: Runtime, s: Store, loc: Location, c: nat, fuel: nat)
    requires c < |s|
    ensures Eval(rt, s, BlockEx(loc, []), c, fuel) == Returned((Null, NewContext(s, Some(c))))
  {
    assert Eval(rt, s, BlockEx(loc, []), c, fuel) == EvalBlock(rt, s, BlockEx(loc, []), c, fuel);
    assert EvalBlock(rt, s, BlockEx(loc, []), c, fuel) == EvalSeq(rt, NewContext(s, Some(c)), [], |s|, Null, fuel);
  }

  /** Running `es + [x]` is running `es` and then `x`, whose value is the result. */
  lemma {:induction false} SeqGivesLast(rt: Runtime, s: Store, es: seq<Expression>, x: Expression, c: nat, result: Value, fuel: nat)
    requires c < |s|
    ensures EvalSeq(rt, s, es + [x], c, result, fuel) ==
      match EvalSeq(rt, s, es, c, result, fuel)
      case Returned(p) => Eval(rt, p.1, x, c, fuel)
      case Threw(err) => Threw(err)
      case Exhausted => Exhausted
    decreases |es|
  {
    if es == [] {
      assert [] + [x] == [x];
      assert EvalSeq(rt, s, [x], c, result, fuel) == (
        match Eval(rt, s, x, c, fuel)
        case Returned(p) => EvalSeq(rt, p.1, [], c, p.0, fuel)
        case Threw(err) => Threw(err)
        case Exhausted => Exhausted);
    } else {
      assert (es + [x])[0] == es[0] && (es + [x])[1..] == es[1..] + [x];
      var y := Eval(rt, s, es[0], c, fuel);
      if y.Returned? {
        SeqGivesLast(rt, y.value.1, es[1..], x, c, y.value.0, fuel);
      }
    }
  }

  /**
   * A block ending in `x` gives the value of `x`; the block runs in a new
   * child of the current context.
   */
  lemma BlockGivesLast(rt: Runtime, s: Store, loc: Location, es: seq<Expression>, x: Expression, c: nat, fuel: nat)
    requires c < |s|
    ensures Eval(rt, s, BlockEx(loc, es + [x]), c, fuel) ==
      match EvalSeq(rt, NewContext(s, Some(c)), es, |s|, Null, fuel)
      case Returned(p) => Eval(rt, p.1, x, |s|, fuel)
      case Threw(err) => Threw(err)
      case Exhausted => Exhausted
  {
    SeqGivesLast(rt, NewContext(s, Some(c)), es, x, |s|, Null, fuel);
  }

  /**
   * Bindings made inside a block do not leak: afterwards every context that
   * existed is as it was, so every lookup from the enclosing context is too.
   */
  lemma BlockLeavesNoBindings(rt: Runtime, s: Store, e: Expression, c: nat, fuel: nat, x: string, loc: Location)
    requires e.BlockEx? && c < |s|
    requires Eval(rt, s, e, c, fuel).Returned?
    ensures forall k :: 0 <= k < |s| ==> Eval(rt, s, e, c, fuel).value.1[k] == s[k]
    ensures Get(Eval(rt, s, e, c, fuel).value.1, c, x, loc) == Get(s, c, x, loc)
  {
    var t := Eval(rt, s, e, c, fuel).value.1;
    BlockKeeps(rt, s, e, c, fuel);
    GetReadsOnlyChain(s, t, c, x, loc);
  }

  // ---------------------------------------------------------------------------
  // Assignments, conditionals, declarations

  /** An assignment gives the value it stored, and the name then looks it up. */
  lemma AssignmentGivesItsValue(rt: Runtime, s: Store, loc: Location, id: string, body: Expression, c: nat, fuel: nat, l: Location)
    requires c < |s|
    requires Eval(rt, s, AssignmentEx(loc, id, body), c, fuel).Returned?
    ensures Eval(rt, s, body, c, fuel).Returned?
    ensures Eval(rt, s, AssignmentEx(loc, id, body), c, fuel).value.0 == Eval(rt, s, body, c, fuel).value.0
    ensures Get(Eval(rt, s, AssignmentEx(loc, id, body), c, fuel).value.1, c, id, l)
      == Ok(Eval(rt, s, body, c, fuel).value.0)
  {
  }

  /**
   * A truthy condition takes the then branch, in the store the condition
   * left; the else branch, if any, is not evaluated.
   */
  lemma TruthyCondition(rt: Runtime, s: Store, loc: Location, cond: Expression, thenB: Expression,
                        elseB: Option<Expression>, c: nat, fuel: nat)
    requires c < |s|
    requires Eval(rt, s, cond, c, fuel).Returned? && Truthy(Eval(rt, s, cond, c, fuel).value.0)
    ensures Eval(rt, s, IfEx(loc, cond, thenB, elseB), c, fuel)
      == Eval(rt, Eval(rt, s, cond, c, fuel).value.1, thenB, c, fuel)
  {
  }

  /** A falsy condition takes the else branch, and with no else branch gives `null`. */
  lemma FalsyCondition(rt: Runtime, s: Store, loc: Location, cond: Expression, thenB: Expression,
                       elseB: Option<Expression>, c: nat, fuel: nat)
    requires c < |s|
    requires Eval(rt, s, cond, c, fuel).Returned? && !Truthy(Eval(rt, s, cond, c, fuel).value.0)
    ensures var s1 := Eval(rt, s, cond, c, fuel).value.1;
      Eval(rt, s, IfEx(loc, cond, thenB, elseB), c, fuel)
        == if elseB.Some? then Eval(rt, s1, elseB.value, c, fuel) else Returned((Null, s1))
  {
  }

  /**
   * A function declaration binds a closure over the current context under
   * its name and gives that closure.
   */
  lemma DeclarationBindsClosure(rt: Runtime, s: Store, loc: Location, id: string, params: seq<string>,
                                body: Expression, c: nat, fuel: nat, l: Location)
    requires c < |s|
    ensures var r := Eval(rt, s, FunctionEx(loc, id, params, body), c, fuel);
      r.Returned? && r.value.0 == Closure(c, params, body) && Get(r.value.1, c, id, l) == Ok(r.value.0)
  {
  }

  // ---------------------------------------------------------------------------
  // Calls

  /**
   * Calling a value that is not a function fails at the callee's location,
   * whatever the arguments: none of them is evaluated.
   */
  lemma CallOfNonFunction(rt: Runtime, s: Store, loc: Location, func: Expression, args: seq<Expression>, c: nat, fuel: nat)
    requires c < |s|
    requires Eval(rt, s, func, c, fuel).Returned? && !IsCallable(Eval(rt, s, func, c, fuel).value.0)
    ensures Eval(rt, s, CallEx(loc, func, args), c, fuel)
      == Threw(LocatedError(func.loc, "Attempt to call non-function '" + rt.show(Eval(rt, s, func, c, fuel).value.0) + "'"))
  {
  }

  /** Arguments run left to right: `a + b` is `a`, then `b` from where `a` left off. */
  lemma {:induction false} ArgumentsLeftToRight(rt: Runtime, s: Store, a: seq<Expression>, b: seq<Expression>,
                                                c: nat, acc: seq<Value>, fuel: nat)
    requires c < |s|
    ensures EvalArgs(rt, s, a + b, c, acc, fuel) ==
      match EvalArgs(rt, s, a, c, acc, fuel)
      case Returned(p) => EvalArgs(rt, p.1, b, c, p.0, fuel)
      case Threw(err) => Threw(err)
      case Exhausted => Exhausted
    decreases |a|
  {
    if a == [] {
      assert [] + b == b;
    } else {
      assert (a + b)[0] == a[0] && (a + b)[1..] == a[1..] + b;
      var x := Eval(rt, s, a[0], c, fuel);
      if x.Returned? {
        ArgumentsLeftToRight(rt, x.value.1, a[1..], b, c, acc + [x.value.0], fuel);
      }
    }
  }

  /** The argument values come after `acc`, one per argument, in order. */
  lemma {:induction false} ArgumentsInOrder(rt: Runtime, s: Store, args: seq<Expression>, c: nat, acc: seq<Value>, fuel: nat)
    requires c < |s|
    requires EvalArgs(rt, s, args, c, acc, fuel).Returned?
    ensures EvalArgs(rt, s, args, c, acc, fuel).value.0[..|acc|] == acc
    ensures args != [] ==>
      (Eval(rt, s, args[0], c, fuel).Returned?
       && EvalArgs(rt, s, args, c, acc, fuel).value.0[|acc|] == Eval(rt, s, args[0], c, fuel).value.0)
    decreases |args|
  {
    if args != [] {
      var x := Eval(rt, s, args[0], c, fuel);
      ArgumentsInOrder(rt, x.value.1, args[1..], c, acc + [x.value.0], fuel);
      assert (acc + [x.value.0])[..|acc|] == acc;
    }
  }

  /** `x` is one of `params[i..]`. */
  predicate Among(params: seq<string>, i: nat, x: string)
  {
    exists k :: i <= k < |params| && params[k] == x
  }

  /** Names at index `j` or after that are not bound again later. */
  predicate LastOccurrence(params: seq<string>, j: nat)
  {
    j < |params| && forall k :: j < k < |params| ==> params[k] != params[j]
  }

  /**
   * The parameter loop binds each of `params[i..]` in context `c`, to its
   * argument or to `undefined`; extra arguments are ignored, and a repeated
   * name keeps its last binding. Nothing else in `c` changes.
   */
  lemma {:induction false} BindPositional(s: Store, c: nat, params: seq<string>, args: seq<Value>, i: nat)
    requires c < |s| && i <= |params|
    ensures var r := Bind(s, c, params, args, i);
      (forall x :: x in r[c].scope <==> x in s[c].scope || Among(params, i, x))
      && (forall j :: i <= j && LastOccurrence(params, j) ==> r[c].scope[params[j]] == if j < |args| then args[j] else Undefined)
      && (forall x :: x in s[c].scope && !Among(params, i, x) ==> r[c].scope[x] == s[c].scope[x])
    decreases |params| - i
  {
    if i < |params| {
      var s1 := SetVar(s, c, params[i], if i < |args| then args[i] else Undefined);
      BindPositional(s1, c, params, args, i + 1);
      var r := Bind(s1, c, params, args, i + 1);
      forall x ensures Among(params, i, x) <==> x == params[i] || Among(params, i + 1, x) {
        if Among(params, i, x) && x != params[i] {
          var k :| i <= k < |params| && params[k] == x;
          assert i + 1 <= k;
        }
      }
      forall j | i <= j && LastOccurrence(params, j) ensures r[c].scope[params[j]] == if j < |args| then args[j] else Undefined {
        if j == i {
          assert !Among(params, i + 1, params[i]);
        }
      }
    }
  }

  /** The context a closure's body runs in, for a call from store `s`. */
  function CallContext(s: Store, f: Value, args: seq<Value>): (t: Store)
    requires f.Closure?
    ensures |t| == |s| + 1
  {
    Bind(NewContext(s, Some(f.scope)), |s|, f.params, args, 0)
  }

  /**
   * Calling a closure runs its body, with one unit less fuel, in a new
   * context whose parent is the context the closure captured (not the
   * caller's) and whose only bindings are the parameters.
   */
  lemma ClosureCall(rt: Runtime, s: Store, f: Value, args: seq<Value>, fuel: nat)
    requires f.Closure? && fuel > 0
    ensures Apply(rt, s, f, args, fuel) == Eval(rt, CallContext(s, f, args), f.body, |s|, fuel - 1)
    ensures var t := CallContext(s, f, args);
      t[..|s|] == s && t[|s|].parent == Some(f.scope)
      && (forall x :: x in t[|s|].scope <==> x in f.params)
  {
    BindPositional(NewContext(s, Some(f.scope)), |s|, f.params, args, 0);
  }

  /**
   * Parameters bind positionally: parameter `j` (its last occurrence) gets
   * argument `j`, or `undefined` when fewer arguments were passed.
   */
  lemma ParametersBindPositionally(s: Store, f: Value, args: seq<Value>, j: nat)
    requires f.Closure? && LastOccurrence(f.params, j)
    ensures f.params[j] in CallContext(s, f, args)[|s|].scope
      && CallContext(s, f, args)[|s|].scope[f.params[j]] == (if j < |args| then args[j] else Undefined)
  {
    BindPositional(NewContext(s, Some(f.scope)), |s|, f.params, args, 0);
    assert f.params[j] in f.params;
  }

  /**
   * Closures capture their context by reference: a name that is not a
   * parameter is looked up in the captured context as it is when the
   * closure is called, later assignments included.
   */
  lemma CaptureByReference(s: Store, f: Value, args: seq<Value>, x: string, loc: Location)
    requires f.Closure? && f.scope < |s| && x !in f.params
    ensures Get(CallContext(s, f, args), |s|, x, loc) == Get(s, f.scope, x, loc)
  {
    var t := CallContext(s, f, args);
    BindPositional(NewContext(s, Some(f.scope)), |s|, f.params, args, 0);
    assert x !in t[|s|].scope;
    forall k | 0 <= k < |Chain(s, f.scope)| ensures Chain(s, f.scope)[k] < |t| && t[Chain(s, f.scope)[k]] == s[Chain(s, f.scope)[k]] {
    }
    GetReadsOnlyChain(s, t, f.scope, x, loc);
  }

  /** An assignment made in the captured context after the closure was made is seen by its body. */
  lemma LaterAssignmentIsSeen(s: Store, f: Value, args: seq<Value>, x: string, v: Value, loc: Location)
    requires f.Closure? && f.scope < |s| && x !in f.params
    ensures Get(CallContext(SetVar(s, f.scope, x, v), f, args), |s|, x, loc) == Ok(v)
  {
    CaptureByReference(SetVar(s, f.scope, x, v), f, args, x, loc);
  }

  // ---------------------------------------------------------------------------
  // The module entry point

  /** The library context holds a builtin for every builtin name and nothing else. */
  lemma LibraryHoldsBuiltins(x: string, loc: Location)
    ensures Get([Library()], 0, x, loc) == if x in BuiltinNames then Ok(Builtin(x)) else Fail(loc, "Variable " + x + " is not defined")
  {
  }

  /**
   * With a function named `main`, the module declares every function in its
   * scope and then calls the last `main` declared, with no arguments. An
   * error or exhaustion of that call is the module's; its value is discarded.
   */
  lemma MainIsCalled(rt: Runtime, m: ModuleEx, fuel: nat, j: nat)
    requires LastDeclaration(m.functions, j) && m.functions[j].identifier == "main"
    ensures var f := Closure(1, m.functions[j].params, m.functions[j].body);
      RunModule(rt, m, fuel) ==
        match Apply(rt, ModuleStore(rt, m, fuel), f, [], fuel)
        case Returned(_) => Returned(Undefined)
        case Threw(err) => Threw(err)
        case Exhausted => Exhausted
  {
    DeclareBindsClosures(rt, [Library(), Context(map[], Some(0))], m.functions, 1, fuel);
  }
}
