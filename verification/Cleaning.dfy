/** The cleaner of values: composed values without operations are replaced by their only part. */
module Cleaning {
  import opened Ast
  import opened Semantics

  function Clean(v: Value): Value
    decreases v
  {
    match v
    case Literal(_) => v
    case Variable(_) => v
    case Composed(first, ops) =>
      if ops == [] then Clean(first)
      else Composed(Clean(first), seq(|ops|, i requires 0 <= i < |ops| => Operation(ops[i].op, Clean(ops[i].value))))
    case FunctionCall(m, args) => FunctionCall(m, CleanAll(args))
    case Builtin(kind, arg) => Builtin(kind, Clean(arg))
    case AssignValue(left, op, right) => AssignValue(Clean(left), op, Clean(right))
    case Prefix(op, operand) => Prefix(op, Clean(operand))
    case Ternary(c, t, f) => Ternary(Clean(c), Clean(t), Clean(f))
    case Cast(ty, inner) => Cast(ty, Clean(inner))
    case New(m, args) => New(m, CleanAll(args))
    case NewArray(ty, size) => NewArray(ty, Clean(size))
  }

  function CleanAll(vs: seq<Value>): (ws: seq<Value>)
    ensures |ws| == |vs|
    decreases vs
  {
    if vs == [] then [] else [Clean(vs[0])] + CleanAll(vs[1..])
  }

  /** No composed value without operations, at any depth. */
  predicate NoneEmpty(v: Value) {
    match v
    case Literal(_) => true
    case Variable(_) => true
    case Composed(first, ops) => ops != [] && NoneEmpty(first) && forall i | 0 <= i < |ops| :: NoneEmpty(ops[i].value)
    case FunctionCall(_, args) => AllNoneEmpty(args)
    case Builtin(_, arg) => NoneEmpty(arg)
    case AssignValue(left, _, right) => NoneEmpty(left) && NoneEmpty(right)
    case Prefix(_, operand) => NoneEmpty(operand)
    case Ternary(c, t, f) => NoneEmpty(c) && NoneEmpty(t) && NoneEmpty(f)
    case Cast(_, inner) => NoneEmpty(inner)
    case New(_, args) => AllNoneEmpty(args)
    case NewArray(_, size) => NoneEmpty(size)
  }

  predicate AllNoneEmpty(vs: seq<Value>) { vs == [] || (NoneEmpty(vs[0]) && AllNoneEmpty(vs[1..])) }

  /** The cleaner leaves nothing empty, and values with nothing empty as they are. */
  lemma {:induction false} CleanLeavesNoneEmpty(v: Value)
    ensures NoneEmpty(Clean(v))
    ensures NoneEmpty(v) <==> Clean(v) == v
    decreases v
  {
    match v
    case Literal(_) =>
    case Variable(_) =>
    case Composed(first, ops) =>
      CleanLeavesNoneEmpty(first);
      if ops == [] {
        SmallerThanComposed(v);
      } else {
        forall i | 0 <= i < |ops|
          ensures NoneEmpty(Clean(v).ops[i].value) && (NoneEmpty(ops[i].value) <==> Clean(v).ops[i] == ops[i])
        {
          CleanLeavesNoneEmpty(ops[i].value);
        }
        if Clean(v) == v { assert forall i | 0 <= i < |ops| :: Clean(v).ops[i] == ops[i]; }
      }
    case FunctionCall(_, args) => CleanAllLeavesNoneEmpty(args);
    case Builtin(_, arg) => CleanLeavesNoneEmpty(arg);
    case AssignValue(left, _, right) =>
      CleanLeavesNoneEmpty(left);
      CleanLeavesNoneEmpty(right);
    case Prefix(_, operand) => CleanLeavesNoneEmpty(operand);
    case Ternary(c, t, f) =>
      CleanLeavesNoneEmpty(c);
      CleanLeavesNoneEmpty(t);
      CleanLeavesNoneEmpty(f);
    case Cast(_, inner) => CleanLeavesNoneEmpty(inner);
    case New(_, args) => CleanAllLeavesNoneEmpty(args);
    case NewArray(_, size) => CleanLeavesNoneEmpty(size);
  }

  lemma SmallerThanComposed(v: Value)
    requires v.Composed? && v.ops == [] && NoneEmpty(Clean(v.first))
    ensures Clean(v) != v
  {
    assert !NoneEmpty(v);
  }

  lemma {:induction false} CleanAllLeavesNoneEmpty(vs: seq<Value>)
    ensures AllNoneEmpty(CleanAll(vs))
    ensures AllNoneEmpty(vs) <==> CleanAll(vs) == vs
    decreases vs
  {
    if vs != [] {
      CleanLeavesNoneEmpty(vs[0]);
      CleanAllLeavesNoneEmpty(vs[1..]);
      assert CleanAll(vs)[0] == Clean(vs[0]) && CleanAll(vs)[1..] == CleanAll(vs[1..]);
    }
  }

  // ----- cleaning keeps the meaning -----

  /** As parsed, the operand of a member call is the call itself. */
  predicate CallsAreDirect(v: Value) {
    match v
    case Literal(_) => true
    case Variable(_) => true
    case Composed(first, ops) =>
      && CallsAreDirect(first)
      && forall i | 0 <= i < |ops| :: CallsAreDirect(ops[i].value) && (ops[i].op.CALL? ==> ops[i].value.FunctionCall?)
    case FunctionCall(_, args) => AllDirect(args)
    case Builtin(_, arg) => CallsAreDirect(arg)
    case AssignValue(left, _, right) => CallsAreDirect(left) && CallsAreDirect(right)
    case Prefix(_, operand) => CallsAreDirect(operand)
    case Ternary(c, t, f) => CallsAreDirect(c) && CallsAreDirect(t) && CallsAreDirect(f)
    case Cast(_, inner) => CallsAreDirect(inner)
    case New(_, args) => AllDirect(args)
    case NewArray(_, size) => CallsAreDirect(size)
  }

  predicate AllDirect(vs: seq<Value>) { vs == [] || (CallsAreDirect(vs[0]) && AllDirect(vs[1..])) }

  lemma {:induction false} RootClean(v: Value)
    ensures Root(Clean(v)) == Root(v)
    decreases v
  {
    if v.Composed? && v.ops == [] { RootClean(v.first); }
  }

  /** Cleaning a value changes neither what it yields nor what it does. */
  lemma {:induction false} EvalClean(I: Interp, v: Value, st: State)
    requires CallsAreDirect(v)
    ensures Eval(I, Clean(v), st) == Eval(I, v, st)
    decreases v, 2
  {
    match v
    case Literal(_) =>
    case Variable(_) =>
    case Composed(first, ops) => if ops == [] { EvalClean(I, first, st); } else { OpsClean(I, v, |ops|, st); }
    case FunctionCall(_, args) => ArgsClean(I, args, st);
    case Builtin(_, arg) => EvalClean(I, arg, st);
    case AssignValue(left, _, _) =>
      AssignClean(I, v, st);
      var r := EvalAssign(I, v, st);
      if r.Ok? { EvalClean(I, left, r.st); }
    case Prefix(op, operand) =>
      if Bumps(op) { ReferenceClean(I, operand, st); } else { EvalClean(I, operand, st); }
    case Ternary(c, t, f) =>
      EvalClean(I, c, st);
      var r := Eval(I, c, st);
      if r.Ok? {
        EvalClean(I, t, r.st);
        EvalClean(I, f, r.st);
      }
    case Cast(_, inner) => EvalClean(I, inner, st);
    case New(_, args) => ArgsClean(I, args, st);
    case NewArray(_, size) => EvalClean(I, size, st);
  }

  lemma {:induction false} ArgsClean(I: Interp, args: seq<Value>, st: State)
    requires AllDirect(args)
    ensures EvalArgs(I, CleanAll(args), st) == EvalArgs(I, args, st)
    decreases args, 0
  {
    if args != [] {
      var cleaned := CleanAll(args);
      assert cleaned[0] == Clean(args[0]) && cleaned[1..] == CleanAll(args[1..]);
      ArgsClean(I, args[1..], st);
      var r := EvalArgs(I, args[1..], st);
      if r.Args? { EvalClean(I, args[0], r.st); }
    }
  }

  lemma {:induction false} OpsClean(I: Interp, e: Value, k: nat, st: State)
    requires e.Composed? && e.ops != [] && k <= |e.ops| && CallsAreDirect(e)
    ensures EvalOps(I, Clean(e), k, st) == EvalOps(I, e, k, st)
    decreases e, 1, k, 0
  {
    if k == 0 {
      EvalClean(I, e.first, st);
    } else if Bumps(e.ops[k - 1].op) {
      ReferenceOpsClean(I, e, k - 1, st);
    } else {
      OpsClean(I, e, k - 1, st);
      var r := EvalOps(I, e, k - 1, st);
      if r.Ok? { StepClean(I, e, k - 1, r.v, r.st); }
    }
  }

  lemma {:induction false} StepClean(I: Interp, e: Value, j: nat, acc: Val, st: State)
    requires e.Composed? && j < |e.ops| && !Bumps(e.ops[j].op) && CallsAreDirect(e)
    ensures Step(I, Clean(e), j, acc, st) == Step(I, e, j, acc, st)
    decreases e, 0
  {
    var Operation(op, value) := e.ops[j];
    assert Clean(e).ops[j] == Operation(op, Clean(value)) && CallsAreDirect(value);
    if op.CALL? { ArgsClean(I, value.args, st); } else { EvalClean(I, value, st); }
  }

  lemma {:induction false} ResolveClean(I: Interp, left: Value, st: State)
    requires CallsAreDirect(left)
    ensures Resolve(I, Clean(left), st) == Resolve(I, left, st)
    decreases left, 2
  {
    match left
    case Composed(first, ops) =>
      if ops == [] {
        ResolveClean(I, first, st);
      } else if Selects(ops[|ops| - 1].op) {
        SelectedClean(I, left, |ops| - 1, st);
      }
    case Prefix(_, operand) => EvalClean(I, operand, st);
    case _ =>
  }

  lemma {:induction false} SelectedClean(I: Interp, e: Value, j: nat, st: State)
    requires e.Composed? && j < |e.ops| && Selects(e.ops[j].op) && CallsAreDirect(e)
    ensures Selected(I, Clean(e), j, st) == Selected(I, e, j, st)
    decreases e, 1, j, 1
  {
    assert Clean(e).ops[j] == Operation(e.ops[j].op, Clean(e.ops[j].value)) && CallsAreDirect(e.ops[j].value);
    OpsClean(I, e, j, st);
    var r := EvalOps(I, e, j, st);
    if r.Ok? { EvalClean(I, e.ops[j].value, r.st); }
    RootClean(e.first);
  }

  lemma {:induction false} ReferenceClean(I: Interp, v: Value, st: State)
    requires CallsAreDirect(v)
    ensures Reference(I, Clean(v), st) == Reference(I, v, st)
    decreases v, 3
  {
    match v
    case Composed(first, ops) =>
      if ops == [] { ReferenceClean(I, first, st); } else { ReferenceOpsClean(I, v, |ops|, st); }
    case AssignValue(left, _, _) =>
      AssignClean(I, v, st);
      var r := EvalAssign(I, v, st);
      if r.Ok? { ReferenceClean(I, left, r.st); }
    case _ => EvalClean(I, v, st);
  }

  lemma {:induction false} ReferenceOpsClean(I: Interp, e: Value, k: nat, st: State)
    requires e.Composed? && e.ops != [] && k <= |e.ops| && CallsAreDirect(e)
    ensures ReferenceOps(I, Clean(e), k, st) == ReferenceOps(I, e, k, st)
    decreases e, 1, k, 2
  {
    if k == 0 {
      ReferenceClean(I, e.first, st);
    } else if Selects(e.ops[k - 1].op) {
      SelectedClean(I, e, k - 1, st);
    } else {
      OpsClean(I, e, k, st);
    }
  }

  lemma {:induction false} AssignClean(I: Interp, a: Value, st: State)
    requires a.AssignValue? && CallsAreDirect(a)
    ensures EvalAssign(I, Clean(a), st) == EvalAssign(I, a, st)
    decreases a, 1
  {
    RootClean(a.left);
    RootClean(a.right);
    if !a.op.SWAP? {
      ResolveClean(I, a.left, st);
      var p := Resolve(I, a.left, st);
      if p.At? { EvalClean(I, a.right, p.st); }
    }
  }
}
