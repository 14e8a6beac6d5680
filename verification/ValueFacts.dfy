/** Syntactic conditions on values, and what each of them guarantees when the value is evaluated. */
module ValueFacts {
  import opened Common
  import opened Ast
  import opened Semantics

  // ----- values without side effects -----

  /** Evaluating v leaves every state as it was. */
  ghost predicate Quiet(I: Interp, v: Value) { forall st :: QuietAt(I, v, st) }

  predicate QuietAt(I: Interp, v: Value, st: State) {
    var r := Eval(I, v, st);
    r.Ok? ==> r.st == st
  }

  /** Finding the place v denotes leaves every state as it was. */
  ghost predicate QuietPlace(I: Interp, v: Value) { forall st :: QuietPlaceAt(I, v, st) }

  predicate QuietPlaceAt(I: Interp, v: Value, st: State) {
    var p := Resolve(I, v, st);
    p.At? ==> p.st == st
  }

  lemma {:induction false} RootIsRead(I: Interp, v: Value, st: State)
    requires Root(v).Some?
    ensures Eval(I, v, st) == OfOption(Get(st, Root(v).value), st)
  {
    if v.Composed? { RootIsRead(I, v.first, st); }
  }

  /** When finding the place of a left value has no side effect, reading the value is reading that place. */
  lemma {:induction false} QuietPlaceIsRead(I: Interp, left: Value, st: State)
    requires Resolve(I, left, st).At? && QuietPlaceAt(I, left, st)
    ensures Eval(I, left, st) == OfOption(ReadPlace(I, Resolve(I, left, st).p, st), st)
  {
    match left
    case Variable(_) =>
    case Composed(first, ops) =>
      if ops == [] {
        QuietPlaceIsRead(I, first, st);
      } else {
        var j := |ops| - 1;
        var r := EvalOps(I, left, j, st);
        assert Eval(I, left, st) == Step(I, left, j, r.v, r.st);
        if |ops| == 1 && Root(first).Some? {
          assert r == Eval(I, first, st);
          RootIsRead(I, first, st);
        }
      }
    case Prefix(_, _) =>
  }

  // ----- a check for quiet values -----

  /** Calls of these functions change nothing. */
  ghost predicate Harmless(I: Interp, calls: set<string>) {
    forall m, vs, g | m in calls :: I.call(m, vs, g).Some? ==> I.call(m, vs, g).value.1 == g
  }

  /** No `++`, `--` or assignment, and no call but of these functions. */
  predicate Pure(v: Value, calls: set<string>) {
    match v
    case Literal(_) => true
    case Variable(_) => true
    case Composed(first, ops) =>
      Pure(first, calls) && forall o | o in ops :: !Bumps(o.op) && Pure(o.value, calls)
    case FunctionCall(m, args) => m in calls && forall a | a in args :: Pure(a, calls)
    case Builtin(_, arg) => Pure(arg, calls)
    case AssignValue(_, _, _) => false
    case Prefix(op, operand) => !Bumps(op) && Pure(operand, calls)
    case Ternary(c, t, f) => Pure(c, calls) && Pure(t, calls) && Pure(f, calls)
    case Cast(_, inner) => Pure(inner, calls)
    case New(m, args) => m in calls && forall a | a in args :: Pure(a, calls)
    case NewArray(ty, size) => ty in calls && Pure(size, calls)
  }

  lemma {:induction false} PureIsQuietAt(I: Interp, v: Value, calls: set<string>, st: State)
    requires Pure(v, calls) && Harmless(I, calls)
    ensures QuietAt(I, v, st)
    decreases v, 1
  {
    match v
    case Composed(_, ops) => PureOps(I, v, |ops|, calls, st);
    case FunctionCall(_, args) => PureArgs(I, args, calls, st);
    case Builtin(_, arg) => PureIsQuietAt(I, arg, calls, st);
    case Prefix(_, operand) => PureIsQuietAt(I, operand, calls, st);
    case Ternary(c, t, f) =>
      PureIsQuietAt(I, c, calls, st);
      PureIsQuietAt(I, t, calls, st);
      PureIsQuietAt(I, f, calls, st);
    case Cast(_, inner) => PureIsQuietAt(I, inner, calls, st);
    case New(_, args) => PureArgs(I, args, calls, st);
    case NewArray(_, size) => PureIsQuietAt(I, size, calls, st);
    case _ =>
  }

  lemma {:induction false} PureArgs(I: Interp, args: seq<Value>, calls: set<string>, st: State)
    requires (forall a | a in args :: Pure(a, calls)) && Harmless(I, calls)
    ensures EvalArgs(I, args, st).Args? ==> EvalArgs(I, args, st).st == st
    decreases args, 0
  {
    if args != [] {
      PureArgs(I, args[1..], calls, st);
      PureIsQuietAt(I, args[0], calls, st);
    }
  }

  lemma {:induction false} PureOps(I: Interp, e: Value, k: nat, calls: set<string>, st: State)
    requires e.Composed? && Pure(e, calls) && Harmless(I, calls) && k <= |e.ops|
    ensures EvalOps(I, e, k, st).Ok? ==> EvalOps(I, e, k, st).st == st
    decreases e, 0, k
  {
    if k == 0 {
      PureIsQuietAt(I, e.first, calls, st);
    } else {
      PureOps(I, e, k - 1, calls, st);
      var o := e.ops[k - 1];
      assert o in e.ops;
      PureIsQuietAt(I, o.value, calls, st);
      if o.value.FunctionCall? { PureArgs(I, o.value.args, calls, st); }
    }
  }

  lemma {:induction false} PurePlaceIsQuietAt(I: Interp, left: Value, calls: set<string>, st: State)
    requires Pure(left, calls) && Harmless(I, calls)
    ensures QuietPlaceAt(I, left, st)
    decreases left
  {
    match left
    case Composed(first, ops) =>
      if ops == [] {
        PurePlaceIsQuietAt(I, first, calls, st);
      } else {
        var last := ops[|ops| - 1];
        assert last in ops;
        PureOps(I, left, |ops| - 1, calls, st);
        PureIsQuietAt(I, last.value, calls, st);
      }
    case Prefix(_, operand) => PureIsQuietAt(I, operand, calls, st);
    case _ =>
  }

  /** What a compiler can check: without `++`, `--`, assignments and harmful calls, a value is quiet. */
  lemma PureIsQuiet(I: Interp, v: Value, calls: set<string>)
    requires Pure(v, calls) && Harmless(I, calls)
    ensures Quiet(I, v) && QuietPlace(I, v)
  {
    forall st ensures QuietAt(I, v, st) { PureIsQuietAt(I, v, calls, st); }
    forall st ensures QuietPlaceAt(I, v, st) { PurePlaceIsQuietAt(I, v, calls, st); }
  }

  // ----- values that do not mention hidden locals -----

  predicate Clear(v: Value, H: set<string>) {
    match v
    case Literal(_) => true
    case Variable(n) => ClearName(n, H)
    case Composed(first, ops) => Clear(first, H) && forall o | o in ops :: Clear(o.value, H)
    case FunctionCall(_, args) => forall a | a in args :: Clear(a, H)
    case Builtin(_, arg) => Clear(arg, H)
    case AssignValue(l, _, r) => Clear(l, H) && Clear(r, H)
    case Prefix(_, operand) => Clear(operand, H)
    case Ternary(c, t, f) => Clear(c, H) && Clear(t, H) && Clear(f, H)
    case Cast(_, inner) => Clear(inner, H)
    case New(_, args) => forall a | a in args :: Clear(a, H)
    case NewArray(_, size) => Clear(size, H)
  }

  predicate ClearName(n: Name, H: set<string>) { n.Local? ==> n.id !in H }

  predicate ClearPlace(p: Place, H: set<string>) {
    match p
    case VarPlace(n) => ClearName(n, H)
    case ElemPlace(n, _) => ClearName(n, H)
    case MemPlace(_, _, _) => true
    case Temporary(_) => true
  }

  /** The state without its hidden locals. */
  function Mask(st: State, H: set<string>): State { State(st.locals - H, st.globals) }

  function MaskRes(r: Res, H: set<string>): Res {
    if r.Ok? then Ok(r.v, Mask(r.st, H)) else r
  }

  function MaskArgs(r: ArgsRes, H: set<string>): ArgsRes {
    if r.Args? then Args(r.vs, Mask(r.st, H)) else r
  }

  function MaskPlace(r: PlaceRes, H: set<string>): PlaceRes {
    if r.At? then At(r.p, Mask(r.st, H)) else r
  }

  lemma MaskSet(st: State, n: Name, v: Val, H: set<string>)
    ensures ClearName(n, H) ==> Mask(Set(st, n, v), H) == Set(Mask(st, H), n, v)
    ensures !ClearName(n, H) ==> Mask(Set(st, n, v), H) == Mask(st, H)
  {
    if n.Local? {
      if n.id in H {
        assert st.locals[n.id := v] - H == st.locals - H;
      } else {
        assert st.locals[n.id := v] - H == (st.locals - H)[n.id := v];
      }
    }
  }

  lemma MaskWrite(I: Interp, p: Place, v: Val, st: State, H: set<string>)
    requires ClearPlace(p, H)
    ensures MaskRes(Write(I, p, v, st), H) == Write(I, p, v, Mask(st, H))
  {
    match p
    case VarPlace(n) => MaskSet(st, n, v, H);
    case ElemPlace(n, i) =>
      var arr := Get(st, n);
      if arr.Some? && arr.value.ArrV? && i.IntV? && 0 <= i.n < |arr.value.elems| {
        MaskSet(st, n, ArrV(arr.value.elems[i.n := v]), H);
      }
    case MemPlace(_, _, _) =>
    case Temporary(_) =>
  }

  lemma MaskRead(I: Interp, p: Place, st: State, H: set<string>)
    requires ClearPlace(p, H)
    ensures ReadPlace(I, p, st) == ReadPlace(I, p, Mask(st, H))
  {
  }

  lemma MaskBump(I: Interp, op: Operator, p: Place, st: State, H: set<string>)
    requires ClearPlace(p, H)
    ensures MaskRes(Bump(I, op, p, st), H) == Bump(I, op, p, Mask(st, H))
    ensures MaskRes(BumpAfter(I, op, p, st), H) == BumpAfter(I, op, p, Mask(st, H))
  {
    MaskRead(I, p, st, H);
    var c := ReadPlace(I, p, st);
    if c.Some? {
      var w := Apply(I, if op.INC? then ADD else SUB, c.value, IntV(1), st.globals);
      if w.Some? { MaskWrite(I, p, w.value, st, H); }
    }
  }

  lemma {:induction false} RootClear(v: Value, H: set<string>)
    requires Clear(v, H) && Root(v).Some?
    ensures ClearName(Root(v).value, H)
  {
    if v.Composed? { RootClear(v.first, H); }
  }

  /** Evaluating a value that does not mention hidden locals commutes with hiding them. */
  lemma {:induction false} EvalMask(I: Interp, v: Value, st: State, H: set<string>)
    requires Clear(v, H)
    ensures MaskRes(Eval(I, v, st), H) == Eval(I, v, Mask(st, H))
    decreases v, 2
  {
    match v
    case Literal(_) =>
    case Variable(_) =>
    case Composed(_, ops) => OpsMask(I, v, |ops|, st, H);
    case FunctionCall(_, args) => ArgsMask(I, args, st, H);
    case Builtin(_, arg) => EvalMask(I, arg, st, H);
    case AssignValue(left, _, _) =>
      AssignMask(I, v, st, H);
      var r := EvalAssign(I, v, st);
      if r.Ok? { EvalMask(I, left, r.st, H); }
    case Prefix(op, operand) =>
      EvalMask(I, operand, st, H);
      ReferenceMask(I, operand, st, H);
      var p := Reference(I, operand, st);
      if p.At? { MaskBump(I, op, p.p, p.st, H); }
    case Ternary(c, t, f) =>
      EvalMask(I, c, st, H);
      var r := Eval(I, c, st);
      if r.Ok? {
        EvalMask(I, t, r.st, H);
        EvalMask(I, f, r.st, H);
      }
    case Cast(_, inner) => EvalMask(I, inner, st, H);
    case New(_, args) => ArgsMask(I, args, st, H);
    case NewArray(_, size) => EvalMask(I, size, st, H);
  }

  lemma {:induction false} ArgsMask(I: Interp, args: seq<Value>, st: State, H: set<string>)
    requires forall a | a in args :: Clear(a, H)
    ensures MaskArgs(EvalArgs(I, args, st), H) == EvalArgs(I, args, Mask(st, H))
    decreases args, 0
  {
    if args != [] {
      ArgsMask(I, args[1..], st, H);
      var r := EvalArgs(I, args[1..], st);
      if r.Args? { EvalMask(I, args[0], r.st, H); }
    }
  }

  lemma {:induction false} OpsMask(I: Interp, e: Value, k: nat, st: State, H: set<string>)
    requires e.Composed? && k <= |e.ops| && Clear(e, H)
    ensures MaskRes(EvalOps(I, e, k, st), H) == EvalOps(I, e, k, Mask(st, H))
    decreases e, 1, k, 0
  {
    if k == 0 {
      EvalMask(I, e.first, st, H);
    } else if Bumps(e.ops[k - 1].op) {
      ReferenceOpsMask(I, e, k - 1, st, H);
      var p := ReferenceOps(I, e, k - 1, st);
      if p.At? { MaskBump(I, e.ops[k - 1].op, p.p, p.st, H); }
    } else {
      OpsMask(I, e, k - 1, st, H);
      var r := EvalOps(I, e, k - 1, st);
      if r.Ok? { StepMask(I, e, k - 1, r.v, r.st, H); }
    }
  }

  lemma {:induction false} StepMask(I: Interp, e: Value, j: nat, acc: Val, st: State, H: set<string>)
    requires e.Composed? && j < |e.ops| && !Bumps(e.ops[j].op) && Clear(e, H)
    ensures MaskRes(Step(I, e, j, acc, st), H) == Step(I, e, j, acc, Mask(st, H))
    decreases e, 0
  {
    var Operation(op, value) := e.ops[j];
    assert e.ops[j] in e.ops;
    if op.CALL? {
      if value.FunctionCall? { ArgsMask(I, value.args, st, H); }
    } else {
      EvalMask(I, value, st, H);
      if !op.AND? && !op.OR? { PlainStep(I, e, j, acc, st); PlainStep(I, e, j, acc, Mask(st, H)); }
    }
  }

  /** What an operation other than &&, ||, ++, -- and a call does. */
  lemma PlainStep(I: Interp, e: Value, j: nat, acc: Val, st: State)
    requires e.Composed? && j < |e.ops| && !Bumps(e.ops[j].op)
    requires var o := e.ops[j].op; !o.AND? && !o.OR? && !o.CALL?
    ensures Step(I, e, j, acc, st) ==
      var r := Eval(I, e.ops[j].value, st);
      if r.Ok? then OfOption(Apply(I, e.ops[j].op, acc, r.v, r.st.globals), r.st) else Stuck
  {
  }

  /** A place found with and without hidden locals. */
  ghost predicate SamePlace(p: PlaceRes, q: PlaceRes, H: set<string>) {
    MaskPlace(p, H) == q && (p.At? ==> ClearPlace(p.p, H))
  }

  lemma {:induction false} ResolveMask(I: Interp, left: Value, st: State, H: set<string>)
    requires Clear(left, H)
    ensures SamePlace(Resolve(I, left, st), Resolve(I, left, Mask(st, H)), H)
    decreases left, 2
  {
    match left
    case Composed(first, ops) =>
      if ops == [] {
        ResolveMask(I, first, st, H);
      } else if Selects(ops[|ops| - 1].op) {
        SelectedMask(I, left, |ops| - 1, st, H);
      }
    case Prefix(_, operand) => EvalMask(I, operand, st, H);
    case _ =>
  }

  lemma {:induction false} SelectedMask(I: Interp, e: Value, j: nat, st: State, H: set<string>)
    requires e.Composed? && j < |e.ops| && Selects(e.ops[j].op) && Clear(e, H)
    ensures SamePlace(Selected(I, e, j, st), Selected(I, e, j, Mask(st, H)), H)
    decreases e, 1, j, 1
  {
    assert e.ops[j] in e.ops;
    OpsMask(I, e, j, st, H);
    var r := EvalOps(I, e, j, st);
    if r.Ok? { EvalMask(I, e.ops[j].value, r.st, H); }
    if Root(e.first).Some? { RootClear(e.first, H); }
  }

  lemma {:induction false} ReferenceMask(I: Interp, v: Value, st: State, H: set<string>)
    requires Clear(v, H)
    ensures SamePlace(Reference(I, v, st), Reference(I, v, Mask(st, H)), H)
    decreases v, 3
  {
    match v
    case Composed(_, ops) => ReferenceOpsMask(I, v, |ops|, st, H);
    case AssignValue(left, _, _) =>
      AssignMask(I, v, st, H);
      var r := EvalAssign(I, v, st);
      if r.Ok? { ReferenceMask(I, left, r.st, H); }
    case _ => EvalMask(I, v, st, H);
  }

  lemma {:induction false} ReferenceOpsMask(I: Interp, e: Value, k: nat, st: State, H: set<string>)
    requires e.Composed? && k <= |e.ops| && Clear(e, H)
    ensures SamePlace(ReferenceOps(I, e, k, st), ReferenceOps(I, e, k, Mask(st, H)), H)
    decreases e, 1, k, 2
  {
    if k == 0 {
      ReferenceMask(I, e.first, st, H);
    } else if Selects(e.ops[k - 1].op) {
      SelectedMask(I, e, k - 1, st, H);
    } else {
      OpsMask(I, e, k, st, H);
    }
  }

  lemma {:induction false} AssignMask(I: Interp, a: Value, st: State, H: set<string>)
    requires a.AssignValue? && Clear(a, H)
    ensures MaskRes(EvalAssign(I, a, st), H) == EvalAssign(I, a, Mask(st, H))
    decreases a, 1
  {
    if a.op.SWAP? {
      if Root(a.left).Some? && Root(a.right).Some? {
        RootClear(a.left, H);
        RootClear(a.right, H);
        var l, r := Root(a.left).value, Root(a.right).value;
        if Get(st, l).Some? && Get(st, r).Some? {
          MaskSet(st, r, Get(st, l).value, H);
          MaskSet(Set(st, r, Get(st, l).value), l, Get(st, r).value, H);
        }
      }
    } else {
      ResolveMask(I, a.left, st, H);
      var p := Resolve(I, a.left, st);
      if p.At? {
        EvalMask(I, a.right, p.st, H);
        MaskRead(I, p.p, p.st, H);
        var r := Eval(I, a.right, p.st);
        if r.Ok? {
          MaskWrite(I, p.p, r.v, r.st, H);
          if ReadPlace(I, p.p, p.st).Some? {
            var w := Apply(I, a.op, ReadPlace(I, p.p, p.st).value, r.v, r.st.globals);
            if w.Some? { MaskWrite(I, p.p, w.value, r.st, H); }
          }
        }
      }
    }
  }

  // ----- values that do not replace a given variable -----

  /** What `++` behind or before a value changes: a variable, part of a structure or array, or a temporary. */
  datatype Target = Whole(name: Name) | Part | Copy

  function TargetOf(v: Value): Target {
    match v
    case Variable(n) => Whole(n)
    case Composed(_, ops) => TargetAfter(v, |ops|)
    case AssignValue(left, _, _) => TargetOf(left)
    case _ => Copy
  }

  /** The same for a composed value after its first k operations. */
  function TargetAfter(e: Value, k: nat): Target
    requires e.Composed? && k <= |e.ops|
    decreases e, 0
  {
    if k == 0 then TargetOf(e.first) else if Selects(e.ops[k - 1].op) then Part else Copy
  }

  /** Changing the target leaves variable n in place, as in `Keeps`. */
  predicate TargetKeeps(t: Target, n: Name, sized: bool) {
    match t
    case Whole(m) => m != n
    case Part => CallKeeps(n, sized)
    case Copy => true
  }

  predicate Within(p: Place, t: Target) {
    match p
    case VarPlace(m) => t == Whole(m)
    case ElemPlace(_, _) => t == Part
    case MemPlace(_, _, _) => t == Part
    case Temporary(_) => true
  }

  /** `++` finds a place within its target. */
  lemma {:induction false} ReferenceWithin(I: Interp, v: Value, st: State)
    ensures Reference(I, v, st).At? ==> Within(Reference(I, v, st).p, TargetOf(v))
    decreases v, 1
  {
    match v
    case Composed(_, ops) => ReferenceOpsWithin(I, v, |ops|, st);
    case AssignValue(left, _, _) =>
      var r := EvalAssign(I, v, st);
      if r.Ok? { ReferenceWithin(I, left, r.st); }
    case _ =>
  }

  lemma {:induction false} ReferenceOpsWithin(I: Interp, e: Value, k: nat, st: State)
    requires e.Composed? && k <= |e.ops|
    ensures ReferenceOps(I, e, k, st).At? ==> Within(ReferenceOps(I, e, k, st).p, TargetAfter(e, k))
    decreases e, 0
  {
    if k == 0 { ReferenceWithin(I, e.first, st); }
  }

  /**
   * v never replaces variable n as a whole (storing into an element of it is
   * allowed).  A call may replace a global, unless that global holds an array,
   * whose length is fixed.
   */
  predicate Keeps(v: Value, n: Name, sized: bool) {
    match v
    case Literal(_) => true
    case Variable(_) => true
    case Composed(first, ops) =>
      && Keeps(first, n, sized)
      && (forall o | o in ops :: Keeps(o.value, n, sized))
      && (forall j | 0 <= j < |ops| :: Bumps(ops[j].op) ==> TargetKeeps(TargetAfter(v, j), n, sized))
      && (forall o | o in ops :: o.op.CALL? ==> CallKeeps(n, sized))
    case FunctionCall(_, args) => CallKeeps(n, sized) && forall a | a in args :: Keeps(a, n, sized)
    case Builtin(_, arg) => Keeps(arg, n, sized)
    case AssignValue(l, op, r) =>
      && Keeps(l, n, sized) && Keeps(r, n, sized) && Root(l) != Some(n)
      && (op.SWAP? ==> Root(r) != Some(n))
      && (Root(l).None? ==> CallKeeps(n, sized))
    case Prefix(op, operand) =>
      Keeps(operand, n, sized) && (Bumps(op) ==> TargetKeeps(TargetOf(operand), n, sized))
    case Ternary(c, t, f) => Keeps(c, n, sized) && Keeps(t, n, sized) && Keeps(f, n, sized)
    case Cast(_, inner) => Keeps(inner, n, sized)
    case New(_, args) => CallKeeps(n, sized) && forall a | a in args :: Keeps(a, n, sized)
    case NewArray(_, size) => CallKeeps(n, sized) && Keeps(size, n, sized)
  }

  predicate CallKeeps(n: Name, sized: bool) { n.Global? ==> sized }

  predicate SameShape(a: Val, b: Val) {
    a == b || (a.ArrV? && b.ArrV? && |a.elems| == |b.elems|)
  }

  /** Arrays keep their length through calls and stores. */
  ghost predicate KeepsArrays(I: Interp) {
    && (forall m, vs, g ::
          I.call(m, vs, g).Some? ==> GlobalArraysKept(g, I.call(m, vs, g).value.1))
    && (forall op, b, i, v, g ::
          I.store(op, b, i, v, g).Some? ==> GlobalArraysKept(g, I.store(op, b, i, v, g).value))
  }

  predicate GlobalArraysKept(g: Globals, h: Globals) {
    forall x | x in g && g[x].ArrV? :: x in h && SameShape(g[x], h[x])
  }

  /** Variable n of st is still there in s, with the same value or, for an array, the same length. */
  predicate Kept(st: State, s: State, n: Name, sized: bool) {
    Get(st, n).Some? && (n.Global? && sized ==> Get(st, n).value.ArrV?) ==>
      Get(s, n).Some? && SameShape(Get(st, n).value, Get(s, n).value)
  }

  predicate PlaceKeeps(p: Place, n: Name, sized: bool) {
    match p
    case VarPlace(m) => m != n
    case ElemPlace(_, _) => CallKeeps(n, sized)
    case MemPlace(_, _, _) => CallKeeps(n, sized)
    case Temporary(_) => true
  }

  lemma WriteKeeps(I: Interp, p: Place, v: Val, st: State, n: Name, sized: bool)
    requires KeepsArrays(I)
    requires PlaceKeeps(p, n, sized)
    ensures Write(I, p, v, st).Ok? ==> Kept(st, Write(I, p, v, st).st, n, sized)
  {
  }

  lemma BumpKeeps(I: Interp, op: Operator, p: Place, st: State, n: Name, sized: bool)
    requires KeepsArrays(I)
    requires PlaceKeeps(p, n, sized)
    ensures Bump(I, op, p, st).Ok? ==> Kept(st, Bump(I, op, p, st).st, n, sized)
    ensures BumpAfter(I, op, p, st).Ok? ==> Kept(st, BumpAfter(I, op, p, st).st, n, sized)
  {
    var c := ReadPlace(I, p, st);
    if c.Some? {
      var w := Apply(I, if op.INC? then ADD else SUB, c.value, IntV(1), st.globals);
      if w.Some? { WriteKeeps(I, p, w.value, st, n, sized); }
    }
  }

  lemma {:induction false} RootPlace(I: Interp, left: Value, st: State)
    requires Resolve(I, left, st).At?
    ensures var p := Resolve(I, left, st).p;
      if Root(left).Some? then p == VarPlace(Root(left).value) else p.ElemPlace? || p.MemPlace?
  {
    if left.Composed? && left.ops == [] { RootPlace(I, left.first, st); }
  }

  lemma {:induction false} EvalKeeps(I: Interp, v: Value, st: State, n: Name, sized: bool)
    requires KeepsArrays(I) && Keeps(v, n, sized)
    ensures Eval(I, v, st).Ok? ==> Kept(st, Eval(I, v, st).st, n, sized)
    decreases v, 2
  {
    match v
    case Literal(_) =>
    case Variable(_) =>
    case Composed(_, ops) => OpsKeep(I, v, |ops|, st, n, sized);
    case FunctionCall(_, args) => ArgsKeep(I, args, st, n, sized);
    case Builtin(_, arg) => EvalKeeps(I, arg, st, n, sized);
    case AssignValue(left, _, _) =>
      AssignKeeps(I, v, st, n, sized);
      var r := EvalAssign(I, v, st);
      if r.Ok? { EvalKeeps(I, left, r.st, n, sized); }
    case Prefix(op, operand) =>
      EvalKeeps(I, operand, st, n, sized);
      if Bumps(op) {
        ReferenceKeeps(I, operand, st, n, sized);
        ReferenceWithin(I, operand, st);
        var p := Reference(I, operand, st);
        if p.At? { BumpKeeps(I, op, p.p, p.st, n, sized); }
      }
    case Ternary(c, t, f) =>
      EvalKeeps(I, c, st, n, sized);
      var r := Eval(I, c, st);
      if r.Ok? {
        EvalKeeps(I, t, r.st, n, sized);
        EvalKeeps(I, f, r.st, n, sized);
      }
    case Cast(_, inner) => EvalKeeps(I, inner, st, n, sized);
    case New(_, args) => ArgsKeep(I, args, st, n, sized);
    case NewArray(_, size) => EvalKeeps(I, size, st, n, sized);
  }

  lemma {:induction false} ArgsKeep(I: Interp, args: seq<Value>, st: State, n: Name, sized: bool)
    requires KeepsArrays(I) && forall a | a in args :: Keeps(a, n, sized)
    ensures EvalArgs(I, args, st).Args? ==> Kept(st, EvalArgs(I, args, st).st, n, sized)
    decreases args, 0
  {
    if args != [] {
      ArgsKeep(I, args[1..], st, n, sized);
      var r := EvalArgs(I, args[1..], st);
      if r.Args? { EvalKeeps(I, args[0], r.st, n, sized); }
    }
  }

  lemma {:induction false} OpsKeep(I: Interp, e: Value, k: nat, st: State, n: Name, sized: bool)
    requires KeepsArrays(I) && e.Composed? && k <= |e.ops| && Keeps(e, n, sized)
    ensures EvalOps(I, e, k, st).Ok? ==> Kept(st, EvalOps(I, e, k, st).st, n, sized)
    decreases e, 1, k, 0
  {
    if k == 0 {
      EvalKeeps(I, e.first, st, n, sized);
    } else if Bumps(e.ops[k - 1].op) {
      ReferenceOpsKeep(I, e, k - 1, st, n, sized);
      ReferenceOpsWithin(I, e, k - 1, st);
      var p := ReferenceOps(I, e, k - 1, st);
      if p.At? { BumpKeeps(I, e.ops[k - 1].op, p.p, p.st, n, sized); }
    } else {
      OpsKeep(I, e, k - 1, st, n, sized);
      var r := EvalOps(I, e, k - 1, st);
      if r.Ok? { StepKeeps(I, e, k - 1, r.v, r.st, n, sized); }
    }
  }

  lemma {:induction false} StepKeeps(I: Interp, e: Value, j: nat, acc: Val, st: State, n: Name, sized: bool)
    requires KeepsArrays(I) && e.Composed? && j < |e.ops| && !Bumps(e.ops[j].op) && Keeps(e, n, sized)
    ensures Step(I, e, j, acc, st).Ok? ==> Kept(st, Step(I, e, j, acc, st).st, n, sized)
    decreases e, 0
  {
    var Operation(op, value) := e.ops[j];
    assert e.ops[j] in e.ops;
    if op.CALL? {
      if value.FunctionCall? { ArgsKeep(I, value.args, st, n, sized); }
    } else {
      EvalKeeps(I, value, st, n, sized);
      if !op.AND? && !op.OR? { PlainStep(I, e, j, acc, st); }
    }
  }

  ghost predicate PlaceFinds(st: State, p: PlaceRes, n: Name, sized: bool) { p.At? ==> Kept(st, p.st, n, sized) }

  lemma {:induction false} ResolveKeeps(I: Interp, left: Value, st: State, n: Name, sized: bool)
    requires KeepsArrays(I) && Keeps(left, n, sized)
    ensures PlaceFinds(st, Resolve(I, left, st), n, sized)
    decreases left, 2
  {
    match left
    case Composed(first, ops) =>
      if ops == [] {
        ResolveKeeps(I, first, st, n, sized);
      } else if Selects(ops[|ops| - 1].op) {
        SelectedKeeps(I, left, |ops| - 1, st, n, sized);
      }
    case Prefix(_, operand) => EvalKeeps(I, operand, st, n, sized);
    case _ =>
  }

  lemma {:induction false} SelectedKeeps(I: Interp, e: Value, j: nat, st: State, n: Name, sized: bool)
    requires KeepsArrays(I) && e.Composed? && j < |e.ops| && Selects(e.ops[j].op) && Keeps(e, n, sized)
    ensures PlaceFinds(st, Selected(I, e, j, st), n, sized)
    decreases e, 1, j, 1
  {
    assert e.ops[j] in e.ops;
    OpsKeep(I, e, j, st, n, sized);
    var r := EvalOps(I, e, j, st);
    if r.Ok? { EvalKeeps(I, e.ops[j].value, r.st, n, sized); }
  }

  lemma {:induction false} ReferenceKeeps(I: Interp, v: Value, st: State, n: Name, sized: bool)
    requires KeepsArrays(I) && Keeps(v, n, sized)
    ensures PlaceFinds(st, Reference(I, v, st), n, sized)
    decreases v, 3
  {
    match v
    case Composed(_, ops) => ReferenceOpsKeep(I, v, |ops|, st, n, sized);
    case AssignValue(left, _, _) =>
      AssignKeeps(I, v, st, n, sized);
      var r := EvalAssign(I, v, st);
      if r.Ok? { ReferenceKeeps(I, left, r.st, n, sized); }
    case _ => EvalKeeps(I, v, st, n, sized);
  }

  lemma {:induction false} ReferenceOpsKeep(I: Interp, e: Value, k: nat, st: State, n: Name, sized: bool)
    requires KeepsArrays(I) && e.Composed? && k <= |e.ops| && Keeps(e, n, sized)
    ensures PlaceFinds(st, ReferenceOps(I, e, k, st), n, sized)
    decreases e, 1, k, 2
  {
    if k == 0 {
      ReferenceKeeps(I, e.first, st, n, sized);
    } else if Selects(e.ops[k - 1].op) {
      SelectedKeeps(I, e, k - 1, st, n, sized);
    } else {
      OpsKeep(I, e, k, st, n, sized);
    }
  }

  lemma {:induction false} AssignKeeps(I: Interp, a: Value, st: State, n: Name, sized: bool)
    requires KeepsArrays(I) && a.AssignValue? && Keeps(a, n, sized)
    ensures EvalAssign(I, a, st).Ok? ==> Kept(st, EvalAssign(I, a, st).st, n, sized)
    decreases a, 1
  {
    if !a.op.SWAP? {
      ResolveKeeps(I, a.left, st, n, sized);
      var p := Resolve(I, a.left, st);
      if p.At? {
        RootPlace(I, a.left, st);
        EvalKeeps(I, a.right, p.st, n, sized);
        var r := Eval(I, a.right, p.st);
        if r.Ok? {
          WriteKeeps(I, p.p, r.v, r.st, n, sized);
          if ReadPlace(I, p.p, p.st).Some? {
            var w := Apply(I, a.op, ReadPlace(I, p.p, p.st).value, r.v, r.st.globals);
            if w.Some? { WriteKeeps(I, p.p, w.value, r.st, n, sized); }
          }
        }
      }
    }
  }

  // ----- `++` and `--` behind a value -----

  /** `v++` or `v--` as parsed: one more operation of a composed value. */
  function Behind(v: Value, op: Operator): Value {
    var o := Operation(op, Literal(StrV("")));
    if v.Composed? then Composed(v.first, v.ops + [o]) else Composed(v, [o])
  }

  /** More operations behind a composed value do not change what the first k do. */
  lemma {:induction false} OpsExtend(I: Interp, e: Value, o: Operation, k: nat, st: State)
    requires e.Composed? && k <= |e.ops|
    ensures var p := Composed(e.first, e.ops + [o]);
      EvalOps(I, p, k, st) == EvalOps(I, e, k, st) && ReferenceOps(I, p, k, st) == ReferenceOps(I, e, k, st)
    decreases k
  {
    if k > 0 {
      var p := Composed(e.first, e.ops + [o]);
      assert p.ops[k - 1] == e.ops[k - 1];
      OpsExtend(I, e, o, k - 1, st);
    }
  }

  /** `v++` and `++v` do the same, and yield what v was before and after. */
  lemma PostfixMeetsPrefix(I: Interp, v: Value, op: Operator, st: State)
    requires Bumps(op)
    ensures var r, q := Eval(I, Behind(v, op), st), Eval(I, Prefix(op, v), st);
      && (r.Ok? <==> q.Ok?) && (r.Ok? ==> r.st == q.st)
      && (r.Ok? && r.v.IntV? ==> q.v == IntV(Wrap(I, if op.INC? then r.v.n + 1 else r.v.n - 1)))
  {
    var e := Behind(v, op);
    if v.Composed? { OpsExtend(I, v, e.ops[|v.ops|], |v.ops|, st); }
    assert ReferenceOps(I, e, |e.ops| - 1, st) == Reference(I, v, st);
  }

  /** `a[i]++` on an array of the program: one cell changes, and its old value comes out. */
  lemma ElementPostfix(I: Interp, n: Name, index: Value, op: Operator, st: State, next: State, cells: seq<Val>, i: int)
    requires Bumps(op) && Get(st, n).Some? && Eval(I, index, st) == Ok(IntV(i), next)
    requires Get(next, n) == Some(ArrV(cells)) && 0 <= i < |cells| && cells[i].IntV?
    ensures
      var x := if op.INC? then cells[i].n + 1 else cells[i].n - 1;
      Eval(I, Behind(Composed(Variable(n), [Operation(BRACKET, index)]), op), st) ==
        Ok(cells[i], Set(next, n, ArrV(cells[i := IntV(Wrap(I, x))])))
  {
    var v := Composed(Variable(n), [Operation(BRACKET, index)]);
    var e := Behind(v, op);
    OpsExtend(I, v, e.ops[1], 1, st);
    assert EvalOps(I, v, 0, st) == Ok(Get(st, n).value, st);
    assert ReferenceOps(I, v, 1, st) == At(ElemPlace(n, IntV(i)), next);
    assert EvalOps(I, e, 2, st) == BumpAfter(I, op, ElemPlace(n, IntV(i)), next);
    assert ReadPlace(I, ElemPlace(n, IntV(i)), next) == Some(cells[i]);
  }
}
