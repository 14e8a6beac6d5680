/** The transform pass preserves the meaning of statements. */
module Preservation {
  import opened Common
  import opened Ast
  import opened Semantics
  import opened ValueFacts
  import opened Desugar
  import opened Scoping

  // ----- states that agree outside the hidden locals -----

  predicate Agree(a: State, b: State, H: set<string>) { Mask(a, H) == Mask(b, H) }

  /** The same outcome, up to hidden locals. */
  predicate SameOutcome(o: Outcome, p: Outcome, H: set<string>) {
    match o
    case Normal(a) => p.Normal? && Agree(a, p.st, H)
    case Returned(v, a) => p.Returned? && p.v == v && Agree(a, p.st, H)
    case Fault => p.Fault?
    case OutOfFuel => p.OutOfFuel?
  }

  predicate SameRes(r: Res, q: Res, H: set<string>) { MaskRes(r, H) == MaskRes(q, H) }

  lemma EvalAgrees(I: Interp, v: Value, a: State, b: State, H: set<string>)
    requires Clear(v, H) && Agree(a, b, H)
    ensures SameRes(Eval(I, v, a), Eval(I, v, b), H)
  {
    EvalMask(I, v, a, H);
    EvalMask(I, v, b, H);
  }

  lemma GetAgrees(a: State, b: State, n: Name, H: set<string>)
    requires ClearName(n, H) && Agree(a, b, H)
    ensures Get(a, n) == Get(b, n)
  {
    assert Get(a, n) == Get(Mask(a, H), n) && Get(b, n) == Get(Mask(b, H), n);
  }

  lemma SetAgrees(a: State, b: State, n: Name, v: Val, H: set<string>)
    requires Agree(a, b, H)
    ensures Agree(Set(a, n, v), Set(b, n, v), H)
  {
    MaskSet(a, n, v, H);
    MaskSet(b, n, v, H);
  }

  lemma SetHidden(a: State, b: State, x: string, v: Val, H: set<string>)
    requires Agree(a, b, H) && x in H
    ensures Agree(a, Set(b, Local(x), v), H)
  {
    MaskSet(b, Local(x), v, H);
  }

  /** Entering the scope of x: both states hold v in it. */
  lemma Reveal(a: State, b: State, x: string, v: Val, H: set<string>)
    requires Agree(a, b, H) && Get(a, Local(x)) == Get(b, Local(x)) == Some(v)
    ensures Agree(a, b, H - {x})
  {
    assert forall y | y in a.locals - (H - {x}) :: y == x || y in Mask(a, H).locals;
    assert forall y | y in b.locals - (H - {x}) :: y == x || y in Mask(b, H).locals;
    forall y | y in a.locals - (H - {x}) ensures y in b.locals && b.locals[y] == a.locals[y] {
      if y != x { assert Mask(a, H).locals[y] == Mask(b, H).locals[y]; }
    }
    forall y | y in b.locals - (H - {x}) ensures y in a.locals {
      if y != x { assert y in Mask(a, H).locals; }
    }
    assert a.locals - (H - {x}) == b.locals - (H - {x});
  }

  /** Leaving it again. */
  lemma Conceal(a: State, b: State, x: string, H: set<string>)
    requires Agree(a, b, H - {x})
    ensures Agree(a, b, H)
  {
    var J := H - {x};
    assert (a.locals - J) - H == a.locals - H;
    assert (b.locals - J) - H == b.locals - H;
  }

  lemma ConcealOutcome(o: Outcome, p: Outcome, x: string, H: set<string>)
    requires SameOutcome(o, p, H - {x})
    ensures SameOutcome(o, p, H)
  {
    if o.Normal? || o.Returned? { Conceal(o.st, p.st, x, H); }
  }

  // ----- running lists -----

  lemma ExecOne(I: Interp, n: nat, s: Stmt, st: State)
    ensures ExecSeq(I, n, [s], st) == Exec(I, n, s, st)
  {
    var o := Exec(I, n, s, st);
    if o.Normal? { assert ExecSeq(I, n, [s][1..], o.st) == o; }
  }

  /** What runs after a list that ends normally. */
  function Then(I: Interp, n: nat, o: Outcome, ss: seq<Stmt>): Outcome {
    if o.Normal? then ExecSeq(I, n, ss, o.st) else o
  }

  lemma {:induction false} ExecConcat(I: Interp, n: nat, a: seq<Stmt>, b: seq<Stmt>, st: State)
    ensures ExecSeq(I, n, a + b, st) == Then(I, n, ExecSeq(I, n, a, st), b)
    decreases |a|
  {
    if a == [] {
      assert a + b == b;
    } else {
      assert (a + b)[0] == a[0] && (a + b)[1..] == a[1..] + b;
      var o := Exec(I, n, a[0], st);
      if o.Normal? { ExecConcat(I, n, a[1..], b, o.st); }
    }
  }

  lemma ExecOptSeq(I: Interp, n: nat, s: Option<Stmt>, st: State)
    ensures ExecSeq(I, n, OptSeq(s), st) == ExecOpt(I, n, s, st)
  {
    if s.Some? { ExecOne(I, n, s.value, st); }
  }

  lemma ExecPair(I: Interp, n: nat, s: Stmt, t: Stmt, st: State)
    ensures ExecSeq(I, n, [s, t], st) == Then(I, n, Exec(I, n, s, st), [t])
  {
    assert [s, t] == [s] + [t];
    ExecConcat(I, n, [s], [t], st);
    ExecOne(I, n, s, st);
  }

  /** `if(c) s` for a single statement s. */
  lemma ExecIfOne(I: Interp, n: nat, c: Value, body: seq<Stmt>, st: State)
    ensures Exec(I, n, If([Arm(c, body)], Absent), st) ==
      var r := Eval(I, c, st);
      if !r.Ok? || !r.v.BoolV? then Fault else if r.v.b then ExecSeq(I, n, body, r.st) else Normal(r.st)
  {
    var s := If([Arm(c, body)], Absent);
    var r := Eval(I, c, st);
    if r.Ok? && r.v == BoolV(false) { assert ExecArms(I, n, s, 1, r.st) == Normal(r.st); }
  }

  lemma ExecGuarded(I: Interp, n: nat, c: Value, body: seq<Stmt>, st: State)
    ensures Exec(I, n, Guarded(c, body), st) ==
      var r := Eval(I, c, st);
      if !r.Ok? || !r.v.BoolV? then Fault else if r.v.b then Exec(I, n, DoWhile(body, c), r.st) else Normal(r.st)
  {
    ExecIfOne(I, n, c, [DoWhile(body, c)], st);
    var r := Eval(I, c, st);
    if r.Ok? && r.v == BoolV(true) { ExecOne(I, n, DoWhile(body, c), r.st); }
  }

  lemma EvalBinary(I: Interp, a: Value, op: Operator, b: Value, st: State)
    requires !op.AND? && !op.OR? && !op.CALL? && !Bumps(op)
    ensures Eval(I, Binary(a, op, b), st) ==
      var r := Eval(I, a, st);
      if r.Stuck? then Stuck else
      var q := Eval(I, b, r.st);
      if q.Stuck? then Stuck else OfOption(Apply(I, op, r.v, q.v, q.st.globals), q.st)
  {
    var e := Binary(a, op, b);
    assert EvalOps(I, e, 0, st) == Eval(I, a, st);
    var r := Eval(I, a, st);
    if r.Ok? { PlainStep(I, e, 0, r.v, r.st); }
  }

  lemma ExecIncrement(I: Interp, n: nat, x: string, k: int, st: State)
    requires Get(st, Local(x)) == Some(IntV(k))
    ensures Exec(I, n, Increment(x), st) == Normal(Set(st, Local(x), IntV(Wrap(I, k + 1))))
  {
    EvalBinary(I, LocalVar(x), ADD, Int(1), st);
    assert Eval(I, LocalVar(x), st) == Ok(IntV(k), st);
    assert Apply(I, ADD, IntV(k), IntV(1), st.globals) == Some(IntV(Wrap(I, k + 1)));
    ExecAssignLocal(I, n, x, Binary(LocalVar(x), ADD, Int(1)), st);
  }

  lemma ExecAssignLocal(I: Interp, n: nat, x: string, v: Value, st: State)
    ensures Exec(I, n, Assignment(LocalVar(x), ASSIGN, v), st) ==
      var r := Eval(I, v, st);
      if r.Ok? then Normal(Set(r.st, Local(x), r.v)) else Fault
  {
    assert Resolve(I, LocalVar(x), st) == At(VarPlace(Local(x)), st);
  }

  // ----- statements without statements inside -----

  lemma ArgsAgree(I: Interp, vs: seq<Value>, a: State, b: State, H: set<string>)
    requires (forall v | v in vs :: Clear(v, H)) && Agree(a, b, H)
    ensures MaskArgs(EvalArgs(I, vs, a), H) == MaskArgs(EvalArgs(I, vs, b), H)
  {
    ArgsMask(I, vs, a, H);
    ArgsMask(I, vs, b, H);
  }

  lemma SimpleSame(I: Interp, n: nat, s: Stmt, H: set<string>, a: State, b: State)
    requires Simple(s) && Fit(I, s, H) && Agree(a, b, H)
    ensures SameOutcome(Exec(I, n, s, a), Exec(I, n, s, b), H)
  {
    match s
    case ValueStmt(v) => EvalAgrees(I, v, a, b, H);
    case VariableDeclaration(x, init) =>
      if init.Some? {
        EvalAgrees(I, init.value, a, b, H);
        var r, q := Eval(I, init.value, a), Eval(I, init.value, b);
        if r.Ok? { SetAgrees(r.st, q.st, Local(x), r.v, H); }
      }
    case StructDeclaration(x, ctor, vs) =>
      ArgsAgree(I, vs, a, b, H);
      var r, q := EvalArgs(I, vs, a), EvalArgs(I, vs, b);
      if r.Args? {
        assert r.st.globals == q.st.globals;
        var r1, q1 := OfCall(I.call(ctor, r.vs, r.st.globals), r.st), OfCall(I.call(ctor, q.vs, q.st.globals), q.st);
        if r1.Ok? { SetAgrees(r1.st, q1.st, Local(x), r1.v, H); }
      }
    case ArrayDeclaration(x, size) =>
      EvalAgrees(I, size, a, b, H);
      var r, q := Eval(I, size, a), Eval(I, size, b);
      if r.Ok? && r.v.IntV? && r.v.n >= 0 { SetAgrees(r.st, q.st, Local(x), ArrV(seq(r.v.n, _ => IntV(0))), H); }
    case Assignment(l, op, r) =>
      AssignMask(I, AssignValue(l, op, r), a, H);
      AssignMask(I, AssignValue(l, op, r), b, H);
    case Return(v) => EvalAgrees(I, v, a, b, H);
    case Delete(v) => EvalAgrees(I, v, a, b, H);
  }

  /** `left op= right` and its expansion do the same when finding the place of `left` has no side effect here. */
  lemma CompoundSame(I: Interp, n: nat, s: Stmt, st: State)
    requires IsCompound(s) && Compound(s.op) && QuietPlaceAt(I, s.left, st)
    ensures Exec(I, n, Lowered(s), st) == Exec(I, n, s, st)
  {
    var p := Resolve(I, s.left, st);
    if p.At? {
      QuietPlaceIsRead(I, s.left, st);
      EvalBinary(I, s.left, s.op, s.right, st);
    }
  }

  // ----- the theorem, fuel by fuel -----

  /** With the same fuel, a statement and its lowered form have the same outcome. */
  lemma {:induction false} SameStmt(I: Interp, n: nat, s: Stmt, H: set<string>, a: State, b: State)
    requires World(I) && Fit(I, s, H) && Agree(a, b, H)
    ensures SameOutcome(Exec(I, n, s, a), Exec(I, n, Lowered(s), b), H)
    decreases n, s, 3
  {
    if Simple(s) {
      SimpleSame(I, n, s, H, a, b);
      if IsCompound(s) {
        assert QuietPlaceAt(I, s.left, b);
        CompoundSame(I, n, s, b);
      }
    } else {
      match s
      case If(_, _) => ArmsSame(I, n, s, 0, H, a, b);
      case Scope(body) => SameSeq(I, n, body, H, a, b);
      case DoWhile(_, _) => DoWhileSame(I, n, s, H, a, b);
      case While(_, _) => WhileSame(I, n, s, H, a, b);
      case For(_, _, _, _) => ForSame(I, n, s, H, a, b);
      case Foreach(_, _, _, _) => ForeachSame(I, n, s, H, a, b);
      case ForeachIn(_, _, _, _, _) => ForeachInSame(I, n, s, H, a, b);
      case Switch(_, _, _, _) => SwitchSame(I, n, s, H, a, b);
    }
  }

  lemma {:induction false} SameSeq(I: Interp, n: nat, ss: seq<Stmt>, H: set<string>, a: State, b: State)
    requires World(I) && FitIn(I, ss, H) && Agree(a, b, H)
    ensures SameOutcome(ExecSeq(I, n, ss, a), ExecSeq(I, n, LoweredSeq(ss), b), H)
    decreases n, ss, 0
  {
    if ss != [] {
      SameStmt(I, n, ss[0], H, a, b);
      var o, p := Exec(I, n, ss[0], a), Exec(I, n, Lowered(ss[0]), b);
      assert LoweredSeq(ss)[1..] == LoweredSeq(ss[1..]);
      if o.Normal? { SameSeq(I, n, ss[1..], H, o.st, p.st); }
    }
  }

  lemma {:induction false} SameOpt(I: Interp, n: nat, s: Option<Stmt>, H: set<string>, a: State, b: State)
    requires World(I) && (s.Some? ==> Fit(I, s.value, H)) && Agree(a, b, H)
    ensures SameOutcome(ExecOpt(I, n, s, a), ExecOpt(I, n, LoweredOpt(s), b), H)
    decreases n, s, 0
  {
    if s.Some? { SameStmt(I, n, s.value, H, a, b); }
  }

  lemma {:induction false} SameBlock(I: Interp, n: nat, e: Otherwise, H: set<string>, a: State, b: State)
    requires World(I) && FitElse(I, e, H) && Agree(a, b, H)
    ensures SameOutcome(ExecBlock(I, n, e, a), ExecBlock(I, n, LoweredElse(e), b), H)
    decreases n, e, 0
  {
    if e.Present? { SameSeq(I, n, e.body, H, a, b); }
  }

  lemma {:induction false} ArmsSame(I: Interp, n: nat, s: Stmt, k: nat, H: set<string>, a: State, b: State)
    requires World(I) && s.If? && k <= |s.arms| && Fit(I, s, H) && Agree(a, b, H)
    ensures SameOutcome(ExecArms(I, n, s, k, a), ExecArms(I, n, Lowered(s), k, b), H)
    decreases n, s, 2, |s.arms| - k
  {
    if k == |s.arms| {
      SameBlock(I, n, s.otherwise, H, a, b);
    } else {
      assert s.arms[k] in s.arms;
      EvalAgrees(I, s.arms[k].cond, a, b, H);
      var r, q := Eval(I, s.arms[k].cond, a), Eval(I, s.arms[k].cond, b);
      if r.Ok? {
        SameSeq(I, n, s.arms[k].body, H, r.st, q.st);
        ArmsSame(I, n, s, k + 1, H, r.st, q.st);
      }
    }
  }

  lemma {:induction false} DoWhileSame(I: Interp, n: nat, s: Stmt, H: set<string>, a: State, b: State)
    requires World(I) && s.DoWhile? && Fit(I, s, H) && Agree(a, b, H)
    ensures SameOutcome(Exec(I, n, s, a), Exec(I, n, Lowered(s), b), H)
    decreases n, s, 2
  {
    if n > 0 {
      SameSeq(I, n, s.body, H, a, b);
      var o, p := ExecSeq(I, n, s.body, a), ExecSeq(I, n, LoweredSeq(s.body), b);
      if o.Normal? {
        EvalAgrees(I, s.cond, o.st, p.st, H);
        var r, q := Eval(I, s.cond, o.st), Eval(I, s.cond, p.st);
        if r.Ok? { SameStmt(I, n - 1, s, H, r.st, q.st); }
      }
    }
  }

  /** A `do while` runs its body, then the guarded loop. */
  lemma DoWhileUnrolled(I: Interp, n: nat, body: seq<Stmt>, c: Value, st: State)
    requires n > 0
    ensures Exec(I, n, DoWhile(body, c), st) ==
      var o := ExecSeq(I, n, body, st);
      if o.Normal? then Exec(I, n - 1, Guarded(c, body), o.st) else o
  {
    var o := ExecSeq(I, n, body, st);
    if o.Normal? { ExecGuarded(I, n - 1, c, body, o.st); }
  }

  lemma {:induction false} WhileSame(I: Interp, n: nat, s: Stmt, H: set<string>, a: State, b: State)
    requires World(I) && s.While? && Fit(I, s, H) && Agree(a, b, H)
    ensures SameOutcome(Exec(I, n, s, a), Exec(I, n, Lowered(s), b), H)
    decreases n, s, 2
  {
    var body := LoweredSeq(s.body);
    ExecGuarded(I, n, s.cond, body, b);
    EvalAgrees(I, s.cond, a, b, H);
    var r, q := Eval(I, s.cond, a), Eval(I, s.cond, b);
    if r.Ok? && r.v == BoolV(true) && n > 0 {
      DoWhileUnrolled(I, n, body, s.cond, q.st);
      SameSeq(I, n, s.body, H, r.st, q.st);
      var o, p := ExecSeq(I, n, s.body, r.st), ExecSeq(I, n, body, q.st);
      if o.Normal? { SameStmt(I, n - 1, s, H, o.st, p.st); }
    }
  }

  /** The loop a `for` becomes, without its start. */
  function LoweredLoop(s: Stmt): Stmt
    requires s.For?
  {
    var full := LoweredSeq(s.body) + OptSeq(LoweredOpt(s.repeat));
    if s.condition.Some? then Guarded(s.condition.value, full) else DoWhile(full, Literal(BoolV(true)))
  }

  lemma {:induction false} ForSame(I: Interp, n: nat, s: Stmt, H: set<string>, a: State, b: State)
    requires World(I) && s.For? && Fit(I, s, H) && Agree(a, b, H)
    ensures SameOutcome(Exec(I, n, s, a), Exec(I, n, Lowered(s), b), H)
    decreases n, s, 2
  {
    SameOpt(I, n, s.start, H, a, b);
    var o, p := ExecOpt(I, n, s.start, a), ExecOpt(I, n, LoweredOpt(s.start), b);
    if s.start.Some? {
      ExecPair(I, n, Lowered(s.start.value), LoweredLoop(s), b);
      if p.Normal? { ExecOne(I, n, LoweredLoop(s), p.st); }
    }
    if o.Normal? { ForLoopSame(I, n, s, H, o.st, p.st); }
  }

  lemma {:induction false} ForLoopSame(I: Interp, n: nat, s: Stmt, H: set<string>, a: State, b: State)
    requires World(I) && s.For? && Fit(I, s, H) && Agree(a, b, H)
    ensures SameOutcome(ForLoop(I, n, s, a), Exec(I, n, LoweredLoop(s), b), H)
    decreases n, s, 1
  {
    var full := LoweredSeq(s.body) + OptSeq(LoweredOpt(s.repeat));
    var c := if s.condition.Some? then s.condition.value else Literal(BoolV(true));
    EvalAgrees(I, c, a, b, H);
    ExecGuarded(I, n, c, full, b);
    var r, q := Eval(I, c, a), Eval(I, c, b);
    if r.Ok? && r.v == BoolV(true) && n > 0 {
      DoWhileUnrolled(I, n, full, c, q.st);
      SameSeq(I, n, s.body, H, r.st, q.st);
      ExecConcat(I, n, LoweredSeq(s.body), OptSeq(LoweredOpt(s.repeat)), q.st);
      var o, p := ExecSeq(I, n, s.body, r.st), ExecSeq(I, n, LoweredSeq(s.body), q.st);
      if o.Normal? {
        ExecOptSeq(I, n, LoweredOpt(s.repeat), p.st);
        SameOpt(I, n, s.repeat, H, o.st, p.st);
        var o1, p1 := ExecOpt(I, n, s.repeat, o.st), ExecOpt(I, n, LoweredOpt(s.repeat), p.st);
        if o1.Normal? {
          ForLoopSame(I, n - 1, s, H, o1.st, p1.st);
          if s.condition.None? { ExecGuarded(I, n - 1, c, full, p1.st); }
        }
      }
    }
  }

  // ----- foreach -----

  /** One round of the lowered loop. */
  lemma ExecDo(I: Interp, n: nat, body: seq<Stmt>, c: Value, st: State, next: State, again: bool)
    requires n > 0 && ExecSeq(I, n, body, st) == Normal(next) && Eval(I, c, next) == Ok(BoolV(again), next)
    ensures Exec(I, n, DoWhile(body, c), st) ==
      if again then Exec(I, n - 1, DoWhile(body, c), next) else Normal(next)
  {
  }

  function ForeachTest(s: Stmt): Value
    requires s.Foreach?
  {
    Binary(LocalVar(s.name), LESS_EQUALS, Int(s.to))
  }

  lemma EvalForeachTest(I: Interp, s: Stmt, k: int, st: State)
    requires s.Foreach? && Get(st, Local(s.name)) == Some(IntV(k))
    ensures Eval(I, ForeachTest(s), st) == Ok(BoolV(k <= s.to), st)
  {
    EvalBinary(I, LocalVar(s.name), LESS_EQUALS, Int(s.to), st);
    assert Eval(I, LocalVar(s.name), st) == Ok(IntV(k), st);
  }

  lemma {:induction false} ForeachSame(I: Interp, n: nat, s: Stmt, H: set<string>, a: State, b: State)
    requires World(I) && s.Foreach? && Fit(I, s, H) && Agree(a, b, H)
    ensures SameOutcome(Exec(I, n, s, a), Exec(I, n, Lowered(s), b), H)
    decreases n, s, 2
  {
    var x := s.name;
    var loop := DoWhile(LoweredSeq(s.body) + [Increment(x)], ForeachTest(s));
    var init := Assignment(LocalVar(x), ASSIGN, Int(s.from));
    var test := Binary(Int(s.from), LESS_EQUALS, Int(s.to));
    EvalBinary(I, Int(s.from), LESS_EQUALS, Int(s.to), b);
    assert Eval(I, test, b) == Ok(BoolV(s.from <= s.to), b);
    ExecIfOne(I, n, test, [init, loop], b);
    if s.from <= s.to {
      var b1 := Set(b, Local(x), IntV(s.from));
      ExecPair(I, n, init, loop, b);
      ExecAssignLocal(I, n, x, Int(s.from), b);
      ExecOne(I, n, loop, b1);
      SetHidden(a, b, x, IntV(s.from), H);
      ForeachLoopSame(I, n, s, H, s.from, a, b1);
    }
  }

  lemma ForeachLoopStep(I: Interp, n: nat, s: Stmt, k: int, st: State)
    requires n > 0 && s.Foreach? && k <= s.to
    ensures ForeachLoop(I, n, s, k, st) ==
      var o := ExecSeq(I, n, s.body, Set(st, Local(s.name), IntV(k)));
      if o.Normal? then ForeachLoop(I, n - 1, s, k + 1, o.st) else o
  {
  }

  /** The k-th round of a foreach, on both sides: the variable holds k in the lowered code. */
  lemma {:induction false} ForeachRoundSame(I: Interp, n: nat, s: Stmt, H: set<string>, k: int, a: State, b: State)
    requires World(I) && s.Foreach? && Fit(I, s, H) && Agree(a, b, H)
    requires s.from <= k <= s.to && Get(b, Local(s.name)) == Some(IntV(k))
    ensures
      var o := ExecSeq(I, n, s.body, Set(a, Local(s.name), IntV(k)));
      var q := ExecSeq(I, n, LoweredSeq(s.body) + [Increment(s.name)], b);
      && SameOutcome(o, q, H)
      && (o.Normal? ==>
            && Get(q.st, Local(s.name)) == Some(IntV(k + 1))
            && Eval(I, ForeachTest(s), q.st) == Ok(BoolV(k + 1 <= s.to), q.st))
    decreases n, s, 0
  {
    var x := s.name;
    var a1 := Set(a, Local(x), IntV(k));
    MaskSet(a, Local(x), IntV(k), H);
    Reveal(a1, b, x, IntV(k), H);
    SameSeq(I, n, s.body, H - {x}, a1, b);
    ExecConcat(I, n, LoweredSeq(s.body), [Increment(x)], b);
    var o, p := ExecSeq(I, n, s.body, a1), ExecSeq(I, n, LoweredSeq(s.body), b);
    ConcealOutcome(o, p, x, H);
    if o.Normal? {
      SeqKeeps(I, n, s.body, a1, Local(x), false);
      ForeachNextRound(I, n, s, H, k, o.st, p.st);
      ExecOne(I, n, Increment(x), p.st);
    }
  }

  lemma {:induction false} ForeachLoopSame(I: Interp, n: nat, s: Stmt, H: set<string>, k: int, a: State, b: State)
    requires World(I) && s.Foreach? && Fit(I, s, H) && Agree(a, b, H)
    requires s.from <= k <= s.to && Get(b, Local(s.name)) == Some(IntV(k))
    ensures SameOutcome(ForeachLoop(I, n, s, k, a),
                        Exec(I, n, DoWhile(LoweredSeq(s.body) + [Increment(s.name)], ForeachTest(s)), b), H)
    decreases n, s, 1
  {
    if n > 0 {
      ForeachLoopStep(I, n, s, k, a);
      ForeachRoundSame(I, n, s, H, k, a, b);
      var o := ExecSeq(I, n, s.body, Set(a, Local(s.name), IntV(k)));
      var body := LoweredSeq(s.body) + [Increment(s.name)];
      var q := ExecSeq(I, n, body, b);
      if o.Normal? {
        ExecDo(I, n, body, ForeachTest(s), b, q.st, k + 1 <= s.to);
        if k + 1 <= s.to { ForeachLoopSame(I, n - 1, s, H, k + 1, o.st, q.st); }
      }
    }
  }

  /** After a round: the variable is incremented and tested. */
  lemma ForeachNextRound(I: Interp, n: nat, s: Stmt, H: set<string>, k: int, a: State, b: State)
    requires s.Foreach? && s.name in H && Agree(a, b, H - {s.name})
    requires Get(a, Local(s.name)) == Some(IntV(k)) && InRange(I, k + 1)
    ensures var b1 := Set(b, Local(s.name), IntV(k + 1));
      && Agree(a, b1, H) && Exec(I, n, Increment(s.name), b) == Normal(b1)
      && Eval(I, ForeachTest(s), b1) == Ok(BoolV(k + 1 <= s.to), b1)
  {
    GetAgrees(a, b, Local(s.name), H - {s.name});
    Conceal(a, b, s.name, H);
    SetHidden(a, b, s.name, IntV(k + 1), H);
    ExecIncrement(I, n, s.name, k, b);
    EvalForeachTest(I, s, k + 1, Set(b, Local(s.name), IntV(k + 1)));
  }

  // ----- foreach in -----

  function Kind(s: Stmt): BuiltinKind
    requires s.ForeachIn?
  {
    if s.isArray then SIZE else LENGTH
  }

  lemma EvalForeachInTest(I: Interp, s: Stmt, k: int, len: int, st: State)
    requires s.ForeachIn? && Get(st, Local(s.iter)) == Some(IntV(k))
    requires Get(st, s.arr).Some? && SizeOf(I, Kind(s), Get(st, s.arr).value) == Some(IntV(len))
    ensures Eval(I, ForeachCondition(s.iter, s.arr, s.isArray), st) == Ok(BoolV(k < len), st)
  {
    EvalBinary(I, LocalVar(s.iter), LESS, Builtin(Kind(s), Variable(s.arr)), st);
    assert Eval(I, LocalVar(s.iter), st) == Ok(IntV(k), st);
    assert Eval(I, Builtin(Kind(s), Variable(s.arr)), st) == Ok(IntV(len), st);
  }

  lemma EvalSize(I: Interp, s: Stmt, st: State)
    requires s.ForeachIn?
    ensures Eval(I, Builtin(Kind(s), Variable(s.arr)), st) ==
      if Get(st, s.arr).Some? then OfOption(SizeOf(I, Kind(s), Get(st, s.arr).value), st) else Stuck
  {
  }

  lemma SizeIsInt(I: Interp, kind: BuiltinKind, v: Val)
    ensures SizeOf(I, kind, v).Some? ==> SizeOf(I, kind, v).value.IntV? && 0 <= SizeOf(I, kind, v).value.n <= I.max
  {
  }

  /** The lowered loop sets the hidden index and goes on with a guarded loop. */
  lemma ForeachInUnfolds(I: Interp, n: nat, s: Stmt, st: State)
    requires s.ForeachIn?
    ensures Exec(I, n, Lowered(s), st) ==
      Exec(I, n, Guarded(ForeachCondition(s.iter, s.arr, s.isArray), ForeachInBody(s, LoweredSeq(s.body))),
           Set(st, Local(s.iter), IntV(0)))
  {
    var loop := Guarded(ForeachCondition(s.iter, s.arr, s.isArray), ForeachInBody(s, LoweredSeq(s.body)));
    ExecPair(I, n, Assignment(LocalVar(s.iter), ASSIGN, Int(0)), loop, st);
    ExecAssignLocal(I, n, s.iter, Int(0), st);
    ExecOne(I, n, loop, Set(st, Local(s.iter), IntV(0)));
  }

  /** Without a size neither form gets anywhere. */
  lemma ForeachInStuck(I: Interp, n: nat, s: Stmt, a: State, b: State)
    requires s.ForeachIn? && Eval(I, Builtin(Kind(s), Variable(s.arr)), a).Stuck?
    requires Eval(I, Builtin(Kind(s), Variable(s.arr)), Set(b, Local(s.iter), IntV(0))).Stuck?
    ensures Exec(I, n, s, a) == Fault && Exec(I, n, Lowered(s), b) == Fault
  {
    var b1 := Set(b, Local(s.iter), IntV(0));
    ForeachInUnfolds(I, n, s, b);
    EvalBinary(I, LocalVar(s.iter), LESS, Builtin(Kind(s), Variable(s.arr)), b1);
    assert Eval(I, LocalVar(s.iter), b1) == Ok(IntV(0), b1);
    ExecGuarded(I, n, ForeachCondition(s.iter, s.arr, s.isArray), ForeachInBody(s, LoweredSeq(s.body)), b1);
  }

  lemma {:induction false} ForeachInSame(I: Interp, n: nat, s: Stmt, H: set<string>, a: State, b: State)
    requires World(I) && s.ForeachIn? && Fit(I, s, H) && Agree(a, b, H)
    ensures SameOutcome(Exec(I, n, s, a), Exec(I, n, Lowered(s), b), H)
    decreases n, s, 2
  {
    var b1 := Set(b, Local(s.iter), IntV(0));
    SetHidden(a, b, s.iter, IntV(0), H);
    GetAgrees(a, b1, s.arr, H);
    EvalSize(I, s, a);
    EvalSize(I, s, b1);
    if Get(a, s.arr).None? || SizeOf(I, Kind(s), Get(a, s.arr).value).None? {
      ForeachInStuck(I, n, s, a, b);
    } else {
      SizeIsInt(I, Kind(s), Get(a, s.arr).value);
      var len := SizeOf(I, Kind(s), Get(a, s.arr).value).value.n;
      ForeachInUnfolds(I, n, s, b);
      ExecGuarded(I, n, ForeachCondition(s.iter, s.arr, s.isArray), ForeachInBody(s, LoweredSeq(s.body)), b1);
      EvalForeachInTest(I, s, 0, len, b1);
      assert Exec(I, n, s, a) == ForeachInLoop(I, n, s, 0, len, a);
      if 0 < len {
        ForeachInLoopSame(I, n, s, H, 0, len, a, b1);
      } else {
        assert Exec(I, n, Lowered(s), b) == Normal(b1);
      }
    }
  }

  /** The element the k-th round reads. */
  lemma ElementAt(I: Interp, s: Stmt, k: nat, len: int, st: State)
    requires s.ForeachIn? && k < len
    requires Get(st, s.arr).Some? && SizeOf(I, Kind(s), Get(st, s.arr).value) == Some(IntV(len))
    ensures Apply(I, BRACKET, Get(st, s.arr).value, IntV(k), st.globals).Some?
  {
  }

  lemma ExecElementDeclaration(I: Interp, n: nat, s: Stmt, k: nat, v: Val, st: State)
    requires s.ForeachIn? && Get(st, Local(s.iter)) == Some(IntV(k)) && Get(st, s.arr).Some?
    requires Apply(I, BRACKET, Get(st, s.arr).value, IntV(k), st.globals) == Some(v)
    ensures Exec(I, n, ForeachInBody(s, [])[0], st) == Normal(Set(st, Local(s.name), v))
  {
    EvalBinary(I, Variable(s.arr), BRACKET, LocalVar(s.iter), st);
    assert Eval(I, Variable(s.arr), st) == Ok(Get(st, s.arr).value, st);
    assert Eval(I, LocalVar(s.iter), st) == Ok(IntV(k), st);
  }

  function ForeachInDo(s: Stmt): Stmt
    requires s.ForeachIn?
  {
    DoWhile(ForeachInBody(s, LoweredSeq(s.body)), ForeachCondition(s.iter, s.arr, s.isArray))
  }

  /** The lowered body: the declaration, the body, the increment. */
  lemma ExecForeachInBody(I: Interp, n: nat, s: Stmt, k: nat, v: Val, b: State)
    requires s.ForeachIn? && Get(b, Local(s.iter)) == Some(IntV(k)) && Get(b, s.arr).Some?
    requires Apply(I, BRACKET, Get(b, s.arr).value, IntV(k), b.globals) == Some(v)
    ensures var p := ExecSeq(I, n, LoweredSeq(s.body), Set(b, Local(s.name), v));
      ExecSeq(I, n, ForeachInBody(s, LoweredSeq(s.body)), b) ==
      if !p.Normal? then p else Exec(I, n, Increment(s.iter), p.st)
  {
    var body, decl, incr := LoweredSeq(s.body), ForeachInBody(s, [])[0], Increment(s.iter);
    ExecElementDeclaration(I, n, s, k, v, b);
    assert ForeachInBody(s, body) == [decl] + (body + [incr]);
    ExecConcat(I, n, [decl], body + [incr], b);
    ExecOne(I, n, decl, b);
    var b1 := Set(b, Local(s.name), v);
    ExecConcat(I, n, body, [incr], b1);
    var p := ExecSeq(I, n, body, b1);
    if p.Normal? { ExecOne(I, n, incr, p.st); }
  }

  lemma ForeachInLoopStep(I: Interp, n: nat, s: Stmt, k: nat, len: int, v: Val, st: State)
    requires n > 0 && s.ForeachIn? && k < len && Get(st, s.arr).Some?
    requires Apply(I, BRACKET, Get(st, s.arr).value, IntV(k), st.globals) == Some(v)
    ensures ForeachInLoop(I, n, s, k, len, st) ==
      var o := ExecSeq(I, n, s.body, Set(st, Local(s.name), v));
      if o.Normal? then ForeachInLoop(I, n - 1, s, k + 1, len, o.st) else o
  {
  }

  /** The k-th round, on both sides. */
  lemma {:induction false} ForeachInRoundSame(
    I: Interp, n: nat, s: Stmt, H: set<string>, k: nat, len: int, v: Val, a: State, b: State)
    requires World(I) && s.ForeachIn? && Fit(I, s, H) && Agree(a, b, H)
    requires k < len && Get(b, Local(s.iter)) == Some(IntV(k))
    requires Get(a, s.arr).Some? && SizeOf(I, Kind(s), Get(a, s.arr).value) == Some(IntV(len))
    requires Apply(I, BRACKET, Get(a, s.arr).value, IntV(k), a.globals) == Some(v)
    ensures
      var o := ExecSeq(I, n, s.body, Set(a, Local(s.name), v));
      var q := ExecSeq(I, n, ForeachInBody(s, LoweredSeq(s.body)), b);
      && SameOutcome(o, q, H)
      && (o.Normal? ==>
            && Get(o.st, s.arr).Some? && SizeOf(I, Kind(s), Get(o.st, s.arr).value) == Some(IntV(len))
            && Get(q.st, Local(s.iter)) == Some(IntV(k + 1))
            && Eval(I, ForeachCondition(s.iter, s.arr, s.isArray), q.st) == Ok(BoolV(k + 1 < len), q.st))
    decreases n, s, 0
  {
    var x := s.name;
    GetAgrees(a, b, s.arr, H);
    var a1, b1 := Set(a, Local(x), v), Set(b, Local(x), v);
    ExecForeachInBody(I, n, s, k, v, b);
    SetAgrees(a, b, Local(x), v, H);
    Reveal(a1, b1, x, v, H);
    SameSeq(I, n, s.body, H - {x}, a1, b1);
    var o, p := ExecSeq(I, n, s.body, a1), ExecSeq(I, n, LoweredSeq(s.body), b1);
    ConcealOutcome(o, p, x, H);
    if o.Normal? { ForeachInAfterRound(I, n, s, H, k, len, a1, b1); }
  }

  lemma {:induction false} ForeachInLoopSame(
    I: Interp, n: nat, s: Stmt, H: set<string>, k: nat, len: int, a: State, b: State)
    requires World(I) && s.ForeachIn? && Fit(I, s, H) && Agree(a, b, H)
    requires k < len && Get(b, Local(s.iter)) == Some(IntV(k))
    requires Get(a, s.arr).Some? && SizeOf(I, Kind(s), Get(a, s.arr).value) == Some(IntV(len))
    ensures SameOutcome(ForeachInLoop(I, n, s, k, len, a), Exec(I, n, ForeachInDo(s), b), H)
    decreases n, s, 1
  {
    if n > 0 {
      ElementAt(I, s, k, len, a);
      var v := Apply(I, BRACKET, Get(a, s.arr).value, IntV(k), a.globals).value;
      ForeachInLoopStep(I, n, s, k, len, v, a);
      ForeachInRoundSame(I, n, s, H, k, len, v, a, b);
      var o := ExecSeq(I, n, s.body, Set(a, Local(s.name), v));
      var body, c := ForeachInBody(s, LoweredSeq(s.body)), ForeachCondition(s.iter, s.arr, s.isArray);
      var q := ExecSeq(I, n, body, b);
      if o.Normal? {
        ExecDo(I, n, body, c, b, q.st, k + 1 < len);
        if k + 1 < len { ForeachInLoopSame(I, n - 1, s, H, k + 1, len, o.st, q.st); }
      }
    }
  }

  /** After a round: the iterator is incremented and tested. */
  lemma ForeachInNextRound(I: Interp, n: nat, s: Stmt, H: set<string>, k: nat, len: int, a: State, b: State)
    requires s.ForeachIn? && k < len && Fit(I, s, H) && Agree(a, b, H) && Get(b, Local(s.iter)) == Some(IntV(k))
    requires Get(a, s.arr).Some? && SizeOf(I, Kind(s), Get(a, s.arr).value) == Some(IntV(len))
    ensures var b2 := Set(b, Local(s.iter), IntV(k + 1));
      && Exec(I, n, Increment(s.iter), b) == Normal(b2)
      && Eval(I, ForeachCondition(s.iter, s.arr, s.isArray), b2) == Ok(BoolV(k + 1 < len), b2)
  {
    GetAgrees(a, b, s.arr, H);
    ExecIncrement(I, n, s.iter, k, b);
    EvalForeachInTest(I, s, k + 1, len, Set(b, Local(s.iter), IntV(k + 1)));
  }

  /** Both together, after the bodies of a round. */
  lemma ForeachInAfterRound(I: Interp, n: nat, s: Stmt, H: set<string>, k: nat, len: int, a: State, b: State)
    requires World(I) && s.ForeachIn? && k < len && Fit(I, s, H)
    requires Get(b, Local(s.iter)) == Some(IntV(k))
    requires Get(a, s.arr).Some? && SizeOf(I, Kind(s), Get(a, s.arr).value) == Some(IntV(len))
    requires ExecSeq(I, n, s.body, a).Normal?
    requires SameOutcome(ExecSeq(I, n, s.body, a), ExecSeq(I, n, LoweredSeq(s.body), b), H)
    ensures
      var a1, b1 := ExecSeq(I, n, s.body, a).st, ExecSeq(I, n, LoweredSeq(s.body), b).st;
      var b2 := Set(b1, Local(s.iter), IntV(k + 1));
      && Get(a1, s.arr).Some? && SizeOf(I, Kind(s), Get(a1, s.arr).value) == Some(IntV(len)) && Agree(a1, b2, H)
      && Exec(I, n, Increment(s.iter), b1) == Normal(b2)
      && Eval(I, ForeachCondition(s.iter, s.arr, s.isArray), b2) == Ok(BoolV(k + 1 < len), b2)
  {
    var a1, b1 := ExecSeq(I, n, s.body, a).st, ExecSeq(I, n, LoweredSeq(s.body), b).st;
    ForeachInRoundKeeps(I, n, s, H, k, len, a, b);
    ForeachInNextRound(I, n, s, H, k, len, a1, b1);
    SetHidden(a1, b1, s.iter, IntV(k + 1), H);
  }

  /** A round that ends normally keeps the array's length, and in the lowered code the iterator. */
  lemma ForeachInRoundKeeps(I: Interp, n: nat, s: Stmt, H: set<string>, k: nat, len: int, a: State, b: State)
    requires World(I) && s.ForeachIn? && Fit(I, s, H)
    requires Get(b, Local(s.iter)) == Some(IntV(k))
    requires Get(a, s.arr).Some? && SizeOf(I, Kind(s), Get(a, s.arr).value) == Some(IntV(len))
    ensures var o := ExecSeq(I, n, s.body, a);
      o.Normal? ==> Get(o.st, s.arr).Some? && SizeOf(I, Kind(s), Get(o.st, s.arr).value) == Some(IntV(len))
    ensures var p := ExecSeq(I, n, LoweredSeq(s.body), b);
      p.Normal? ==> Get(p.st, Local(s.iter)) == Some(IntV(k))
  {
    SeqKeeps(I, n, s.body, a, s.arr, s.isArray);
    LoweredSeqKeeps(I, s.body, H - {s.name}, Local(s.iter), false);
    SeqKeeps(I, n, LoweredSeq(s.body), b, Local(s.iter), false);
  }

  // ----- switch -----

  /** The condition of a case computes the comparison, and changes nothing if comparing strings does not. */
  lemma EvalCaseCondition(I: Interp, kind: SwitchKind, v: Value, c: Value, st: State)
    requires !kind.OtherSwitch? && QuietAt(I, v, st) && QuietAt(I, c, st)
    ensures var r, q := Eval(I, v, st), Eval(I, c, st);
      Eval(I, CaseCondition(kind, v, c), st) ==
        if r.Ok? && q.Ok? then Matches(I, kind, r.v, q.v, st) else Stuck
    ensures var m := Eval(I, CaseCondition(kind, v, c), st); ComparesStrings(I) && m.Ok? ==> m.st == st
  {
    var r, q := Eval(I, v, st), Eval(I, c, st);
    if kind.IntSwitch? {
      EvalBinary(I, v, EQUALS, c, st);
    } else {
      assert [v, c][1..] == [c];
      assert EvalArgs(I, [c], st) == if q.Ok? then Args([q.v], st) else StuckArgs by { assert [c][1..] == []; }
      assert EvalArgs(I, [v, c], st) == if r.Ok? && q.Ok? then Args([r.v, q.v], st) else StuckArgs by {
        if r.Ok? && q.Ok? { assert [r.v] + [q.v] == [r.v, q.v]; }
      }
    }
  }

  lemma {:induction false} SwitchSame(I: Interp, n: nat, s: Stmt, H: set<string>, a: State, b: State)
    requires World(I) && s.Switch? && Fit(I, s, H) && Agree(a, b, H)
    ensures SameOutcome(Exec(I, n, s, a), Exec(I, n, Lowered(s), b), H)
    decreases n, s, 2
  {
    var t := Lowered(s);
    assert s.cases[0] in s.cases;
    assert t.arms[0] == t.arms[1];
    EvalAgrees(I, s.v, a, b, H);
    assert QuietAt(I, s.v, a) && QuietAt(I, s.v, b) && QuietAt(I, s.cases[0].value, b);
    EvalCaseCondition(I, s.kind, s.v, s.cases[0].value, b);
    assert ExecArms(I, n, t, 0, b) == ExecArms(I, n, t, 1, b);
    var r := Eval(I, s.v, a);
    if r.Ok? { CasesSame(I, n, s, 0, H, r.v, a, b); }
  }

  lemma ArmsStep(I: Interp, n: nat, s: Stmt, k: nat, st: State, hit: bool, next: State)
    requires s.If? && k < |s.arms| && Eval(I, s.arms[k].cond, st) == Ok(BoolV(hit), next)
    ensures ExecArms(I, n, s, k, st) ==
      if hit then ExecSeq(I, n, s.arms[k].body, next) else ExecArms(I, n, s, k + 1, next)
  {
  }

  lemma CasesStep(I: Interp, n: nat, s: Stmt, k: nat, w: Val, st: State, c: Val, hit: bool)
    requires s.Switch? && k < |s.cases| && Eval(I, s.cases[k].value, st) == Ok(c, st)
    requires Matches(I, s.kind, w, c, st) == Ok(BoolV(hit), st)
    ensures ExecCases(I, n, s, k, w, st) ==
      if hit then ExecSeq(I, n, s.cases[k].body, st) else ExecCases(I, n, s, k + 1, w, st)
  {
  }

  /** The cases from the k-th on, against the arms after the repeated first one. */
  lemma {:induction false} CasesSame(
    I: Interp, n: nat, s: Stmt, k: nat, H: set<string>, w: Val, a: State, b: State)
    requires World(I) && s.Switch? && Fit(I, s, H) && Agree(a, b, H) && k <= |s.cases|
    requires Eval(I, s.v, b).Ok? && Eval(I, s.v, b).v == w
    ensures SameOutcome(ExecCases(I, n, s, k, w, a), ExecArms(I, n, Lowered(s), k + 1, b), H)
    decreases n, s, 1, |s.cases| - k
  {
    if k == |s.cases| {
      SameBlock(I, n, s.default, H, a, b);
    } else {
      CaseTests(I, s, k, H, w, a, b);
      var t, c := Lowered(s), s.cases[k];
      assert t.arms[k + 1] == LoweredCases(s, s.cases)[k];
      var r := Eval(I, c.value, a);
      if r.Ok? && Matches(I, s.kind, w, r.v, a).Ok? && Matches(I, s.kind, w, r.v, a).v.BoolV? {
        assert c in s.cases;
        var hit := Matches(I, s.kind, w, r.v, a).v.b;
        CasesStep(I, n, s, k, w, a, r.v, hit);
        ArmsStep(I, n, t, k + 1, b, hit, b);
        if hit { SameSeq(I, n, c.body, H, a, b); } else { CasesSame(I, n, s, k + 1, H, w, a, b); }
      }
    }
  }

  /** A case's test, on both sides: nothing changes, and the answers agree. */
  lemma CaseTests(I: Interp, s: Stmt, k: nat, H: set<string>, w: Val, a: State, b: State)
    requires World(I) && s.Switch? && Fit(I, s, H) && Agree(a, b, H) && k < |s.cases|
    requires Eval(I, s.v, b).Ok? && Eval(I, s.v, b).v == w
    ensures
      var c := s.cases[k];
      var r := Eval(I, c.value, a);
      var q := Eval(I, CaseCondition(s.kind, s.v, c.value), b);
      && (r.Ok? ==> r.st == a)
      && (r.Ok? && Matches(I, s.kind, w, r.v, a).Ok? ==>
            Matches(I, s.kind, w, r.v, a).st == a && q == Ok(Matches(I, s.kind, w, r.v, a).v, b))
      && (r.Stuck? || Matches(I, s.kind, w, r.v, a).Stuck? ==> q.Stuck?)
  {
    var c := s.cases[k];
    assert c in s.cases;
    EvalAgrees(I, c.value, a, b, H);
    assert QuietAt(I, c.value, a) && QuietAt(I, c.value, b) && QuietAt(I, s.v, b);
    EvalCaseCondition(I, s.kind, s.v, c.value, b);
  }
}
