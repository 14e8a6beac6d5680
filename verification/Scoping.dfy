/** Conditions on the variables of statements, and what they guarantee when the statements run. */
module Scoping {
  import opened Common
  import opened Ast
  import opened Semantics
  import opened ValueFacts
  import opened Desugar

  // ----- statements that do not replace a given variable -----

  predicate KeepsStmt(s: Stmt, n: Name, sized: bool) {
    match s
    case ValueStmt(v) => Keeps(v, n, sized)
    case VariableDeclaration(x, init) => Local(x) != n && (init.Some? ==> Keeps(init.value, n, sized))
    case StructDeclaration(x, _, vs) =>
      Local(x) != n && CallKeeps(n, sized) && forall v | v in vs :: Keeps(v, n, sized)
    case ArrayDeclaration(x, size) => Local(x) != n && Keeps(size, n, sized)
    case Assignment(l, op, r) => Keeps(AssignValue(l, op, r), n, sized)
    case Return(v) => Keeps(v, n, sized)
    case Delete(v) => CallKeeps(n, sized) && Keeps(v, n, sized)
    case If(arms, e) =>
      && (forall a | a in arms :: Keeps(a.cond, n, sized) && KeepsIn(a.body, n, sized))
      && KeepsElse(e, n, sized)
    case DoWhile(body, c) => KeepsIn(body, n, sized) && Keeps(c, n, sized)
    case Scope(body) => KeepsIn(body, n, sized)
    case While(c, body) => KeepsIn(body, n, sized) && Keeps(c, n, sized)
    case For(start, c, repeat, body) =>
      && (start.Some? ==> KeepsStmt(start.value, n, sized))
      && (c.Some? ==> Keeps(c.value, n, sized))
      && (repeat.Some? ==> KeepsStmt(repeat.value, n, sized))
      && KeepsIn(body, n, sized)
    case Foreach(x, _, _, body) => Local(x) != n && KeepsIn(body, n, sized)
    case ForeachIn(x, _, _, iter, body) => Local(x) != n && Local(iter) != n && KeepsIn(body, n, sized)
    case Switch(kind, v, cases, e) =>
      && Keeps(v, n, sized) && (kind.StringSwitch? ==> CallKeeps(n, sized))
      && (forall c | c in cases :: Keeps(c.value, n, sized) && KeepsIn(c.body, n, sized))
      && KeepsElse(e, n, sized)
  }

  predicate KeepsElse(e: Otherwise, n: Name, sized: bool) { e.Present? ==> KeepsIn(e.body, n, sized) }

  predicate KeepsIn(ss: seq<Stmt>, n: Name, sized: bool) { forall s | s in ss :: KeepsStmt(s, n, sized) }

  ghost predicate KeptAfter(st: State, o: Outcome, n: Name, sized: bool) {
    o.Normal? ==> Kept(st, o.st, n, sized)
  }

  lemma {:induction false} SeqKeeps(I: Interp, n: nat, ss: seq<Stmt>, st: State, x: Name, sized: bool)
    requires KeepsArrays(I) && KeepsIn(ss, x, sized)
    ensures KeptAfter(st, ExecSeq(I, n, ss, st), x, sized)
    decreases n, ss, 0
  {
    if ss != [] {
      ExecKeeps(I, n, ss[0], st, x, sized);
      var o := Exec(I, n, ss[0], st);
      if o.Normal? { SeqKeeps(I, n, ss[1..], o.st, x, sized); }
    }
  }

  lemma {:induction false} OptKeeps(I: Interp, n: nat, s: Option<Stmt>, st: State, x: Name, sized: bool)
    requires KeepsArrays(I) && (s.Some? ==> KeepsStmt(s.value, x, sized))
    ensures KeptAfter(st, ExecOpt(I, n, s, st), x, sized)
    decreases n, s, 0
  {
    if s.Some? { ExecKeeps(I, n, s.value, st, x, sized); }
  }

  lemma {:induction false} BlockKeeps(I: Interp, n: nat, e: Otherwise, st: State, x: Name, sized: bool)
    requires KeepsArrays(I) && KeepsElse(e, x, sized)
    ensures KeptAfter(st, ExecBlock(I, n, e, st), x, sized)
    decreases n, e, 0
  {
    if e.Present? { SeqKeeps(I, n, e.body, st, x, sized); }
  }

  /** A statement without statements inside. */
  predicate Simple(s: Stmt) {
    s.ValueStmt? || s.VariableDeclaration? || s.StructDeclaration? || s.ArrayDeclaration?
    || s.Assignment? || s.Return? || s.Delete?
  }

  lemma SimpleKeeps(I: Interp, n: nat, s: Stmt, st: State, x: Name, sized: bool)
    requires KeepsArrays(I) && KeepsStmt(s, x, sized) && Simple(s)
    ensures KeptAfter(st, Exec(I, n, s, st), x, sized)
  {
    match s
    case ValueStmt(v) => EvalKeeps(I, v, st, x, sized);
    case VariableDeclaration(_, init) => if init.Some? { EvalKeeps(I, init.value, st, x, sized); }
    case StructDeclaration(_, _, vs) => ArgsKeep(I, vs, st, x, sized);
    case ArrayDeclaration(_, size) => EvalKeeps(I, size, st, x, sized);
    case Assignment(l, op, r) => AssignKeeps(I, AssignValue(l, op, r), st, x, sized);
    case Return(_) =>
    case Delete(v) => EvalKeeps(I, v, st, x, sized);
  }

  lemma {:induction false} ExecKeeps(I: Interp, n: nat, s: Stmt, st: State, x: Name, sized: bool)
    requires KeepsArrays(I) && KeepsStmt(s, x, sized)
    ensures KeptAfter(st, Exec(I, n, s, st), x, sized)
    decreases n, s, 3
  {
    if Simple(s) {
      SimpleKeeps(I, n, s, st, x, sized);
    } else {
      match s
      case If(_, _) => ArmsKeep(I, n, s, 0, st, x, sized);
      case Scope(body) => SeqKeeps(I, n, body, st, x, sized);
      case DoWhile(_, _) => DoWhileKeeps(I, n, s, st, x, sized);
      case While(_, _) => WhileKeeps(I, n, s, st, x, sized);
      case For(start, _, _, _) =>
        OptKeeps(I, n, start, st, x, sized);
        var o := ExecOpt(I, n, start, st);
        if o.Normal? { ForKeeps(I, n, s, o.st, x, sized); }
      case Foreach(_, from, _, _) => ForeachKeeps(I, n, s, from, st, x, sized);
      case ForeachIn(_, arr, isArray, _, _) =>
        var r := Eval(I, Builtin(if isArray then SIZE else LENGTH, Variable(arr)), st);
        if r.Ok? && r.v.IntV? { ForeachInKeeps(I, n, s, 0, r.v.n, st, x, sized); }
      case Switch(_, v, _, _) =>
        EvalKeeps(I, v, st, x, sized);
        var r := Eval(I, v, st);
        if r.Ok? { CasesKeep(I, n, s, 0, r.v, r.st, x, sized); }
    }
  }

  lemma {:induction false} DoWhileKeeps(I: Interp, n: nat, s: Stmt, st: State, x: Name, sized: bool)
    requires KeepsArrays(I) && KeepsStmt(s, x, sized) && s.DoWhile?
    ensures KeptAfter(st, Exec(I, n, s, st), x, sized)
    decreases n, s, 2
  {
    SeqKeeps(I, n, s.body, st, x, sized);
    var o := ExecSeq(I, n, s.body, st);
    if o.Normal? {
      EvalKeeps(I, s.cond, o.st, x, sized);
      var r := Eval(I, s.cond, o.st);
      if n > 0 && r.Ok? { ExecKeeps(I, n - 1, s, r.st, x, sized); }
    }
  }

  lemma {:induction false} WhileKeeps(I: Interp, n: nat, s: Stmt, st: State, x: Name, sized: bool)
    requires KeepsArrays(I) && KeepsStmt(s, x, sized) && s.While?
    ensures KeptAfter(st, Exec(I, n, s, st), x, sized)
    decreases n, s, 2
  {
    EvalKeeps(I, s.cond, st, x, sized);
    var r := Eval(I, s.cond, st);
    if r.Ok? {
      SeqKeeps(I, n, s.body, r.st, x, sized);
      var o := ExecSeq(I, n, s.body, r.st);
      if n > 0 && o.Normal? { ExecKeeps(I, n - 1, s, o.st, x, sized); }
    }
  }

  lemma {:induction false} ArmsKeep(I: Interp, n: nat, s: Stmt, k: nat, st: State, x: Name, sized: bool)
    requires KeepsArrays(I) && KeepsStmt(s, x, sized) && s.If? && k <= |s.arms|
    ensures KeptAfter(st, ExecArms(I, n, s, k, st), x, sized)
    decreases n, s, 2, |s.arms| - k
  {
    if k == |s.arms| {
      BlockKeeps(I, n, s.otherwise, st, x, sized);
    } else {
      assert s.arms[k] in s.arms;
      EvalKeeps(I, s.arms[k].cond, st, x, sized);
      var r := Eval(I, s.arms[k].cond, st);
      if r.Ok? {
        SeqKeeps(I, n, s.arms[k].body, r.st, x, sized);
        ArmsKeep(I, n, s, k + 1, r.st, x, sized);
      }
    }
  }

  lemma MatchKeeps(I: Interp, s: Stmt, w: Val, v: Val, st: State, x: Name, sized: bool)
    requires KeepsArrays(I) && KeepsStmt(s, x, sized) && s.Switch?
    ensures Matches(I, s.kind, w, v, st).Ok? ==> Kept(st, Matches(I, s.kind, w, v, st).st, x, sized)
  {
  }

  lemma {:induction false} CasesKeep(I: Interp, n: nat, s: Stmt, k: nat, w: Val, st: State, x: Name, sized: bool)
    requires KeepsArrays(I) && KeepsStmt(s, x, sized) && s.Switch? && k <= |s.cases|
    ensures KeptAfter(st, ExecCases(I, n, s, k, w, st), x, sized)
    decreases n, s, 2, |s.cases| - k
  {
    if k == |s.cases| {
      BlockKeeps(I, n, s.default, st, x, sized);
    } else {
      assert s.cases[k] in s.cases;
      EvalKeeps(I, s.cases[k].value, st, x, sized);
      var r := Eval(I, s.cases[k].value, st);
      if r.Ok? {
        var m := Matches(I, s.kind, w, r.v, r.st);
        if m.Ok? {
          MatchKeeps(I, s, w, r.v, r.st, x, sized);
          SeqKeeps(I, n, s.cases[k].body, m.st, x, sized);
          CasesKeep(I, n, s, k + 1, w, m.st, x, sized);
        }
      }
    }
  }

  lemma {:induction false} ForKeeps(I: Interp, n: nat, s: Stmt, st: State, x: Name, sized: bool)
    requires KeepsArrays(I) && KeepsStmt(s, x, sized) && s.For?
    ensures KeptAfter(st, ForLoop(I, n, s, st), x, sized)
    decreases n, s, 2
  {
    if s.condition.Some? { EvalKeeps(I, s.condition.value, st, x, sized); }
    var r := if s.condition.Some? then Eval(I, s.condition.value, st) else Ok(BoolV(true), st);
    if r.Ok? && n > 0 {
      SeqKeeps(I, n, s.body, r.st, x, sized);
      var o := ExecSeq(I, n, s.body, r.st);
      if o.Normal? {
        OptKeeps(I, n, s.repeat, o.st, x, sized);
        var p := ExecOpt(I, n, s.repeat, o.st);
        if p.Normal? { ForKeeps(I, n - 1, s, p.st, x, sized); }
      }
    }
  }

  lemma {:induction false} ForeachKeeps(I: Interp, n: nat, s: Stmt, k: int, st: State, x: Name, sized: bool)
    requires KeepsArrays(I) && KeepsStmt(s, x, sized) && s.Foreach?
    ensures KeptAfter(st, ForeachLoop(I, n, s, k, st), x, sized)
    decreases n, s, 2
  {
    if k <= s.to && n > 0 {
      var st1 := Set(st, Local(s.name), IntV(k));
      SeqKeeps(I, n, s.body, st1, x, sized);
      var o := ExecSeq(I, n, s.body, st1);
      if o.Normal? { ForeachKeeps(I, n - 1, s, k + 1, o.st, x, sized); }
    }
  }

  lemma {:induction false} ForeachInKeeps(I: Interp, n: nat, s: Stmt, k: nat, len: int, st: State, x: Name, sized: bool)
    requires KeepsArrays(I) && KeepsStmt(s, x, sized) && s.ForeachIn?
    ensures KeptAfter(st, ForeachInLoop(I, n, s, k, len, st), x, sized)
    decreases n, s, 2
  {
    if k < len && n > 0 && Get(st, s.arr).Some? {
      var v := Apply(I, BRACKET, Get(st, s.arr).value, IntV(k), st.globals);
      if v.Some? {
        var st1 := Set(st, Local(s.name), v.value);
        SeqKeeps(I, n, s.body, st1, x, sized);
        var o := ExecSeq(I, n, s.body, st1);
        if o.Normal? { ForeachInKeeps(I, n - 1, s, k + 1, len, o.st, x, sized); }
      }
    }
  }

  // ----- the statements the theorem is about -----

  /**
   * H names the locals that belong to loops: the variables of `foreach` and
   * `foreach in`, and the iterators the compiler generates.  A statement fits
   * H when such a local is used only inside its own loop, the body of a loop
   * replaces neither the loop's variable (for `foreach`) nor its iterator and
   * array (for `foreach in`), no `foreach` counts up to the largest integer,
   * the values of switches and cases have no side effect, and neither has the
   * left side of a compound assignment.
   */
  ghost predicate Fit(I: Interp, s: Stmt, H: set<string>) {
    match s
    case ValueStmt(v) => Clear(v, H)
    case VariableDeclaration(x, init) => x !in H && (init.Some? ==> Clear(init.value, H))
    case StructDeclaration(x, _, vs) => x !in H && forall v | v in vs :: Clear(v, H)
    case ArrayDeclaration(x, size) => x !in H && Clear(size, H)
    case Assignment(l, op, r) => Clear(l, H) && Clear(r, H) && (IsCompound(s) ==> Compound(op) && QuietPlace(I, l))
    case Return(v) => Clear(v, H)
    case Delete(v) => Clear(v, H)
    case If(arms, e) => (forall a | a in arms :: Clear(a.cond, H) && FitIn(I, a.body, H)) && FitElse(I, e, H)
    case DoWhile(body, c) => FitIn(I, body, H) && Clear(c, H)
    case Scope(body) => FitIn(I, body, H)
    case While(c, body) => Clear(c, H) && FitIn(I, body, H)
    case For(start, c, repeat, body) =>
      && (start.Some? ==> Fit(I, start.value, H)) && (c.Some? ==> Clear(c.value, H))
      && (repeat.Some? ==> Fit(I, repeat.value, H)) && FitIn(I, body, H)
    case Foreach(x, from, to, body) =>
      && x in H && FitIn(I, body, H - {x}) && KeepsIn(body, Local(x), false)
      && (from <= to ==> Countable(I, from, to))
    case ForeachIn(x, arr, isArray, iter, body) =>
      && x in H && iter in H && x != iter && ClearName(arr, H) && FitIn(I, body, H - {x})
      && KeepsIn(body, Local(iter), false) && KeepsIn(body, arr, isArray)
    case Switch(_, v, cases, e) =>
      && SwitchOk(s) && Quiet(I, v) && Clear(v, H)
      && (forall c | c in cases :: Quiet(I, c.value) && Clear(c.value, H) && FitIn(I, c.body, H))
      && FitElse(I, e, H)
  }

  /** Counting from `from` until `to` is passed meets platform integers only. */
  predicate Countable(I: Interp, from: int, to: int) { InRange(I, from) && InRange(I, to + 1) }

  ghost predicate FitElse(I: Interp, e: Otherwise, H: set<string>) { e.Present? ==> FitIn(I, e.body, H) }

  ghost predicate FitIn(I: Interp, ss: seq<Stmt>, H: set<string>) { forall s | s in ss :: Fit(I, s, H) }

  /** The library's string comparison changes nothing. */
  ghost predicate ComparesStrings(I: Interp) {
    forall v, w, g ::
      I.call(STR_EQUALS, [v, w], g).Some? ==> I.call(STR_EQUALS, [v, w], g).value.1 == g
  }

  ghost predicate World(I: Interp) { KeepsArrays(I) && ComparesStrings(I) }

  // ----- a variable the source keeps is kept by the lowered code -----

  lemma {:induction false} LoweredKeeps(I: Interp, s: Stmt, H: set<string>, n: Name, sized: bool)
    requires Fit(I, s, H) && KeepsStmt(s, n, sized)
    ensures KeepsStmt(Lowered(s), n, sized)
    decreases s, 2
  {
    match s
    case If(_, e) =>
      LoweredArmsKeep(I, s, H, n, sized);
      LoweredElseKeeps(I, e, H, n, sized);
    case DoWhile(body, _) => LoweredSeqKeeps(I, body, H, n, sized);
    case Scope(body) => LoweredSeqKeeps(I, body, H, n, sized);
    case While(c, body) =>
      LoweredSeqKeeps(I, body, H, n, sized);
      GuardedKeeps(c, LoweredSeq(body), n, sized);
    case Foreach(_, _, _, _) => LoweredForeachKeeps(I, s, H, n, sized);
    case ForeachIn(_, _, _, _, _) => LoweredForeachInKeeps(I, s, H, n, sized);
    case For(_, _, _, _) => LoweredForKeeps(I, s, H, n, sized);
    case Switch(_, _, _, e) =>
      LoweredCasesKeep(I, s, H, n, sized);
      LoweredElseKeeps(I, e, H, n, sized);
    case _ =>
  }

  lemma BinaryKeeps(a: Value, op: Operator, b: Value, n: Name, sized: bool)
    requires Keeps(a, n, sized) && Keeps(b, n, sized) && !Bumps(op) && !op.CALL?
    ensures Keeps(Binary(a, op, b), n, sized)
  {
  }

  lemma IncrementKeeps(x: string, n: Name, sized: bool)
    requires Local(x) != n
    ensures KeepsStmt(Increment(x), n, sized)
  {
    BinaryKeeps(LocalVar(x), ADD, Int(1), n, sized);
  }

  lemma ForeachLoopKeeps(s: Stmt, body: seq<Stmt>, n: Name, sized: bool)
    requires s.Foreach? && Local(s.name) != n && KeepsIn(body, n, sized)
    ensures KeepsStmt(DoWhile(body + [Increment(s.name)], Binary(LocalVar(s.name), LESS_EQUALS, Int(s.to))), n, sized)
  {
    IncrementKeeps(s.name, n, sized);
    BinaryKeeps(LocalVar(s.name), LESS_EQUALS, Int(s.to), n, sized);
    assert KeepsIn(body + [Increment(s.name)], n, sized);
  }

  lemma {:induction false} LoweredForeachKeeps(I: Interp, s: Stmt, H: set<string>, n: Name, sized: bool)
    requires s.Foreach? && Fit(I, s, H) && KeepsStmt(s, n, sized)
    ensures KeepsStmt(Lowered(s), n, sized)
    decreases s, 1
  {
    LoweredSeqKeeps(I, s.body, H - {s.name}, n, sized);
    ForeachLoopKeeps(s, LoweredSeq(s.body), n, sized);
    var arm := Lowered(s).arms[0];
    BinaryKeeps(Int(s.from), LESS_EQUALS, Int(s.to), n, sized);
    assert KeepsIn(arm.body, n, sized);
  }

  lemma ForeachInBodyKeeps(s: Stmt, body: seq<Stmt>, n: Name, sized: bool)
    requires s.ForeachIn? && Local(s.name) != n && Local(s.iter) != n && KeepsIn(body, n, sized)
    ensures KeepsIn(ForeachInBody(s, body), n, sized)
  {
    IncrementKeeps(s.iter, n, sized);
    BinaryKeeps(Variable(s.arr), BRACKET, LocalVar(s.iter), n, sized);
    assert KeepsStmt(ForeachInBody(s, body)[0], n, sized);
  }

  lemma {:induction false} LoweredForeachInKeeps(I: Interp, s: Stmt, H: set<string>, n: Name, sized: bool)
    requires s.ForeachIn? && Fit(I, s, H) && KeepsStmt(s, n, sized)
    ensures KeepsStmt(Lowered(s), n, sized)
    decreases s, 1
  {
    LoweredSeqKeeps(I, s.body, H - {s.name}, n, sized);
    var full := ForeachInBody(s, LoweredSeq(s.body));
    ForeachInBodyKeeps(s, LoweredSeq(s.body), n, sized);
    var c := ForeachCondition(s.iter, s.arr, s.isArray);
    BinaryKeeps(LocalVar(s.iter), LESS, Builtin(if s.isArray then SIZE else LENGTH, Variable(s.arr)), n, sized);
    GuardedKeeps(c, full, n, sized);
    PairKeeps(Assignment(LocalVar(s.iter), ASSIGN, Int(0)), Guarded(c, full), n, sized);
  }

  lemma PairKeeps(s: Stmt, t: Stmt, n: Name, sized: bool)
    requires KeepsStmt(s, n, sized) && KeepsStmt(t, n, sized)
    ensures KeepsStmt(Scope([s, t]), n, sized)
  {
  }

  lemma {:induction false} LoweredArmsKeep(I: Interp, s: Stmt, H: set<string>, n: Name, sized: bool)
    requires s.If? && Fit(I, s, H) && KeepsStmt(s, n, sized)
    ensures forall a | a in LoweredArms(s, s.arms) :: Keeps(a.cond, n, sized) && KeepsIn(a.body, n, sized)
    decreases s, 1
  {
    forall a | a in LoweredArms(s, s.arms) ensures Keeps(a.cond, n, sized) && KeepsIn(a.body, n, sized) {
      var k :| 0 <= k < |s.arms| && a == LoweredArms(s, s.arms)[k];
      assert s.arms[k] in s.arms;
      LoweredSeqKeeps(I, s.arms[k].body, H, n, sized);
    }
  }

  lemma GuardedKeeps(c: Value, body: seq<Stmt>, n: Name, sized: bool)
    requires Keeps(c, n, sized) && KeepsIn(body, n, sized)
    ensures KeepsStmt(Guarded(c, body), n, sized)
  {
    assert KeepsStmt(DoWhile(body, c), n, sized);
  }

  lemma {:induction false} LoweredForKeeps(I: Interp, s: Stmt, H: set<string>, n: Name, sized: bool)
    requires s.For? && Fit(I, s, H) && KeepsStmt(s, n, sized)
    ensures KeepsStmt(Lowered(s), n, sized)
    decreases s, 1
  {
    LoweredSeqKeeps(I, s.body, H, n, sized);
    if s.start.Some? { LoweredKeeps(I, s.start.value, H, n, sized); }
    if s.repeat.Some? { LoweredKeeps(I, s.repeat.value, H, n, sized); }
    var full := LoweredSeq(s.body) + OptSeq(LoweredOpt(s.repeat));
    assert KeepsIn(full, n, sized);
    if s.condition.Some? {
      GuardedKeeps(s.condition.value, full, n, sized);
    } else {
      assert KeepsStmt(DoWhile(full, Literal(BoolV(true))), n, sized);
    }
  }

  lemma {:induction false} LoweredCasesKeep(I: Interp, s: Stmt, H: set<string>, n: Name, sized: bool)
    requires s.Switch? && Fit(I, s, H) && KeepsStmt(s, n, sized)
    ensures forall a | a in LoweredCases(s, s.cases) :: Keeps(a.cond, n, sized) && KeepsIn(a.body, n, sized)
    decreases s, 1
  {
    forall a | a in LoweredCases(s, s.cases) ensures Keeps(a.cond, n, sized) && KeepsIn(a.body, n, sized) {
      var k :| 0 <= k < |s.cases| && a == LoweredCases(s, s.cases)[k];
      assert s.cases[k] in s.cases;
      LoweredSeqKeeps(I, s.cases[k].body, H, n, sized);
      TestKeeps(s, s.cases[k], n, sized);
    }
  }

  lemma TestKeeps(s: Stmt, c: Case, n: Name, sized: bool)
    requires s.Switch? && SwitchOk(s) && c in s.cases && KeepsStmt(s, n, sized)
    ensures Keeps(CaseCondition(s.kind, s.v, c.value), n, sized)
  {
    if s.kind.IntSwitch? { BinaryKeeps(s.v, EQUALS, c.value, n, sized); }
  }

  lemma {:induction false} LoweredElseKeeps(I: Interp, e: Otherwise, H: set<string>, n: Name, sized: bool)
    requires FitElse(I, e, H) && KeepsElse(e, n, sized)
    ensures KeepsElse(LoweredElse(e), n, sized)
    decreases e, 0
  {
    if e.Present? { LoweredSeqKeeps(I, e.body, H, n, sized); }
  }

  lemma {:induction false} LoweredSeqKeeps(I: Interp, ss: seq<Stmt>, H: set<string>, n: Name, sized: bool)
    requires FitIn(I, ss, H) && KeepsIn(ss, n, sized)
    ensures KeepsIn(LoweredSeq(ss), n, sized)
    decreases ss, 0
  {
    forall t | t in LoweredSeq(ss) ensures KeepsStmt(t, n, sized) {
      var k :| 0 <= k < |ss| && t == LoweredSeq(ss)[k];
      assert ss[k] in ss;
      LoweredKeeps(I, ss[k], H, n, sized);
    }
  }
}
