/** Runs, divergence, and the main theorem of the desugaring. */
module Meaning {
  import opened Common
  import opened Ast
  import opened Semantics
  import opened ValueFacts
  import opened Desugar
  import opened Scoping
  import opened Preservation
  import Mangling
  import Names

  /** The list ends with outcome o, given enough fuel. */
  ghost predicate Runs(I: Interp, ss: seq<Stmt>, st: State, o: Outcome) {
    !o.OutOfFuel? && exists n: nat :: ExecSeq(I, n, ss, st) == o
  }

  ghost predicate Diverges(I: Interp, ss: seq<Stmt>, st: State) {
    forall n: nat :: ExecSeq(I, n, ss, st).OutOfFuel?
  }

  // ----- more fuel changes no outcome -----

  ghost predicate Grows(o: Outcome, p: Outcome) { !o.OutOfFuel? ==> p == o }

  lemma {:induction false} SeqGrows(I: Interp, n: nat, m: nat, ss: seq<Stmt>, st: State)
    requires n <= m
    ensures Grows(ExecSeq(I, n, ss, st), ExecSeq(I, m, ss, st))
    decreases n, ss, 0
  {
    if ss != [] {
      StmtGrows(I, n, m, ss[0], st);
      var o := Exec(I, n, ss[0], st);
      if o.Normal? { SeqGrows(I, n, m, ss[1..], o.st); }
    }
  }

  lemma {:induction false} OptGrows(I: Interp, n: nat, m: nat, s: Option<Stmt>, st: State)
    requires n <= m
    ensures Grows(ExecOpt(I, n, s, st), ExecOpt(I, m, s, st))
    decreases n, s, 0
  {
    if s.Some? { StmtGrows(I, n, m, s.value, st); }
  }

  lemma {:induction false} BlockGrows(I: Interp, n: nat, m: nat, e: Otherwise, st: State)
    requires n <= m
    ensures Grows(ExecBlock(I, n, e, st), ExecBlock(I, m, e, st))
    decreases n, e, 0
  {
    if e.Present? { SeqGrows(I, n, m, e.body, st); }
  }

  lemma {:induction false} StmtGrows(I: Interp, n: nat, m: nat, s: Stmt, st: State)
    requires n <= m
    ensures Grows(Exec(I, n, s, st), Exec(I, m, s, st))
    decreases n, s, 3
  {
    match s
    case If(_, _) => ArmsGrow(I, n, m, s, 0, st);
    case Scope(body) => SeqGrows(I, n, m, body, st);
    case DoWhile(_, _) => DoWhileGrows(I, n, m, s, st);
    case While(_, _) => WhileGrows(I, n, m, s, st);
    case For(start, _, _, _) =>
      OptGrows(I, n, m, start, st);
      var o := ExecOpt(I, n, start, st);
      if o.Normal? { ForGrows(I, n, m, s, o.st); }
    case Foreach(_, from, _, _) => ForeachGrows(I, n, m, s, from, st);
    case ForeachIn(_, arr, isArray, _, _) =>
      var r := Eval(I, Builtin(if isArray then SIZE else LENGTH, Variable(arr)), st);
      if r.Ok? && r.v.IntV? { ForeachInGrows(I, n, m, s, 0, r.v.n, st); }
    case Switch(_, v, _, _) =>
      var r := Eval(I, v, st);
      if r.Ok? { CasesGrow(I, n, m, s, 0, r.v, r.st); }
    case _ =>
  }

  lemma {:induction false} ArmsGrow(I: Interp, n: nat, m: nat, s: Stmt, k: nat, st: State)
    requires n <= m && s.If? && k <= |s.arms|
    ensures Grows(ExecArms(I, n, s, k, st), ExecArms(I, m, s, k, st))
    decreases n, s, 2, |s.arms| - k
  {
    if k == |s.arms| {
      BlockGrows(I, n, m, s.otherwise, st);
    } else {
      var r := Eval(I, s.arms[k].cond, st);
      if r.Ok? {
        SeqGrows(I, n, m, s.arms[k].body, r.st);
        ArmsGrow(I, n, m, s, k + 1, r.st);
      }
    }
  }

  lemma {:induction false} CasesGrow(I: Interp, n: nat, m: nat, s: Stmt, k: nat, w: Val, st: State)
    requires n <= m && s.Switch? && k <= |s.cases|
    ensures Grows(ExecCases(I, n, s, k, w, st), ExecCases(I, m, s, k, w, st))
    decreases n, s, 2, |s.cases| - k
  {
    if k == |s.cases| {
      BlockGrows(I, n, m, s.default, st);
    } else {
      var r := Eval(I, s.cases[k].value, st);
      if r.Ok? {
        var q := Matches(I, s.kind, w, r.v, r.st);
        if q.Ok? {
          SeqGrows(I, n, m, s.cases[k].body, q.st);
          CasesGrow(I, n, m, s, k + 1, w, q.st);
        }
      }
    }
  }

  lemma {:induction false} DoWhileGrows(I: Interp, n: nat, m: nat, s: Stmt, st: State)
    requires n <= m && s.DoWhile?
    ensures Grows(Exec(I, n, s, st), Exec(I, m, s, st))
    decreases n, s, 2
  {
    if n > 0 {
      SeqGrows(I, n, m, s.body, st);
      var o := ExecSeq(I, n, s.body, st);
      if o.Normal? && Eval(I, s.cond, o.st).Ok? { StmtGrows(I, n - 1, m - 1, s, Eval(I, s.cond, o.st).st); }
    }
  }

  lemma {:induction false} WhileGrows(I: Interp, n: nat, m: nat, s: Stmt, st: State)
    requires n <= m && s.While?
    ensures Grows(Exec(I, n, s, st), Exec(I, m, s, st))
    decreases n, s, 2
  {
    var r := Eval(I, s.cond, st);
    if n > 0 && r.Ok? {
      SeqGrows(I, n, m, s.body, r.st);
      var o := ExecSeq(I, n, s.body, r.st);
      if o.Normal? { StmtGrows(I, n - 1, m - 1, s, o.st); }
    }
  }

  lemma {:induction false} ForGrows(I: Interp, n: nat, m: nat, s: Stmt, st: State)
    requires n <= m && s.For?
    ensures Grows(ForLoop(I, n, s, st), ForLoop(I, m, s, st))
    decreases n, s, 2
  {
    var r := if s.condition.Some? then Eval(I, s.condition.value, st) else Ok(BoolV(true), st);
    if n > 0 && r.Ok? {
      SeqGrows(I, n, m, s.body, r.st);
      var o := ExecSeq(I, n, s.body, r.st);
      if o.Normal? {
        OptGrows(I, n, m, s.repeat, o.st);
        var p := ExecOpt(I, n, s.repeat, o.st);
        if p.Normal? { ForGrows(I, n - 1, m - 1, s, p.st); }
      }
    }
  }

  lemma {:induction false} ForeachGrows(I: Interp, n: nat, m: nat, s: Stmt, k: int, st: State)
    requires n <= m && s.Foreach?
    ensures Grows(ForeachLoop(I, n, s, k, st), ForeachLoop(I, m, s, k, st))
    decreases n, s, 2
  {
    if n > 0 && k <= s.to {
      var st1 := Set(st, Local(s.name), IntV(k));
      SeqGrows(I, n, m, s.body, st1);
      var o := ExecSeq(I, n, s.body, st1);
      if o.Normal? { ForeachGrows(I, n - 1, m - 1, s, k + 1, o.st); }
    }
  }

  lemma {:induction false} ForeachInGrows(I: Interp, n: nat, m: nat, s: Stmt, k: nat, len: int, st: State)
    requires n <= m && s.ForeachIn?
    ensures Grows(ForeachInLoop(I, n, s, k, len, st), ForeachInLoop(I, m, s, k, len, st))
    decreases n, s, 2
  {
    if n > 0 && k < len && Get(st, s.arr).Some? {
      var v := Apply(I, BRACKET, Get(st, s.arr).value, IntV(k), st.globals);
      if v.Some? {
        var st1 := Set(st, Local(s.name), v.value);
        SeqGrows(I, n, m, s.body, st1);
        var o := ExecSeq(I, n, s.body, st1);
        if o.Normal? { ForeachInGrows(I, n - 1, m - 1, s, k + 1, len, o.st); }
      }
    }
  }

  /** A list has at most one outcome, and none if it diverges. */
  lemma OutcomeIsUnique(I: Interp, ss: seq<Stmt>, st: State, o: Outcome, p: Outcome)
    requires Runs(I, ss, st, o)
    ensures !Diverges(I, ss, st)
    ensures Runs(I, ss, st, p) ==> p == o
  {
    var n: nat :| ExecSeq(I, n, ss, st) == o;
    if Runs(I, ss, st, p) {
      var m: nat :| ExecSeq(I, m, ss, st) == p;
      if n <= m { SeqGrows(I, n, m, ss, st); } else { SeqGrows(I, m, n, ss, st); }
    }
  }

  // ----- the main theorem -----

  /**
   * For every list that fits the hidden locals H, every interpretation and
   * every pair of states that agree outside H: the lowered list has exactly
   * the outcomes of the source list, up to H, and diverges exactly when the
   * source list does.
   */
  lemma DesugaringPreservesMeaning(I: Interp, ss: seq<Stmt>, H: set<string>, a: State, b: State)
    requires World(I) && FitIn(I, ss, H) && Agree(a, b, H)
    ensures forall o :: Runs(I, ss, a, o) ==> exists p :: Runs(I, LoweredSeq(ss), b, p) && SameOutcome(o, p, H)
    ensures forall p :: Runs(I, LoweredSeq(ss), b, p) ==> exists o :: Runs(I, ss, a, o) && SameOutcome(o, p, H)
    ensures Diverges(I, ss, a) <==> Diverges(I, LoweredSeq(ss), b)
  {
    forall n: nat
      ensures SameOutcome(ExecSeq(I, n, ss, a), ExecSeq(I, n, LoweredSeq(ss), b), H)
    {
      SameSeq(I, n, ss, H, a, b);
    }
    forall o | Runs(I, ss, a, o)
      ensures exists p :: Runs(I, LoweredSeq(ss), b, p) && SameOutcome(o, p, H)
    {
      var n: nat :| ExecSeq(I, n, ss, a) == o;
      var p := ExecSeq(I, n, LoweredSeq(ss), b);
      assert Runs(I, LoweredSeq(ss), b, p) && SameOutcome(o, p, H);
    }
    forall p | Runs(I, LoweredSeq(ss), b, p)
      ensures exists o :: Runs(I, ss, a, o) && SameOutcome(o, p, H)
    {
      var n: nat :| ExecSeq(I, n, LoweredSeq(ss), b) == p;
      var o := ExecSeq(I, n, ss, a);
      assert Runs(I, ss, a, o) && SameOutcome(o, p, H);
    }
  }

  // ----- which case a switch takes -----

  /** The library function `str_equals(str, str)` tells whether two strings are equal. */
  ghost predicate AnswersEquality(I: Interp) {
    forall a, b, g ::
      I.call(Names.NameOf("str_equals", [Names.Of(Mangling.STRING), Names.Of(Mangling.STRING)]), [StrV(a), StrV(b)], g)
        == Some((BoolV(a == b), g))
  }

  /** A switch on an integer, or on a string, with the values of its cases in this state. */
  ghost predicate Labelled(I: Interp, s: Stmt, w: Val, labels: seq<Val>, st: State) {
    && s.Switch? && s.cases != [] && |labels| == |s.cases| && Eval(I, s.v, st) == Ok(w, st)
    && (forall k | 0 <= k < |labels| :: Eval(I, s.cases[k].value, st) == Ok(labels[k], st))
    && (s.kind.IntSwitch? ==> w.IntV? && forall k | 0 <= k < |labels| :: labels[k].IntV?)
    && (s.kind.StringSwitch? ==> w.StrV? && AnswersEquality(I) && forall k | 0 <= k < |labels| :: labels[k].StrV?)
    && !s.kind.OtherSwitch?
  }

  lemma Matching(I: Interp, s: Stmt, w: Val, labels: seq<Val>, st: State, k: nat)
    requires Labelled(I, s, w, labels, st) && k < |labels|
    ensures Matches(I, s.kind, w, labels[k], st) == Ok(BoolV(w == labels[k]), st)
    ensures Eval(I, CaseCondition(s.kind, s.v, s.cases[k].value), st) == Ok(BoolV(w == labels[k]), st)
  {
    Names.StringComparison();
    EvalCaseCondition(I, s.kind, s.v, s.cases[k].value, st);
  }

  lemma {:induction false} CasesPick(
    I: Interp, n: nat, s: Stmt, w: Val, labels: seq<Val>, st: State, from: nat, k: nat)
    requires Labelled(I, s, w, labels, st) && from <= k <= |labels|
    requires (forall j | from <= j < k :: labels[j] != w) && (k < |labels| ==> labels[k] == w)
    ensures ExecCases(I, n, s, from, w, st) ==
      if k < |labels| then ExecSeq(I, n, s.cases[k].body, st) else ExecBlock(I, n, s.default, st)
    ensures ExecArms(I, n, Lowered(s), from + 1, st) ==
      if k < |labels| then ExecSeq(I, n, LoweredSeq(s.cases[k].body), st)
      else ExecBlock(I, n, LoweredElse(s.default), st)
    decreases k - from
  {
    var t := Lowered(s);
    if from < |labels| {
      Matching(I, s, w, labels, st, from);
      assert t.arms[from + 1] == LoweredCases(s, s.cases)[from];
      CasesStep(I, n, s, from, w, st, labels[from], w == labels[from]);
      ArmsStep(I, n, t, from + 1, st, w == labels[from], st);
      if from < k { CasesPick(I, n, s, w, labels, st, from + 1, k); }
    }
  }

  /**
   * A switch runs the body of the first case whose value is equal to its own,
   * or the default when there is none; and so does the chain it becomes.
   */
  lemma SwitchPicks(I: Interp, n: nat, s: Stmt, w: Val, labels: seq<Val>, st: State, k: nat)
    requires Labelled(I, s, w, labels, st) && k <= |labels|
    requires (forall j | 0 <= j < k :: labels[j] != w) && (k < |labels| ==> labels[k] == w)
    ensures Exec(I, n, s, st) ==
      if k < |labels| then ExecSeq(I, n, s.cases[k].body, st) else ExecBlock(I, n, s.default, st)
    ensures Exec(I, n, Lowered(s), st) ==
      if k < |labels| then ExecSeq(I, n, LoweredSeq(s.cases[k].body), st)
      else ExecBlock(I, n, LoweredElse(s.default), st)
  {
    var t := Lowered(s);
    CasesPick(I, n, s, w, labels, st, 0, k);
    Matching(I, s, w, labels, st, 0);
    assert t.arms[0] == t.arms[1] == LoweredCases(s, s.cases)[0];
    ArmsStep(I, n, t, 0, st, w == labels[0], st);
    ArmsStep(I, n, t, 1, st, w == labels[0], st);
  }

  // ----- loops and assignments, by what they compute -----

  lemma {:induction false} ForLoopIsWhile(I: Interp, n: nat, s: Stmt, c: Value, st: State)
    requires s.For? && s.condition == Some(c)
    ensures ForLoop(I, n, s, st) == Exec(I, n, While(c, s.body + OptSeq(s.repeat)), st)
    decreases n
  {
    var r := Eval(I, c, st);
    if r.Ok? && n > 0 {
      ExecConcat(I, n, s.body, OptSeq(s.repeat), r.st);
      var o := ExecSeq(I, n, s.body, r.st);
      if o.Normal? {
        ExecOptSeq(I, n, s.repeat, o.st);
        var p := ExecOpt(I, n, s.repeat, o.st);
        if p.Normal? { ForLoopIsWhile(I, n - 1, s, c, p.st); }
      }
    }
  }

  /** A `for` is its start, and a `while` whose body ends with its repeat. */
  lemma ForIsWhile(
    I: Interp, n: nat, start: Option<Stmt>, c: Value, repeat: Option<Stmt>, body: seq<Stmt>, st: State)
    ensures Exec(I, n, For(start, Some(c), repeat, body), st) ==
      ExecSeq(I, n, OptSeq(start) + [While(c, body + OptSeq(repeat))], st)
  {
    var s, loop := For(start, Some(c), repeat, body), While(c, body + OptSeq(repeat));
    ExecConcat(I, n, OptSeq(start), [loop], st);
    ExecOptSeq(I, n, start, st);
    var o := ExecOpt(I, n, start, st);
    if o.Normal? {
      ExecOne(I, n, loop, o.st);
      ForLoopIsWhile(I, n, s, c, o.st);
    }
  }

  /** `while(x < k){ x = x + 1; }` takes as many rounds as x is below k, and ends with x at k. */
  lemma {:induction false} WhileCounts(I: Interp, n: nat, x: string, k: int, st: State, below: nat)
    requires Get(st, Local(x)) == Some(IntV(k - below)) && below <= n && InRange(I, k - below) && InRange(I, k)
    ensures Exec(I, n, While(Binary(LocalVar(x), LESS, Int(k)), [Increment(x)]), st) ==
      Normal(Set(st, Local(x), IntV(k)))
    decreases below
  {
    var c := Binary(LocalVar(x), LESS, Int(k));
    EvalBinary(I, LocalVar(x), LESS, Int(k), st);
    assert Eval(I, LocalVar(x), st) == Ok(IntV(k - below), st);
    if below == 0 {
      assert Set(st, Local(x), IntV(k)) == st;
    } else {
      var next := Set(st, Local(x), IntV(k - below + 1));
      ExecIncrement(I, n, x, k - below, st);
      ExecOne(I, n, Increment(x), st);
      assert ExecSeq(I, n, [Increment(x)], st) == Normal(next);
      WhileCounts(I, n - 1, x, k, next, below - 1);
      assert Set(next, Local(x), IntV(k)) == Set(st, Local(x), IntV(k));
    }
  }

  /** `x -= d` and what it becomes take d from x. */
  lemma SubtractionSubtracts(I: Interp, n: nat, x: string, k: int, d: int, st: State)
    requires Get(st, Local(x)) == Some(IntV(k))
    ensures var s := Assignment(LocalVar(x), SUB, Int(d));
      Exec(I, n, s, st) == Exec(I, n, Lowered(s), st) == Normal(Set(st, Local(x), IntV(Wrap(I, k - d))))
  {
    assert Resolve(I, LocalVar(x), st) == At(VarPlace(Local(x)), st);
    assert Eval(I, LocalVar(x), st) == Ok(IntV(k), st) && Eval(I, Int(d), st) == Ok(IntV(d), st);
    EvalBinary(I, LocalVar(x), SUB, Int(d), st);
    ExecAssignLocal(I, n, x, Binary(LocalVar(x), SUB, Int(d)), st);
  }

  /** `a[x] = ++x` writes to the cell x names before it is increased. */
  lemma PlaceBeforeValue(I: Interp, n: nat, a: string, x: string, k: int, cells: seq<Val>, st: State)
    requires Cells(st, a, x, k, cells) && 0 <= k < |cells| && InRange(I, k + 1)
    ensures
      Exec(I, n, Assignment(Composed(LocalVar(a), [Operation(BRACKET, LocalVar(x))]), ASSIGN, Bumped(x)), st) ==
        Normal(Set(Set(st, Local(x), IntV(k + 1)), Local(a), ArrV(cells[k := IntV(k + 1)])))
  {
    var left := Composed(LocalVar(a), [Operation(BRACKET, LocalVar(x))]);
    assert EvalOps(I, left, 0, st) == Ok(ArrV(cells), st);
    assert Eval(I, LocalVar(x), st) == Ok(IntV(k), st);
    assert Resolve(I, left, st) == At(ElemPlace(Local(a), IntV(k)), st);
    EvalBumped(I, x, k, st);
  }

  /** In `f(x, ++x)` the last argument comes first: the function gets the increased value twice. */
  lemma LastArgumentFirst(I: Interp, f: string, x: string, k: int, st: State)
    requires Get(st, Local(x)) == Some(IntV(k)) && InRange(I, k + 1)
    ensures var next := Set(st, Local(x), IntV(k + 1));
      Eval(I, FunctionCall(f, [LocalVar(x), Bumped(x)]), st) ==
        OfCall(I.call(f, [IntV(k + 1), IntV(k + 1)], next.globals), next)
  {
    var next := Set(st, Local(x), IntV(k + 1));
    EvalBumped(I, x, k, st);
    assert [Bumped(x)][1..] == [] && [LocalVar(x), Bumped(x)][1..] == [Bumped(x)];
    assert EvalArgs(I, [Bumped(x)], st) == Args([IntV(k + 1)], next);
    assert Eval(I, LocalVar(x), next) == Ok(IntV(k + 1), next);
    assert [IntV(k + 1)] + [IntV(k + 1)] == [IntV(k + 1), IntV(k + 1)];
  }

  /** A swap exchanges the values of two variables and leaves all others alone. */
  lemma SwapExchanges(I: Interp, n: nat, x: Name, y: Name, st: State, z: Name)
    requires Get(st, x).Some? && Get(st, y).Some?
    ensures var o := Exec(I, n, Assignment(Variable(x), SWAP, Variable(y)), st);
      o.Normal? && Get(o.st, z) == Get(st, if z == x then y else if z == y then x else z)
  {
  }

  // ----- the hypotheses are needed -----

  /** `++x` */
  function Bumped(x: string): Value { Prefix(INC, LocalVar(x)) }

  lemma EvalBumped(I: Interp, x: string, k: int, st: State)
    requires Get(st, Local(x)) == Some(IntV(k)) && InRange(I, k + 1)
    ensures Eval(I, Bumped(x), st) == Ok(IntV(k + 1), Set(st, Local(x), IntV(k + 1)))
  {
    assert Reference(I, LocalVar(x), st) == At(VarPlace(Local(x)), st);
    assert Apply(I, ADD, IntV(k), IntV(1), st.globals) == Some(IntV(k + 1));
  }

  lemma EvalBumpedTest(I: Interp, x: string, k: int, c: int, st: State)
    requires Get(st, Local(x)) == Some(IntV(k)) && InRange(I, k + 1)
    ensures Eval(I, Binary(Bumped(x), EQUALS, Int(c)), st) == Ok(BoolV(k + 1 == c), Set(st, Local(x), IntV(k + 1)))
  {
    EvalBumped(I, x, k, st);
    EvalBinary(I, Bumped(x), EQUALS, Int(c), st);
  }

  /** `switch(++x){ case k: ; case k + 3: return 1; }` */
  function BumpedSwitch(x: string, k: int): Stmt {
    Switch(IntSwitch, Bumped(x), [Case(Int(k), []), Case(Int(k + 3), [Return(Int(1))])], Absent)
  }

  lemma BumpedSwitchRuns(I: Interp, x: string, k: int, st: State)
    requires Get(st, Local(x)) == Some(IntV(k)) && InRange(I, k + 1)
    ensures Exec(I, 0, BumpedSwitch(x, k), st) == Normal(Set(st, Local(x), IntV(k + 1)))
  {
    var s, st1 := BumpedSwitch(x, k), Set(st, Local(x), IntV(k + 1));
    EvalBumped(I, x, k, st);
    CasesStep(I, 0, s, 0, IntV(k + 1), st1, IntV(k), false);
    CasesStep(I, 0, s, 1, IntV(k + 1), st1, IntV(k + 3), false);
  }

  lemma LoweredBumpedSwitchRuns(I: Interp, x: string, k: int, st: State)
    requires Get(st, Local(x)) == Some(IntV(k)) && InRange(I, k) && InRange(I, k + 3)
    ensures Exec(I, 0, Lowered(BumpedSwitch(x, k)), st) == Returned(IntV(1), Set(st, Local(x), IntV(k + 3)))
  {
    var t := Lowered(BumpedSwitch(x, k));
    var st1, st2 := Set(st, Local(x), IntV(k + 1)), Set(st, Local(x), IntV(k + 2));
    var st3 := Set(st, Local(x), IntV(k + 3));
    EvalBumpedTest(I, x, k, k, st);
    ArmsStep(I, 0, t, 0, st, false, st1);
    EvalBumpedTest(I, x, k + 1, k, st1);
    assert Set(st1, Local(x), IntV(k + 2)) == st2;
    ArmsStep(I, 0, t, 1, st1, false, st2);
    EvalBumpedTest(I, x, k + 2, k + 3, st2);
    assert Set(st2, Local(x), IntV(k + 3)) == st3;
    ArmsStep(I, 0, t, 2, st2, true, st3);
    assert t.arms[2].body == [Return(Int(1))];
    ExecOne(I, 0, Return(Int(1)), st3);
  }

  /**
   * The value of a switch must have no side effect: with `++x` as its value
   * and x = k, the source evaluates it once and matches neither k nor k + 3;
   * the lowered code evaluates it once per test, again for the repeated first
   * case, and takes the second case.
   */
  lemma SwitchReevaluatesItsValue(I: Interp, x: string, k: int, st: State)
    requires Get(st, Local(x)) == Some(IntV(k)) && InRange(I, k) && InRange(I, k + 3)
    ensures SwitchOk(BumpedSwitch(x, k))
    ensures Exec(I, 0, BumpedSwitch(x, k), st) == Normal(Set(st, Local(x), IntV(k + 1)))
    ensures Exec(I, 0, Lowered(BumpedSwitch(x, k)), st) == Returned(IntV(1), Set(st, Local(x), IntV(k + 3)))
  {
    BumpedSwitchRuns(I, x, k, st);
    LoweredBumpedSwitchRuns(I, x, k, st);
  }

  /** `a[++x]` */
  function BumpedCell(a: string, x: string): Value { Composed(LocalVar(a), [Operation(BRACKET, Bumped(x))]) }

  ghost predicate Cells(st: State, a: string, x: string, k: int, cells: seq<Val>) {
    a != x && Get(st, Local(x)) == Some(IntV(k)) && Get(st, Local(a)) == Some(ArrV(cells))
  }

  lemma ResolveBumpedCell(I: Interp, a: string, x: string, k: int, cells: seq<Val>, st: State)
    requires Cells(st, a, x, k, cells) && InRange(I, k + 1)
    ensures Resolve(I, BumpedCell(a, x), st) ==
            At(ElemPlace(Local(a), IntV(k + 1)), Set(st, Local(x), IntV(k + 1)))
  {
    EvalBumped(I, x, k, st);
    assert EvalOps(I, BumpedCell(a, x), 0, st) == Ok(ArrV(cells), st);
  }

  lemma ReadCell(I: Interp, a: string, x: string, k: int, cells: seq<Val>, st: State)
    requires Cells(st, a, x, k, cells) && 0 <= k + 1 < |cells| && InRange(I, k + 1)
    ensures Eval(I, BumpedCell(a, x), st) == Ok(cells[k + 1], Set(st, Local(x), IntV(k + 1)))
  {
    EvalBumped(I, x, k, st);
    EvalBinary(I, LocalVar(a), BRACKET, Bumped(x), st);
    assert Eval(I, LocalVar(a), st) == Ok(ArrV(cells), st);
  }

  /**
   * The left side of a compound assignment must have no side effect:
   * `a[++x] += d` moves x once in the source and twice in its expansion, which
   * adds d to another cell's value.
   */
  lemma CompoundReevaluatesItsLeftSide(
    I: Interp, a: string, x: string, k: int, cells: seq<Val>, u: int, w: int, d: int, st: State)
    requires Cells(st, a, x, k, cells) && 0 <= k + 1 && k + 2 < |cells| && InRange(I, k + 2)
    requires cells[k + 1] == IntV(u) && cells[k + 2] == IntV(w)
    ensures
      var s := Assignment(BumpedCell(a, x), ADD, Int(d));
      && Exec(I, 0, s, st) ==
         Normal(Set(Set(st, Local(x), IntV(k + 1)), Local(a), ArrV(cells[k + 1 := IntV(Wrap(I, u + d))])))
      && Exec(I, 0, Lowered(s), st) ==
         Normal(Set(Set(st, Local(x), IntV(k + 2)), Local(a), ArrV(cells[k + 1 := IntV(Wrap(I, w + d))])))
  {
    var left := BumpedCell(a, x);
    var st1, st2 := Set(st, Local(x), IntV(k + 1)), Set(st, Local(x), IntV(k + 2));
    ResolveBumpedCell(I, a, x, k, cells, st);
    assert ReadPlace(I, ElemPlace(Local(a), IntV(k + 1)), st1) == Some(IntV(u));
    assert Eval(I, Int(d), st1) == Ok(IntV(d), st1);
    assert Apply(I, ADD, IntV(u), IntV(d), st1.globals) == Some(IntV(Wrap(I, u + d)));
    assert WritePlace(I, ElemPlace(Local(a), IntV(k + 1)), IntV(Wrap(I, u + d)), st1) ==
      Some(Set(st1, Local(a), ArrV(cells[k + 1 := IntV(Wrap(I, u + d))])));
    assert Exec(I, 0, Assignment(left, ADD, Int(d)), st) ==
      Normal(Set(st1, Local(a), ArrV(cells[k + 1 := IntV(Wrap(I, u + d))])));
    ReadCell(I, a, x, k + 1, cells, st1);
    assert Set(st1, Local(x), IntV(k + 2)) == st2;
    EvalBinary(I, left, ADD, Int(d), st1);
    assert Eval(I, Binary(left, ADD, Int(d)), st1) == Ok(IntV(Wrap(I, w + d)), st2);
  }
}
