/**
 * The transform pass: `while`, `for`, `foreach`, `foreach in`, `switch` and
 * `op=` are rewritten into `if`, `do while`, scopes and plain assignments.
 */
module Desugar {
  import opened Common
  import opened Ast
  import opened Semantics

  // ----- the rewrite rules -----

  /** A statement the rules rewrite. */
  predicate IsSugar(s: Stmt) {
    s.While? || s.For? || s.Foreach? || s.ForeachIn? || s.Switch? || IsCompound(s)
  }

  predicate IsCompound(s: Stmt) { s.Assignment? && !s.op.ASSIGN? && !s.op.SWAP? }

  function Binary(a: Value, op: Operator, b: Value): Value { Composed(a, [Operation(op, b)]) }

  function Int(n: int): Value { Literal(IntV(n)) }

  function LocalVar(x: string): Value { Variable(Local(x)) }

  function Increment(x: string): Stmt { Assignment(LocalVar(x), ASSIGN, Binary(LocalVar(x), ADD, Int(1))) }

  function OptSeq(s: Option<Stmt>): seq<Stmt> { if s.Some? then [s.value] else [] }

  /** `if(c) do body while(c)`. */
  function Guarded(c: Value, body: seq<Stmt>): Stmt { If([Arm(c, [DoWhile(body, c)])], Absent) }

  function CaseCondition(kind: SwitchKind, v: Value, c: Value): Value {
    if kind.IntSwitch? then Binary(v, EQUALS, c) else FunctionCall(STR_EQUALS, [v, c])
  }

  function CaseArm(kind: SwitchKind, v: Value, c: Case): Arm { Arm(CaseCondition(kind, v, c.value), c.body) }

  function CaseArms(kind: SwitchKind, v: Value, cases: seq<Case>): (arms: seq<Arm>)
    ensures |arms| == |cases| && forall k | 0 <= k < |cases| :: arms[k] == CaseArm(kind, v, cases[k])
  {
    seq(|cases|, k requires 0 <= k < |cases| => CaseArm(kind, v, cases[k]))
  }

  function ForeachCondition(iter: string, arr: Name, isArray: bool): Value {
    Binary(LocalVar(iter), LESS, Builtin(if isArray then SIZE else LENGTH, Variable(arr)))
  }

  function ForeachInBody(s: Stmt, body: seq<Stmt>): seq<Stmt>
    requires s.ForeachIn?
  {
    [VariableDeclaration(s.name, Some(Binary(Variable(s.arr), BRACKET, LocalVar(s.iter))))]
      + body + [Increment(s.iter)]
  }

  /** What the source demands of a switch: a first case, and a value it can compare. */
  predicate SwitchOk(s: Stmt) { s.Switch? ==> s.cases != [] && !s.kind.OtherSwitch? }

  /**
   * One application of the rules; no statement means no transformation.  On a
   * switch that is not `SwitchOk` the source has no defined result; the methods
   * below exclude it.
   */
  function Rewrite(s: Stmt): seq<Stmt> {
    match s
    case Assignment(l, op, r) =>
      if op.ASSIGN? || op.SWAP? then [] else [Assignment(l, ASSIGN, Binary(l, op, r))]
    case While(c, body) => [Guarded(c, body)]
    case Foreach(x, from, to, body) =>
      [If([Arm(Binary(Int(from), LESS_EQUALS, Int(to)),
               [Assignment(LocalVar(x), ASSIGN, Int(from)),
                DoWhile(body + [Increment(x)], Binary(LocalVar(x), LESS_EQUALS, Int(to)))])], Absent)]
    case ForeachIn(_, arr, isArray, iter, body) =>
      [Assignment(LocalVar(iter), ASSIGN, Int(0)),
       Guarded(ForeachCondition(iter, arr, isArray), ForeachInBody(s, body))]
    case For(start, Some(c), repeat, body) => OptSeq(start) + [Guarded(c, body + OptSeq(repeat))]
    case For(start, None, repeat, body) => OptSeq(start) + [DoWhile(body + OptSeq(repeat), Literal(BoolV(true)))]
    case Switch(kind, v, cases, default) => if !SwitchOk(s) then [] else
      [If([CaseArm(kind, v, cases[0])] + CaseArms(kind, v, cases), default)]
    case _ => []
  }

  /** The statement that takes the place of s in its list. */
  function Replacement(s: Stmt): Stmt {
    var transformed := Rewrite(s);
    if |transformed| == 0 then s
    else if |transformed| == 1 then transformed[0]
    else Scope(transformed)
  }

  // ----- switches the pass can handle, everywhere -----

  predicate Switches(s: Stmt) {
    match s
    case If(arms, e) => (forall a | a in arms :: SwitchesIn(a.body)) && SwitchesElse(e)
    case DoWhile(body, _) => SwitchesIn(body)
    case Scope(body) => SwitchesIn(body)
    case While(_, body) => SwitchesIn(body)
    case For(start, _, repeat, body) =>
      (start.Some? ==> Switches(start.value)) && (repeat.Some? ==> Switches(repeat.value)) && SwitchesIn(body)
    case Foreach(_, _, _, body) => SwitchesIn(body)
    case ForeachIn(_, _, _, _, body) => SwitchesIn(body)
    case Switch(_, _, cases, e) => SwitchOk(s) && (forall c | c in cases :: SwitchesIn(c.body)) && SwitchesElse(e)
    case _ => true
  }

  predicate SwitchesElse(e: Otherwise) { e.Present? ==> SwitchesIn(e.body) }

  predicate SwitchesIn(ss: seq<Stmt>) { forall s | s in ss :: Switches(s) }

  // ----- the result of the whole pass, by structure -----

  function Lowered(s: Stmt): Stmt
    decreases s, 1
  {
    match s
    case Assignment(l, op, r) =>
      if op.ASSIGN? || op.SWAP? then s else Assignment(l, ASSIGN, Binary(l, op, r))
    case If(arms, e) => If(LoweredArms(s, arms), LoweredElse(e))
    case DoWhile(body, c) => DoWhile(LoweredSeq(body), c)
    case Scope(body) => Scope(LoweredSeq(body))
    case While(c, body) => Guarded(c, LoweredSeq(body))
    case Foreach(x, from, to, body) =>
      If([Arm(Binary(Int(from), LESS_EQUALS, Int(to)),
              [Assignment(LocalVar(x), ASSIGN, Int(from)),
               DoWhile(LoweredSeq(body) + [Increment(x)], Binary(LocalVar(x), LESS_EQUALS, Int(to)))])], Absent)
    case ForeachIn(_, arr, isArray, iter, body) =>
      Scope([Assignment(LocalVar(iter), ASSIGN, Int(0)),
             Guarded(ForeachCondition(iter, arr, isArray), ForeachInBody(s, LoweredSeq(body)))])
    case For(start, condition, repeat, body) =>
      var full := LoweredSeq(body) + OptSeq(LoweredOpt(repeat));
      var loop := if condition.Some? then Guarded(condition.value, full) else DoWhile(full, Literal(BoolV(true)));
      if start.Some? then Scope([Lowered(start.value), loop]) else loop
    case Switch(kind, v, cases, e) => if !SwitchOk(s) then s else
      var arms := LoweredCases(s, cases);
      If([arms[0]] + arms, LoweredElse(e))
    case _ => s
  }

  function LoweredSeq(ss: seq<Stmt>): (r: seq<Stmt>)
    ensures |r| == |ss| && forall k | 0 <= k < |ss| :: r[k] == Lowered(ss[k])
    decreases ss, 0
  {
    seq(|ss|, k requires 0 <= k < |ss| => Lowered(ss[k]))
  }

  function LoweredOpt(s: Option<Stmt>): Option<Stmt>
    decreases s, 0
  {
    if s.Some? then Some(Lowered(s.value)) else None
  }

  function LoweredElse(e: Otherwise): Otherwise
    decreases e, 0
  {
    if e.Present? then Present(LoweredSeq(e.body)) else Absent
  }

  function LoweredArms(s: Stmt, arms: seq<Arm>): (r: seq<Arm>)
    requires s.If? && arms == s.arms
    ensures |r| == |arms| && forall k | 0 <= k < |arms| :: r[k] == Arm(arms[k].cond, LoweredSeq(arms[k].body))
    decreases s, 0
  {
    seq(|arms|, k requires 0 <= k < |arms| => Arm(arms[k].cond, LoweredSeq(arms[k].body)))
  }

  function LoweredCases(s: Stmt, cases: seq<Case>): (r: seq<Arm>)
    requires s.Switch? && cases == s.cases
    ensures |r| == |cases|
    ensures forall k | 0 <= k < |cases| ::
      r[k] == Arm(CaseCondition(s.kind, s.v, cases[k].value), LoweredSeq(cases[k].body))
    decreases s, 0
  {
    seq(|cases|, k requires 0 <= k < |cases| =>
      Arm(CaseCondition(s.kind, s.v, cases[k].value), LoweredSeq(cases[k].body)))
  }

  // ----- the weight that bounds the pass's work -----

  /** A switch's first case counts twice: it is emitted twice. */
  function Weight(s: Stmt): nat
    decreases s, 1
  {
    match s
    case If(arms, e) => 1 + ArmsWeight(arms) + ElseWeight(e)
    case DoWhile(body, _) => 1 + SeqWeight(body)
    case Scope(body) => 1 + SeqWeight(body)
    case While(_, body) => 2 + SeqWeight(body)
    case For(start, _, repeat, body) => 3 + OptWeight(start) + OptWeight(repeat) + SeqWeight(body)
    case Foreach(_, _, _, body) => 4 + SeqWeight(body)
    case ForeachIn(_, _, _, _, body) => 6 + SeqWeight(body)
    case Switch(_, _, cases, e) =>
      1 + (if cases == [] then 0 else SeqWeight(cases[0].body)) + CasesWeight(cases) + ElseWeight(e)
    case _ => 1
  }

  function SeqWeight(ss: seq<Stmt>): nat
    decreases ss, 0
  {
    if ss == [] then 0 else Weight(ss[0]) + SeqWeight(ss[1..])
  }

  function OptWeight(s: Option<Stmt>): nat
    decreases s, 0
  {
    if s.Some? then Weight(s.value) else 0
  }

  function ElseWeight(e: Otherwise): nat
    decreases e, 0
  {
    if e.Present? then SeqWeight(e.body) else 0
  }

  function ArmsWeight(arms: seq<Arm>): nat
    decreases arms, 0
  {
    if arms == [] then 0 else SeqWeight(arms[0].body) + ArmsWeight(arms[1..])
  }

  function CasesWeight(cases: seq<Case>): nat
    decreases cases, 0
  {
    if cases == [] then 0 else SeqWeight(cases[0].body) + CasesWeight(cases[1..])
  }

  lemma {:induction false} SeqWeightConcat(a: seq<Stmt>, b: seq<Stmt>)
    ensures SeqWeight(a + b) == SeqWeight(a) + SeqWeight(b)
  {
    if a == [] {
      assert a + b == b;
    } else {
      assert (a + b)[0] == a[0] && (a + b)[1..] == a[1..] + b;
      SeqWeightConcat(a[1..], b);
    }
  }

  lemma {:induction false} SeqWeightAt(ss: seq<Stmt>, k: nat)
    requires k < |ss|
    ensures Weight(ss[k]) <= SeqWeight(ss)
  {
    if k > 0 { SeqWeightAt(ss[1..], k - 1); }
  }

  lemma {:induction false} ArmsWeightAt(arms: seq<Arm>, k: nat)
    requires k < |arms|
    ensures SeqWeight(arms[k].body) <= ArmsWeight(arms)
  {
    if k > 0 { ArmsWeightAt(arms[1..], k - 1); }
  }

  lemma {:induction false} CaseArmsWeight(kind: SwitchKind, v: Value, cases: seq<Case>)
    ensures ArmsWeight(CaseArms(kind, v, cases)) == CasesWeight(cases)
  {
    if cases != [] {
      assert CaseArms(kind, v, cases)[1..] == CaseArms(kind, v, cases[1..]);
      CaseArmsWeight(kind, v, cases[1..]);
    }
  }

  lemma WeightOne(s: Stmt)
    ensures SeqWeight([s]) == Weight(s)
  {
  }

  lemma WeightTwo(a: Stmt, b: Stmt)
    ensures SeqWeight([a, b]) == Weight(a) + Weight(b)
  {
    assert [a, b][1..] == [b];
    WeightOne(b);
  }

  lemma OneArmWeight(a: Arm)
    ensures ArmsWeight([a]) == SeqWeight(a.body)
  {
    assert ArmsWeight([a][1..]) == 0;
  }

  lemma GuardedWeight(c: Value, body: seq<Stmt>)
    ensures Weight(Guarded(c, body)) == 2 + SeqWeight(body)
  {
    WeightOne(DoWhile(body, c));
    OneArmWeight(Guarded(c, body).arms[0]);
  }

  lemma ForeachReplacementWeight(s: Stmt)
    requires s.Foreach?
    ensures Weight(Replacement(s)) <= Weight(s)
  {
    SeqWeightConcat(s.body, [Increment(s.name)]);
    WeightOne(Increment(s.name));
    var r := Replacement(s);
    WeightTwo(r.arms[0].body[0], r.arms[0].body[1]);
    OneArmWeight(r.arms[0]);
  }

  lemma ForeachInReplacementWeight(s: Stmt)
    requires s.ForeachIn?
    ensures Weight(Replacement(s)) <= Weight(s)
  {
    var decl := VariableDeclaration(s.name, Some(Binary(Variable(s.arr), BRACKET, LocalVar(s.iter))));
    SeqWeightConcat([decl] + s.body, [Increment(s.iter)]);
    SeqWeightConcat([decl], s.body);
    WeightOne(decl);
    WeightOne(Increment(s.iter));
    GuardedWeight(ForeachCondition(s.iter, s.arr, s.isArray), ForeachInBody(s, s.body));
    var out := Rewrite(s);
    WeightTwo(out[0], out[1]);
  }

  lemma ForReplacementWeight(s: Stmt)
    requires s.For?
    ensures Weight(Replacement(s)) <= Weight(s)
  {
    var full := s.body + OptSeq(s.repeat);
    SeqWeightConcat(s.body, OptSeq(s.repeat));
    if s.repeat.Some? { WeightOne(s.repeat.value); }
    if s.condition.Some? { GuardedWeight(s.condition.value, full); }
    if s.start.Some? {
      var out := Rewrite(s);
      WeightTwo(out[0], out[1]);
    }
  }

  lemma SwitchReplacementWeight(s: Stmt)
    requires s.Switch?
    ensures Weight(Replacement(s)) <= Weight(s)
  {
    if SwitchOk(s) {
      CaseArmsWeight(s.kind, s.v, s.cases);
      var arms := Replacement(s).arms;
      assert arms[1..] == CaseArms(s.kind, s.v, s.cases);
    }
  }

  /** Rewriting a statement does not make it heavier. */
  lemma ReplacementWeight(s: Stmt)
    ensures Weight(Replacement(s)) <= Weight(s)
  {
    match s
    case While(c, body) => GuardedWeight(c, body);
    case Foreach(_, _, _, _) => ForeachReplacementWeight(s);
    case ForeachIn(_, _, _, _, _) => ForeachInReplacementWeight(s);
    case For(_, _, _, _) => ForReplacementWeight(s);
    case Switch(_, _, _, _) => SwitchReplacementWeight(s);
    case _ =>
  }

  // ----- the visitor -----

  /** What replaces a statement is not rewritten again at the same level, and its switches can be handled. */
  lemma ReplacementSwitches(s: Stmt)
    requires Switches(s)
    ensures Switches(Replacement(s)) && !IsSugar(Replacement(s))
  {
    match s
    case Switch(_, _, _, _) => SwitchReplacementSwitches(s);
    case For(_, _, _, _) => ForReplacementSwitches(s);
    case While(c, body) => GuardedLowered(c, body);
    case ForeachIn(_, arr, isArray, iter, body) =>
      assert forall t | t in ForeachInBody(s, body) :: Switches(t);
      GuardedLowered(ForeachCondition(iter, arr, isArray), ForeachInBody(s, body));
    case Foreach(x, _, to, body) =>
      assert Switches(DoWhile(body + [Increment(x)], Binary(LocalVar(x), LESS_EQUALS, Int(to))));
    case _ =>
  }

  lemma SwitchReplacementSwitches(s: Stmt)
    requires s.Switch? && Switches(s)
    ensures Switches(Replacement(s)) && !IsSugar(Replacement(s))
  {
    var arms := Replacement(s).arms;
    forall a | a in arms ensures SwitchesIn(a.body) {
      var k :| 0 <= k < |arms| && arms[k] == a;
      assert s.cases[if k == 0 then 0 else k - 1] in s.cases;
    }
  }

  lemma ForReplacementSwitches(s: Stmt)
    requires s.For? && Switches(s)
    ensures Switches(Replacement(s)) && !IsSugar(Replacement(s))
  {
    var full := s.body + OptSeq(s.repeat);
    if s.condition.Some? {
      GuardedLowered(s.condition.value, full);
    } else {
      assert Switches(DoWhile(full, Literal(BoolV(true))));
    }
  }

  lemma GuardedLowered(c: Value, body: seq<Stmt>)
    ensures SwitchesIn(body) ==> Switches(Guarded(c, body))
    ensures Lowered(Guarded(c, body)) == Guarded(c, LoweredSeq(body))
  {
    var g := Guarded(c, body);
    assert LoweredSeq([DoWhile(body, c)]) == [DoWhile(LoweredSeq(body), c)];
    assert LoweredArms(g, g.arms) == Guarded(c, LoweredSeq(body)).arms;
    if SwitchesIn(body) { assert Switches(DoWhile(body, c)); }
  }

  lemma LoweredConcat(a: seq<Stmt>, b: seq<Stmt>)
    ensures LoweredSeq(a + b) == LoweredSeq(a) + LoweredSeq(b)
  {
  }

  /** Lowering a statement is lowering the lists inside its replacement. */
  lemma LoweredReplacement(s: Stmt)
    ensures Lowered(Replacement(s)) == Lowered(s)
  {
    match s
    case While(c, body) => GuardedLowered(c, body);
    case Foreach(x, _, _, body) => LoweredForeach(s);
    case ForeachIn(_, arr, isArray, iter, body) =>
      assert LoweredSeq(ForeachInBody(s, body)) == ForeachInBody(s, LoweredSeq(body));
      GuardedLowered(ForeachCondition(iter, arr, isArray), ForeachInBody(s, body));
      assert LoweredSeq(Rewrite(s)) == Lowered(s).body;
    case For(_, _, _, _) => LoweredFor(s);
    case Switch(_, _, _, _) =>
      if SwitchOk(s) {
        var r := Replacement(s);
        assert LoweredArms(r, r.arms) == Lowered(s).arms;
      }
    case _ =>
  }

  lemma LoweredForeach(s: Stmt)
    requires s.Foreach?
    ensures Lowered(Replacement(s)) == Lowered(s)
  {
    var r := Replacement(s);
    LoweredConcat(s.body, [Increment(s.name)]);
    assert LoweredSeq([Increment(s.name)]) == [Increment(s.name)];
    assert LoweredSeq(r.arms[0].body) == Lowered(s).arms[0].body;
    assert LoweredArms(r, r.arms) == Lowered(s).arms;
  }

  lemma LoweredFor(s: Stmt)
    requires s.For?
    ensures Lowered(Replacement(s)) == Lowered(s)
  {
    var full := s.body + OptSeq(s.repeat);
    LoweredConcat(s.body, OptSeq(s.repeat));
    assert LoweredSeq(OptSeq(s.repeat)) == OptSeq(LoweredOpt(s.repeat));
    if s.condition.Some? { GuardedLowered(s.condition.value, full); }
    if s.start.Some? { assert LoweredSeq(Rewrite(s)) == Lowered(s).body; }
  }

  /**
   * Rewrites every statement of a list in place, then visits each of them.
   * Terminates because no rewriting makes a list heavier.
   */
  method Transform(list: seq<Stmt>) returns (instructions: seq<Stmt>)
    requires SwitchesIn(list)
    ensures instructions == LoweredSeq(list)
    decreases SeqWeight(list), 1
  {
    instructions := list;
    var i := 0;
    while i < |instructions|
      invariant 0 <= i <= |instructions| == |list|
      invariant forall k | 0 <= k < i :: instructions[k] == Replacement(list[k])
      invariant forall k | i <= k < |list| :: instructions[k] == list[k]
    {
      assert list[i] in list;
      var transformed := Rewrite(instructions[i]);
      if |transformed| == 1 {
        instructions := instructions[i := transformed[0]];
      } else if |transformed| > 1 {
        instructions := instructions[i := Scope(transformed)];
      }
      i := i + 1;
    }
    i := 0;
    while i < |instructions|
      invariant 0 <= i <= |instructions| == |list|
      invariant forall k | 0 <= k < i :: instructions[k] == Lowered(list[k])
      invariant forall k | i <= k < |list| :: instructions[k] == Replacement(list[k])
    {
      assert list[i] in list;
      SeqWeightAt(list, i);
      ReplacementWeight(list[i]);
      ReplacementSwitches(list[i]);
      LoweredReplacement(list[i]);
      var visited := Visit(instructions[i]);
      instructions := instructions[i := visited];
      i := i + 1;
    }
  }

  /** Transforms the lists inside a statement that is not itself rewritten. */
  method Visit(s: Stmt) returns (r: Stmt)
    requires Switches(s) && !IsSugar(s)
    ensures r == Lowered(s)
    decreases Weight(s), 0
  {
    match s
    case If(arms, e) =>
      assert Weight(s) == 1 + ArmsWeight(arms) + ElseWeight(e);
      var newArms := arms;
      for i := 0 to |arms|
        invariant |newArms| == |arms|
        invariant forall k | 0 <= k < i :: newArms[k] == Arm(arms[k].cond, LoweredSeq(arms[k].body))
        invariant forall k | i <= k < |arms| :: newArms[k] == arms[k]
      {
        ArmsWeightAt(arms, i);
        assert arms[i] in arms;
        var body := Transform(arms[i].body);
        newArms := newArms[i := Arm(arms[i].cond, body)];
      }
      assert newArms == LoweredArms(s, arms);
      var newElse := e;
      if e.Present? {
        var body := Transform(e.body);
        newElse := Present(body);
      }
      r := If(newArms, newElse);
    case DoWhile(body, c) =>
      var b := Transform(body);
      r := DoWhile(b, c);
    case Scope(body) =>
      var b := Transform(body);
      r := Scope(b);
    case _ =>
      r := s;
  }

  // ----- what is left after the pass -----

  /** No statement at any depth is one the rules rewrite. */
  predicate Plain(s: Stmt) {
    match s
    case If(arms, e) => (forall a | a in arms :: PlainIn(a.body)) && (e.Present? ==> PlainIn(e.body))
    case DoWhile(body, _) => PlainIn(body)
    case Scope(body) => PlainIn(body)
    case _ => !IsSugar(s)
  }

  predicate PlainIn(ss: seq<Stmt>) { forall s | s in ss :: Plain(s) }

  /** The pass leaves no statement to rewrite in any list it visits. */
  lemma {:induction false} LoweredIsPlain(s: Stmt)
    requires Switches(s)
    ensures Plain(Lowered(s))
    decreases s, 2
  {
    match s
    case If(_, e) =>
      ArmsArePlain(s);
      LoweredElseIsPlain(e);
    case DoWhile(body, _) => LoweredSeqIsPlain(body);
    case Scope(body) => LoweredSeqIsPlain(body);
    case While(c, body) =>
      LoweredSeqIsPlain(body);
      GuardedPlain(c, LoweredSeq(body));
    case Foreach(x, _, to, body) =>
      LoweredSeqIsPlain(body);
      assert Plain(DoWhile(LoweredSeq(body) + [Increment(x)], Binary(LocalVar(x), LESS_EQUALS, Int(to))));
    case ForeachIn(_, arr, isArray, iter, body) =>
      LoweredSeqIsPlain(body);
      assert PlainIn(ForeachInBody(s, LoweredSeq(body)));
      GuardedPlain(ForeachCondition(iter, arr, isArray), ForeachInBody(s, LoweredSeq(body)));
    case For(_, _, _, _) => ForIsPlain(s);
    case Switch(_, _, _, e) =>
      CasesArePlain(s);
      LoweredElseIsPlain(e);
    case _ =>
  }

  lemma {:induction false} ArmsArePlain(s: Stmt)
    requires s.If? && Switches(s)
    ensures forall a | a in LoweredArms(s, s.arms) :: PlainIn(a.body)
    decreases s, 1
  {
    forall a | a in LoweredArms(s, s.arms) ensures PlainIn(a.body) {
      var k :| 0 <= k < |s.arms| && a == LoweredArms(s, s.arms)[k];
      assert s.arms[k] in s.arms;
      LoweredSeqIsPlain(s.arms[k].body);
    }
  }

  lemma {:induction false} CasesArePlain(s: Stmt)
    requires s.Switch? && Switches(s)
    ensures forall a | a in LoweredCases(s, s.cases) :: PlainIn(a.body)
    decreases s, 1
  {
    forall a | a in LoweredCases(s, s.cases) ensures PlainIn(a.body) {
      var k :| 0 <= k < |s.cases| && a == LoweredCases(s, s.cases)[k];
      assert s.cases[k] in s.cases;
      LoweredSeqIsPlain(s.cases[k].body);
    }
  }

  lemma {:induction false} ForIsPlain(s: Stmt)
    requires s.For? && Switches(s)
    ensures Plain(Lowered(s))
    decreases s, 1
  {
    LoweredSeqIsPlain(s.body);
    if s.start.Some? { LoweredIsPlain(s.start.value); }
    if s.repeat.Some? { LoweredIsPlain(s.repeat.value); }
    var full := LoweredSeq(s.body) + OptSeq(LoweredOpt(s.repeat));
    assert PlainIn(full);
    if s.condition.Some? {
      GuardedPlain(s.condition.value, full);
    } else {
      assert Plain(DoWhile(full, Literal(BoolV(true))));
    }
  }

  lemma GuardedPlain(c: Value, body: seq<Stmt>)
    requires PlainIn(body)
    ensures Plain(Guarded(c, body))
  {
    assert Plain(DoWhile(body, c));
  }

  lemma {:induction false} LoweredElseIsPlain(e: Otherwise)
    requires SwitchesElse(e)
    ensures e.Present? ==> PlainIn(LoweredElse(e).body)
    decreases e, 0
  {
    if e.Present? { LoweredSeqIsPlain(e.body); }
  }

  lemma {:induction false} LoweredSeqIsPlain(ss: seq<Stmt>)
    requires SwitchesIn(ss)
    ensures PlainIn(LoweredSeq(ss))
    decreases ss, 0
  {
    forall t | t in LoweredSeq(ss) ensures Plain(t) {
      var k :| 0 <= k < |ss| && t == LoweredSeq(ss)[k];
      assert ss[k] in ss;
      LoweredIsPlain(ss[k]);
    }
  }
}
