/** How much larger the transform pass can make a program. */
module Growth {
  import opened Common
  import opened Ast
  import opened Desugar

  // ----- counting statements -----

  function Count(s: Stmt): (n: nat)
    ensures n > 0
    decreases s, 1
  {
    match s
    case If(arms, e) => 1 + ArmsCount(arms) + ElseCount(e)
    case DoWhile(body, _) => 1 + SeqCount(body)
    case Scope(body) => 1 + SeqCount(body)
    case While(_, body) => 1 + SeqCount(body)
    case For(start, _, repeat, body) => 1 + OptCount(start) + OptCount(repeat) + SeqCount(body)
    case Foreach(_, _, _, body) => 1 + SeqCount(body)
    case ForeachIn(_, _, _, _, body) => 1 + SeqCount(body)
    case Switch(_, _, cases, e) => 1 + CasesCount(cases) + ElseCount(e)
    case _ => 1
  }

  function SeqCount(ss: seq<Stmt>): nat
    decreases ss, 0
  {
    if ss == [] then 0 else Count(ss[0]) + SeqCount(ss[1..])
  }

  function OptCount(s: Option<Stmt>): nat
    decreases s, 0
  {
    if s.Some? then Count(s.value) else 0
  }

  function ElseCount(e: Otherwise): nat
    decreases e, 0
  {
    if e.Present? then SeqCount(e.body) else 0
  }

  function ArmsCount(arms: seq<Arm>): nat
    decreases arms, 0
  {
    if arms == [] then 0 else SeqCount(arms[0].body) + ArmsCount(arms[1..])
  }

  function CasesCount(cases: seq<Case>): nat
    decreases cases, 0
  {
    if cases == [] then 0 else SeqCount(cases[0].body) + CasesCount(cases[1..])
  }

  // ----- how deep switches nest in first cases -----

  function Max(a: nat, b: nat): nat { if a < b then b else a }

  function Depth(s: Stmt): nat
    decreases s, 1
  {
    match s
    case If(arms, e) => Max(ArmsDepth(arms), ElseDepth(e))
    case DoWhile(body, _) => SeqDepth(body)
    case Scope(body) => SeqDepth(body)
    case While(_, body) => SeqDepth(body)
    case For(start, _, repeat, body) => Max(Max(OptDepth(start), OptDepth(repeat)), SeqDepth(body))
    case Foreach(_, _, _, body) => SeqDepth(body)
    case ForeachIn(_, _, _, _, body) => SeqDepth(body)
    case Switch(_, _, cases, e) =>
      Max(if cases == [] then 0 else 1 + SeqDepth(cases[0].body), Max(CasesDepth(cases), ElseDepth(e)))
    case _ => 0
  }

  function SeqDepth(ss: seq<Stmt>): nat
    decreases ss, 0
  {
    if ss == [] then 0 else Max(Depth(ss[0]), SeqDepth(ss[1..]))
  }

  function OptDepth(s: Option<Stmt>): nat
    decreases s, 0
  {
    if s.Some? then Depth(s.value) else 0
  }

  function ElseDepth(e: Otherwise): nat
    decreases e, 0
  {
    if e.Present? then SeqDepth(e.body) else 0
  }

  function ArmsDepth(arms: seq<Arm>): nat
    decreases arms, 0
  {
    if arms == [] then 0 else Max(SeqDepth(arms[0].body), ArmsDepth(arms[1..]))
  }

  function CasesDepth(cases: seq<Case>): nat
    decreases cases, 0
  {
    if cases == [] then 0 else Max(SeqDepth(cases[0].body), CasesDepth(cases[1..]))
  }

  /** No switch at any depth. */
  predicate Switchless(s: Stmt) {
    match s
    case If(arms, e) => (forall a | a in arms :: SwitchlessIn(a.body)) && (e.Present? ==> SwitchlessIn(e.body))
    case DoWhile(body, _) => SwitchlessIn(body)
    case Scope(body) => SwitchlessIn(body)
    case While(_, body) => SwitchlessIn(body)
    case For(start, _, repeat, body) =>
      && (start.Some? ==> Switchless(start.value)) && (repeat.Some? ==> Switchless(repeat.value))
      && SwitchlessIn(body)
    case Foreach(_, _, _, body) => SwitchlessIn(body)
    case ForeachIn(_, _, _, _, body) => SwitchlessIn(body)
    case Switch(_, _, _, _) => false
    case _ => true
  }

  predicate SwitchlessIn(ss: seq<Stmt>) { forall s | s in ss :: Switchless(s) }

  /** Without switches nothing is doubled. */
  lemma {:induction false} SwitchlessIsFlat(s: Stmt)
    requires Switchless(s)
    ensures Depth(s) == 0
    decreases s, 1
  {
    match s
    case If(arms, e) =>
      ArmsAreFlat(arms);
      if e.Present? { SwitchlessInIsFlat(e.body); }
    case DoWhile(body, _) => SwitchlessInIsFlat(body);
    case Scope(body) => SwitchlessInIsFlat(body);
    case While(_, body) => SwitchlessInIsFlat(body);
    case For(start, _, repeat, body) =>
      if start.Some? { SwitchlessIsFlat(start.value); }
      if repeat.Some? { SwitchlessIsFlat(repeat.value); }
      SwitchlessInIsFlat(body);
    case Foreach(_, _, _, body) => SwitchlessInIsFlat(body);
    case ForeachIn(_, _, _, _, body) => SwitchlessInIsFlat(body);
    case _ =>
  }

  lemma {:induction false} SwitchlessInIsFlat(ss: seq<Stmt>)
    requires SwitchlessIn(ss)
    ensures SeqDepth(ss) == 0
    decreases ss, 0
  {
    if ss != [] {
      SwitchlessIsFlat(ss[0]);
      SwitchlessInIsFlat(ss[1..]);
    }
  }

  lemma {:induction false} ArmsAreFlat(arms: seq<Arm>)
    requires forall a | a in arms :: SwitchlessIn(a.body)
    ensures ArmsDepth(arms) == 0
    decreases arms, 0
  {
    if arms != [] {
      SwitchlessInIsFlat(arms[0].body);
      ArmsAreFlat(arms[1..]);
    }
  }

  // ----- weight against count -----

  /** Six statements for one, doubled at every level of first cases. */
  function Factor(d: nat): (f: nat)
    ensures f >= 6
  {
    if d == 0 then 6 else 2 * Factor(d - 1)
  }

  lemma Distribute(f: nat, a: nat, b: nat)
    ensures f * (a + b) == f * a + f * b
  {
  }

  lemma OneMore(f: nat, k: nat, a: nat)
    requires k <= 6 <= f
    ensures k + f * a <= f * (1 + a)
  {
  }

  lemma SumBounded(f: nat, k: nat, x: nat, a: nat, y: nat, b: nat)
    requires k <= 6 <= f && x <= f * a && y <= f * b
    ensures k + x + y <= f * (1 + a + b)
  {
    Distribute(f, a, b);
    OneMore(f, k, a + b);
  }

  lemma {:induction false} WeightBounded(s: Stmt, d: nat)
    requires Depth(s) <= d
    ensures Weight(s) <= Factor(d) * Count(s)
    decreases s, 1
  {
    match s
    case If(arms, e) =>
      ArmsWeightBounded(arms, d);
      ElseWeightBounded(e, d);
      SumBounded(Factor(d), 1, ArmsWeight(arms), ArmsCount(arms), ElseWeight(e), ElseCount(e));
    case DoWhile(body, _) => BodyBounded(body, d, 1);
    case Scope(body) => BodyBounded(body, d, 1);
    case While(_, body) => BodyBounded(body, d, 2);
    case For(_, _, _, _) => ForWeightBounded(s, d);
    case Foreach(_, _, _, body) => BodyBounded(body, d, 4);
    case ForeachIn(_, _, _, _, body) => BodyBounded(body, d, 6);
    case Switch(_, _, _, _) => SwitchWeightBounded(s, d);
    case _ => OneMore(Factor(d), 1, 0);
  }

  lemma {:induction false} ForWeightBounded(s: Stmt, d: nat)
    requires s.For? && Depth(s) <= d
    ensures Weight(s) <= Factor(d) * Count(s)
    decreases s, 0
  {
    OptWeightBounded(s.start, d);
    OptWeightBounded(s.repeat, d);
    SeqWeightBounded(s.body, d);
    Distribute(Factor(d), OptCount(s.start), OptCount(s.repeat));
    SumBounded(Factor(d), 3, OptWeight(s.start) + OptWeight(s.repeat), OptCount(s.start) + OptCount(s.repeat),
      SeqWeight(s.body), SeqCount(s.body));
  }

  lemma {:induction false} SwitchWeightBounded(s: Stmt, d: nat)
    requires s.Switch? && Depth(s) <= d
    ensures Weight(s) <= Factor(d) * Count(s)
    decreases s, 0
  {
    SwitchCasesBounded(s.cases, d);
    ElseWeightBounded(s.default, d);
    SumBounded(Factor(d), 1, (if s.cases == [] then 0 else SeqWeight(s.cases[0].body)) + CasesWeight(s.cases),
      CasesCount(s.cases), ElseWeight(s.default), ElseCount(s.default));
  }

  lemma {:induction false} BodyBounded(body: seq<Stmt>, d: nat, k: nat)
    requires SeqDepth(body) <= d && k <= 6
    ensures k + SeqWeight(body) <= Factor(d) * (1 + SeqCount(body))
    decreases body, 1
  {
    SeqWeightBounded(body, d);
    OneMore(Factor(d), k, SeqCount(body));
  }

  lemma {:induction false} SeqWeightBounded(ss: seq<Stmt>, d: nat)
    requires SeqDepth(ss) <= d
    ensures SeqWeight(ss) <= Factor(d) * SeqCount(ss)
    decreases ss, 0
  {
    if ss != [] {
      WeightBounded(ss[0], d);
      SeqWeightBounded(ss[1..], d);
      Distribute(Factor(d), Count(ss[0]), SeqCount(ss[1..]));
    }
  }

  lemma {:induction false} OptWeightBounded(s: Option<Stmt>, d: nat)
    requires OptDepth(s) <= d
    ensures OptWeight(s) <= Factor(d) * OptCount(s)
    decreases s, 0
  {
    if s.Some? { WeightBounded(s.value, d); }
  }

  lemma {:induction false} ElseWeightBounded(e: Otherwise, d: nat)
    requires ElseDepth(e) <= d
    ensures ElseWeight(e) <= Factor(d) * ElseCount(e)
    decreases e, 0
  {
    if e.Present? { SeqWeightBounded(e.body, d); }
  }

  lemma {:induction false} ArmsWeightBounded(arms: seq<Arm>, d: nat)
    requires ArmsDepth(arms) <= d
    ensures ArmsWeight(arms) <= Factor(d) * ArmsCount(arms)
    decreases arms, 0
  {
    if arms != [] {
      SeqWeightBounded(arms[0].body, d);
      ArmsWeightBounded(arms[1..], d);
      Distribute(Factor(d), SeqCount(arms[0].body), ArmsCount(arms[1..]));
    }
  }

  lemma {:induction false} CasesWeightBounded(cases: seq<Case>, d: nat)
    requires CasesDepth(cases) <= d
    ensures CasesWeight(cases) <= Factor(d) * CasesCount(cases)
    decreases cases, 0
  {
    if cases != [] {
      SeqWeightBounded(cases[0].body, d);
      CasesWeightBounded(cases[1..], d);
      Distribute(Factor(d), SeqCount(cases[0].body), CasesCount(cases[1..]));
    }
  }

  /** The first case is paid twice, but nests one level less deep. */
  lemma {:induction false} SwitchCasesBounded(cases: seq<Case>, d: nat)
    requires CasesDepth(cases) <= d && (cases != [] ==> 1 + SeqDepth(cases[0].body) <= d)
    ensures (if cases == [] then 0 else SeqWeight(cases[0].body)) + CasesWeight(cases) <= Factor(d) * CasesCount(cases)
    decreases cases, 1
  {
    if cases != [] {
      var first := SeqCount(cases[0].body);
      SeqWeightBounded(cases[0].body, d - 1);
      CasesWeightBounded(cases[1..], d);
      Distribute(Factor(d), first, CasesCount(cases[1..]));
      Twice(Factor(d - 1), first);
    }
  }

  lemma Twice(f: nat, a: nat)
    ensures f * a + f * a == (2 * f) * a
  {
  }

  // ----- the pass does not make anything heavier -----

  lemma {:induction false} CountIsWeight(s: Stmt)
    ensures Count(s) <= Weight(s)
    decreases s, 1
  {
    match s
    case If(arms, e) =>
      ArmsCountIsWeight(arms);
      ElseCountIsWeight(e);
    case DoWhile(body, _) => SeqCountIsWeight(body);
    case Scope(body) => SeqCountIsWeight(body);
    case While(_, body) => SeqCountIsWeight(body);
    case For(start, _, repeat, body) =>
      if start.Some? { CountIsWeight(start.value); }
      if repeat.Some? { CountIsWeight(repeat.value); }
      SeqCountIsWeight(body);
    case Foreach(_, _, _, body) => SeqCountIsWeight(body);
    case ForeachIn(_, _, _, _, body) => SeqCountIsWeight(body);
    case Switch(_, _, cases, e) =>
      CasesCountIsWeight(cases);
      ElseCountIsWeight(e);
    case _ =>
  }

  lemma {:induction false} SeqCountIsWeight(ss: seq<Stmt>)
    ensures SeqCount(ss) <= SeqWeight(ss)
    decreases ss, 0
  {
    if ss != [] {
      CountIsWeight(ss[0]);
      SeqCountIsWeight(ss[1..]);
    }
  }

  lemma {:induction false} ElseCountIsWeight(e: Otherwise)
    ensures ElseCount(e) <= ElseWeight(e)
    decreases e, 0
  {
    if e.Present? { SeqCountIsWeight(e.body); }
  }

  lemma {:induction false} ArmsCountIsWeight(arms: seq<Arm>)
    ensures ArmsCount(arms) <= ArmsWeight(arms)
    decreases arms, 0
  {
    if arms != [] {
      SeqCountIsWeight(arms[0].body);
      ArmsCountIsWeight(arms[1..]);
    }
  }

  lemma {:induction false} CasesCountIsWeight(cases: seq<Case>)
    ensures CasesCount(cases) <= CasesWeight(cases)
    decreases cases, 0
  {
    if cases != [] {
      SeqCountIsWeight(cases[0].body);
      CasesCountIsWeight(cases[1..]);
    }
  }

  /** A replacement is not rewritten again, unless it is a switch nothing can be made of. */
  lemma ReplacementKind(s: Stmt)
    ensures var t := Replacement(s); IsSugar(t) ==> t.Switch? && !SwitchOk(t)
  {
  }

  lemma {:induction false} LoweredWeight(s: Stmt)
    ensures Weight(Lowered(s)) <= Weight(s)
    decreases Weight(s), 0
  {
    var t := Replacement(s);
    ReplacementWeight(s);
    LoweredReplacement(s);
    ReplacementKind(s);
    match t
    case If(arms, e) =>
      LoweredArmsWeight(arms, LoweredArms(t, arms));
      if e.Present? { LoweredSeqWeight(e.body); }
    case DoWhile(body, _) => LoweredSeqWeight(body);
    case Scope(body) => LoweredSeqWeight(body);
    case _ =>
  }

  lemma {:induction false} LoweredSeqWeight(ss: seq<Stmt>)
    ensures SeqWeight(LoweredSeq(ss)) <= SeqWeight(ss)
    decreases SeqWeight(ss), 1, |ss|
  {
    if ss != [] {
      LoweredWeight(ss[0]);
      LoweredSeqWeight(ss[1..]);
      assert LoweredSeq(ss)[1..] == LoweredSeq(ss[1..]);
    }
  }

  lemma {:induction false} LoweredArmsWeight(arms: seq<Arm>, lowered: seq<Arm>)
    requires |lowered| == |arms| && forall k | 0 <= k < |arms| :: lowered[k].body == LoweredSeq(arms[k].body)
    ensures ArmsWeight(lowered) <= ArmsWeight(arms)
    decreases ArmsWeight(arms), 2, |arms|
  {
    if arms != [] {
      LoweredSeqWeight(arms[0].body);
      LoweredArmsWeight(arms[1..], lowered[1..]);
    }
  }

  lemma {:induction false} FactorIsPower(d: nat)
    ensures Factor(d) == 6 * Power(d)
  {
    if d > 0 { FactorIsPower(d - 1); }
  }

  /**
   * The pass leaves at most six statements for one, twice as many for every
   * level of switches nested in first cases.
   */
  lemma LoweredIsBounded(ss: seq<Stmt>)
    ensures SeqCount(LoweredSeq(ss)) <= (6 * Power(SeqDepth(ss))) * SeqCount(ss)
  {
    FactorIsPower(SeqDepth(ss));
    SeqCountIsWeight(LoweredSeq(ss));
    LoweredSeqWeight(ss);
    SeqWeightBounded(ss, SeqDepth(ss));
  }

  // ----- the doubling is real -----

  /** n switches, each the only statement of the first case of the one around it. */
  function Tower(v: Value, c: Value, n: nat): Stmt {
    if n == 0 then ValueStmt(v) else Switch(IntSwitch, v, [Case(c, [Tower(v, c, n - 1)])], Absent)
  }

  function Power(n: nat): nat { if n == 0 then 1 else 2 * Power(n - 1) }

  lemma OneBody(s: Stmt)
    ensures SeqCount([s]) == Count(s)
  {
  }

  lemma {:induction false} TowerCount(v: Value, c: Value, n: nat)
    ensures Count(Tower(v, c, n)) == n + 1
  {
    if n > 0 {
      var s := Tower(v, c, n);
      TowerCount(v, c, n - 1);
      OneBody(Tower(v, c, n - 1));
      assert CasesCount(s.cases[1..]) == 0;
    }
  }

  lemma TwoArms(body: seq<Stmt>, cond: Value)
    ensures ArmsCount([Arm(cond, body), Arm(cond, body)]) == 2 * SeqCount(body)
  {
    var arms := [Arm(cond, body), Arm(cond, body)];
    assert arms[1..][1..] == [] && arms[1..][0].body == body;
    assert ArmsCount(arms[1..]) == SeqCount(body);
  }

  lemma LoweredTower(v: Value, c: Value, n: nat, arm: Arm)
    requires n > 0 && arm == Arm(CaseCondition(IntSwitch, v, c), [Lowered(Tower(v, c, n - 1))])
    ensures Lowered(Tower(v, c, n)) == If([arm, arm], Absent)
  {
    var s := Tower(v, c, n);
    assert LoweredSeq([Tower(v, c, n - 1)]) == [Lowered(Tower(v, c, n - 1))];
    assert LoweredCases(s, s.cases) == [arm];
  }

  lemma {:induction false} TowerDepth(v: Value, c: Value, n: nat)
    ensures Depth(Tower(v, c, n)) == n
  {
    if n > 0 {
      TowerDepth(v, c, n - 1);
      var inner := Tower(v, c, n - 1);
      assert SeqDepth([inner]) == Max(Depth(inner), SeqDepth([])) by { assert [inner][1..] == []; }
      assert CasesDepth(Tower(v, c, n).cases[1..]) == 0;
    }
  }

  /** A tower of n switches, n + 1 statements in all, becomes exponentially large. */
  lemma {:induction false} TowerExplodes(v: Value, c: Value, n: nat)
    ensures Count(Tower(v, c, n)) == n + 1 && Depth(Tower(v, c, n)) == n
    ensures Count(Lowered(Tower(v, c, n))) == 2 * Power(n) - 1
  {
    TowerCount(v, c, n);
    TowerDepth(v, c, n);
    if n > 0 {
      var inner := Lowered(Tower(v, c, n - 1));
      var arm := Arm(CaseCondition(IntSwitch, v, c), [inner]);
      TowerExplodes(v, c, n - 1);
      LoweredTower(v, c, n, arm);
      OneBody(inner);
      TwoArms([inner], arm.cond);
    }
  }
}
