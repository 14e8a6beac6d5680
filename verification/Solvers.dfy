/** The two backward engines as they are written: tables updated in place, and a flag. */
module Solvers {
  import opened DataFlow

  /** A statement's uid: no two statements of a function share one. */
  datatype Uid = Uid(block: nat, index: nat)

  type StatementTable<T> = map<Uid, Domain<T>>

  function GetS<T>(m: StatementTable<T>, u: Uid): Domain<T> { if u in m then m[u] else Top }

  /**
   * Replaces a table entry; the flag is raised when the two sizes differ. A top
   * entry overwrites the flag: another top would even take an earlier change back.
   */
  method Assign<T(==, !new)>(p: Problem<T>, current: Domain<T>, value: Domain<T>, changes: bool)
    returns (entry: Domain<T>, flag: bool)
    requires current.Elems? ==> value.Elems?
    ensures entry == value
    ensures flag == SizeFlag(p, current, value, changes)
  {
    flag := changes;
    if current.Top? {
      flag := !value.Top?;
    } else if p.size(current.s) != p.size(value.s) {
      flag := true;
    }
    entry := value;
  }

  /** The results of the engine that also records the sets around each statement. */
  class BackwardResults<T(==, !new)> {
    var IN: Table<T>
    var OUT: Table<T>
    var IN_S: StatementTable<T>
    var OUT_S: StatementTable<T>

    constructor ()
      ensures IN == map[] && OUT == map[] && IN_S == map[] && OUT_S == map[]
    {
      IN, OUT, IN_S, OUT_S := map[], map[], map[], map[];
    }

    /** The statement tables of block b hold what its OUT set, carried backwards, gives. */
    ghost predicate StatementsOk(g: Cfg, p: Problem<T>, b: nat)
      requires b < |g.blocks|
      reads this
    {
      Holds(p, b, g.blocks[b].stmts, Get(OUT, b), IN_S, OUT_S)
    }

    ghost predicate Valid(g: Cfg, p: Problem<T>, universe: set<T>)
      reads this
    {
      && Running(g, p, universe, IN, OUT)
      && forall b | 0 <= b < |g.blocks| && b != g.exit :: StatementsOk(g, p, b)
    }

    /** The sets at the boundary and at every other block before the first round. */
    method Initialize(g: Cfg, p: Problem<T>, ghost universe: set<T>, order: seq<nat>)
      requires WellFormed(g) && Monotone(p, universe) && StartsLow(g, p) && Visits(g, order)
      requires IN == map[] && OUT == map[] && IN_S == map[] && OUT_S == map[]
      modifies this
      ensures Valid(g, p, universe)
    {
      IN := IN[g.exit := Elems(p.boundary)];
      for i := 0 to |order|
        invariant OUT == map[] && IN_S == map[] && OUT_S == map[]
        invariant Get(IN, g.exit) == Elems(p.boundary)
        invariant forall j | 0 <= j < i && order[j] != g.exit :: Get(IN, order[j]) == Elems(p.init)
      {
        if order[i] != g.exit {
          IN := IN[order[i] := Elems(p.init)];
        }
      }
      forall b | 0 <= b < |g.blocks| && b != g.exit ensures Get(IN, b) == Elems(p.init) {
        assert b in order;
      }
      StartRuns(g, p, universe, IN);
    }

    /** The OUT set of a block is that of its last statement. */
    method CarryLast(p: Problem<T>, b: nat, stmts: seq<nat>, out: Domain<T>, ghost before: Domain<T>, changes: bool)
      returns (flag: bool)
      requires |stmts| > 0 && out.Elems? && Holds(p, b, stmts, before, IN_S, OUT_S)
      modifies this`OUT_S
      ensures Carrying(p, b, stmts, out.s, |stmts| - 1, IN_S, old(OUT_S), IN_S, OUT_S)
      ensures changes ==> flag
      ensures flag && !changes ==> out != before
    {
      var i := |stmts| - 1;
      assert GetS(OUT_S, Uid(b, i)) == Carry(p, stmts, i + 1, before) == before;
      var entry;
      entry, flag := Assign(p, GetS(OUT_S, Uid(b, i)), out, changes);
      OUT_S := OUT_S[Uid(b, i) := entry];
    }

    /** Carries a block's OUT set through its statements, from the last to the first. */
    method CarryBack(p: Problem<T>, b: nat, stmts: seq<nat>, out: Domain<T>, ghost before: Domain<T>, changes: bool)
      returns (value: Domain<T>, flag: bool)
      requires |stmts| > 0 && out.Elems? && Holds(p, b, stmts, before, IN_S, OUT_S)
      modifies this`IN_S, this`OUT_S
      ensures value == Elems(Through(p, stmts, out.s)) && Holds(p, b, stmts, out, IN_S, OUT_S)
      ensures changes ==> flag
      ensures flag && !changes ==> out != before
      ensures SameOutside(b, old(IN_S), old(OUT_S), IN_S, OUT_S)
    {
      flag := CarryLast(p, b, stmts, out, before, changes);
      var i := |stmts| - 1;
      while i > 0
        invariant 0 <= i < |stmts|
        invariant Carrying(p, b, stmts, out.s, i, old(IN_S), old(OUT_S), IN_S, OUT_S)
        invariant changes ==> flag
        invariant flag && !changes ==> out != before
      {
        CarryingStep(p, b, stmts, out.s, i, old(IN_S), old(OUT_S), IN_S, OUT_S);
        flag := CarryStatement(p, Uid(b, i), stmts[i], flag);
        OUT_S := OUT_S[Uid(b, i - 1) := GetS(IN_S, Uid(b, i))];
        i := i - 1;
      }
      CarryingDone(p, b, stmts, out.s, old(IN_S), old(OUT_S), IN_S, OUT_S);
      flag := CarryStatement(p, Uid(b, 0), stmts[0], flag);
      value := GetS(IN_S, Uid(b, 0));
    }

    /** Transfers one statement. */
    method CarryStatement(p: Problem<T>, u: Uid, stmt: nat, changes: bool) returns (flag: bool)
      requires GetS(OUT_S, u).Elems?
      modifies this`IN_S
      ensures IN_S == old(IN_S)[u := Elems(p.transfer(stmt, GetS(OUT_S, u).s))]
      ensures flag <==> (GetS(old(IN_S), u).Top? || changes
                         || p.size(GetS(old(IN_S), u).s) != p.size(p.transfer(stmt, GetS(OUT_S, u).s)))
    {
      var entry;
      entry, flag := Assign(p, GetS(IN_S, u), Elems(p.transfer(stmt, GetS(OUT_S, u).s)), changes);
      IN_S := IN_S[u := entry];
    }

    /** Meets OUT[b] with IN[s] and carries the result backwards through b. */
    method VisitEdge(g: Cfg, p: Problem<T>, ghost universe: set<T>, b: nat, s: nat, changes: bool) returns (flag: bool)
      requires Valid(g, p, universe) && b < |g.blocks| && b != g.exit && s in g.blocks[b].succs
      modifies this
      ensures IN == StepIns(g, p, old(IN), old(OUT), b, s)
      ensures OUT == StepOuts(old(IN), old(OUT), b, s)
      ensures Valid(g, p, universe)
      ensures changes ==> flag
      ensures !flag ==> Get(IN, b) == Get(old(IN), b)
      ensures flag && !changes ==> Get(IN, b) != Get(old(IN), b) || Get(OUT, b) != Get(old(OUT), b)
    {
      StepGrows(g, p, universe, IN, OUT, b, s);
      StepRuns(g, p, universe, IN, OUT, b, s);
      assert BlockOk(g, p, universe, IN, OUT, b) && StatementsOk(g, p, b);
      ghost var before := Get(OUT, b);
      var stmts := g.blocks[b].stmts;
      OUT := OUT[b := Meet(Get(OUT, b), Get(IN, s))];
      var out := Get(OUT, b);
      ThroughMonotone(p, universe, stmts, ElemsOf(before), out.s);
      var value := out;
      flag := changes;
      if |stmts| > 0 {
        value, flag := CarryBack(p, b, stmts, out, before, flag);
      }
      var entry;
      entry, flag := Assign(p, Get(IN, b), value, flag);
      IN := IN[b := entry];
      assert Separates(p, Get(old(IN), b).s, Get(IN, b).s);
      forall c | 0 <= c < |g.blocks| && c != g.exit ensures StatementsOk(g, p, c) {
        if c != b {
          assert old(StatementsOk(g, p, c));
          HoldsElsewhere(p, b, c, g.blocks[c].stmts, Get(OUT, c), old(IN_S), old(OUT_S), IN_S, OUT_S);
        }
      }
    }

    /** One round over the blocks: the flag says whether another one is needed. */
    method Round(g: Cfg, p: Problem<T>, ghost universe: set<T>, order: seq<nat>) returns (changes: bool)
      requires Valid(g, p, universe) && Visits(g, order)
      modifies this
      ensures Valid(g, p, universe)
      ensures FlagOk(g, old(IN), old(OUT), IN, OUT, changes)
      ensures !changes ==> forall b | 0 <= b < |g.blocks| :: BlockDone(g, IN, OUT, b)
    {
      changes := false;
      for i := 0 to |order|
        invariant Valid(g, p, universe)
        invariant FlagOk(g, old(IN), old(OUT), IN, OUT, changes)
        invariant !changes ==> AllDone(g, IN, OUT, order[..i])
      {
        var b := order[i];
        assert b in order;
        if b != g.exit {
          var succs := g.blocks[b].succs;
          for k := 0 to |succs|
            invariant Valid(g, p, universe)
            invariant FlagOk(g, old(IN), old(OUT), IN, OUT, changes)
            invariant !changes ==> AllDone(g, IN, OUT, order[..i])
            invariant !changes ==> forall j | 0 <= j < k :: EdgeDone(IN, OUT, b, succs[j])
          {
            assert succs[k] in succs;
            ghost var ins, outs, before := IN, OUT, changes;
            StepGrows(g, p, universe, IN, OUT, b, succs[k]);
            changes := VisitEdge(g, p, universe, b, succs[k], changes);
            FlagAfterStep(g, p, old(IN), old(OUT), ins, outs, IN, OUT, b, succs[k], before, changes);
            if !changes { DoneAfterStep(g, order[..i], ins, outs, IN, OUT, b, succs, k); }
          }
        }
        assert order[..i + 1] == order[..i] + [b];
      }
      assert order[..|order|] == order;
      if !changes {
        forall b | 0 <= b < |g.blocks| ensures BlockDone(g, IN, OUT, b) {
          assert b in order;
        }
      }
    }

    /** Rounds until nothing changes: the result is the least solution. */
    method BackwardDataFlow(g: Cfg, p: Problem<T>, ghost universe: set<T>, order: seq<nat>)
      requires WellFormed(g) && Monotone(p, universe) && StartsLow(g, p) && Visits(g, order)
      requires IN == map[] && OUT == map[] && IN_S == map[] && OUT_S == map[]
      modifies this
      ensures Solved(g, p, IN, OUT)
      ensures forall b | 0 <= b < |g.blocks| && b != g.exit :: StatementsOk(g, p, b)
    {
      Initialize(g, p, universe, order);
      var changes := true;
      while changes
        invariant Valid(g, p, universe)
        invariant !changes ==> forall b | 0 <= b < |g.blocks| :: BlockDone(g, IN, OUT, b)
        decreases AllFacts(g, universe) - Facts(g, IN, OUT), changes
      {
        ghost var ins, outs := IN, OUT;
        changes := Round(g, p, universe, order);
        FactsBounded(g, p, universe, IN, OUT);
        if changes {
          FactsGrow(g, ins, outs, IN, OUT);
        } else {
          FactsMonotone(g, ins, outs, IN, OUT);
        }
      }
      QuietRoundSolves(g, p, universe, IN, OUT);
    }
  }

  /** The results of the engine that only keeps the sets of the blocks. */
  class FastBackwardResults<T(==, !new)> {
    var IN: Table<T>
    var OUT: Table<T>

    constructor ()
      ensures IN == map[] && OUT == map[]
    {
      IN, OUT := map[], map[];
    }

    method Initialize(g: Cfg, p: Problem<T>, ghost universe: set<T>, order: seq<nat>)
      requires WellFormed(g) && Monotone(p, universe) && StartsLow(g, p) && Visits(g, order)
      requires IN == map[] && OUT == map[]
      modifies this
      ensures Running(g, p, universe, IN, OUT)
    {
      IN := IN[g.exit := Elems(p.boundary)];
      for i := 0 to |order|
        invariant OUT == map[] && Get(IN, g.exit) == Elems(p.boundary)
        invariant forall j | 0 <= j < i && order[j] != g.exit :: Get(IN, order[j]) == Elems(p.init)
      {
        if order[i] != g.exit {
          IN := IN[order[i] := Elems(p.init)];
        }
      }
      forall b | 0 <= b < |g.blocks| && b != g.exit ensures Get(IN, b) == Elems(p.init) {
        assert b in order;
      }
      StartRuns(g, p, universe, IN);
    }

    /** Meets OUT[b] with IN[s]; the statements transform one set in place, which is then compared. */
    method VisitEdge(g: Cfg, p: Problem<T>, ghost universe: set<T>, b: nat, s: nat, changes: bool) returns (flag: bool)
      requires Running(g, p, universe, IN, OUT) && b < |g.blocks| && b != g.exit && s in g.blocks[b].succs
      modifies this
      ensures IN == StepIns(g, p, old(IN), old(OUT), b, s)
      ensures OUT == StepOuts(old(IN), old(OUT), b, s)
      ensures Running(g, p, universe, IN, OUT)
      ensures flag <==> changes || Get(IN, b) != Get(old(IN), b)
    {
      StepGrows(g, p, universe, IN, OUT, b, s);
      StepRuns(g, p, universe, IN, OUT, b, s);
      OUT := OUT[b := Meet(Get(OUT, b), Get(IN, s))];
      var stmts := g.blocks[b].stmts;
      var out := Get(OUT, b).s;
      var i := |stmts|;
      while i > 0
        invariant 0 <= i <= |stmts|
        invariant out == From(p, stmts, i, Get(OUT, b).s)
      {
        i := i - 1;
        out := p.transfer(stmts[i], out);
      }
      flag := changes;
      if !changes && Get(IN, b) != Elems(out) {
        flag := true;
      }
      IN := IN[b := Elems(out)];
    }

    method Round(g: Cfg, p: Problem<T>, ghost universe: set<T>, order: seq<nat>) returns (changes: bool)
      requires Running(g, p, universe, IN, OUT) && Visits(g, order)
      modifies this
      ensures Running(g, p, universe, IN, OUT)
      ensures FlagOk(g, old(IN), old(OUT), IN, OUT, changes)
      ensures !changes ==> forall b | 0 <= b < |g.blocks| :: BlockDone(g, IN, OUT, b)
    {
      changes := false;
      for i := 0 to |order|
        invariant Running(g, p, universe, IN, OUT)
        invariant FlagOk(g, old(IN), old(OUT), IN, OUT, changes)
        invariant !changes ==> AllDone(g, IN, OUT, order[..i])
      {
        var b := order[i];
        assert b in order;
        if b != g.exit {
          var succs := g.blocks[b].succs;
          for k := 0 to |succs|
            invariant Running(g, p, universe, IN, OUT)
            invariant FlagOk(g, old(IN), old(OUT), IN, OUT, changes)
            invariant !changes ==> AllDone(g, IN, OUT, order[..i])
            invariant !changes ==> forall j | 0 <= j < k :: EdgeDone(IN, OUT, b, succs[j])
          {
            assert succs[k] in succs;
            ghost var ins, outs, before := IN, OUT, changes;
            StepGrows(g, p, universe, IN, OUT, b, succs[k]);
            changes := VisitEdge(g, p, universe, b, succs[k], changes);
            FlagAfterStep(g, p, old(IN), old(OUT), ins, outs, IN, OUT, b, succs[k], before, changes);
            if !changes { DoneAfterStep(g, order[..i], ins, outs, IN, OUT, b, succs, k); }
          }
        }
        assert order[..i + 1] == order[..i] + [b];
      }
      assert order[..|order|] == order;
      if !changes {
        forall b | 0 <= b < |g.blocks| ensures BlockDone(g, IN, OUT, b) {
          assert b in order;
        }
      }
    }

    method FastBackwardDataFlow(g: Cfg, p: Problem<T>, ghost universe: set<T>, order: seq<nat>)
      requires WellFormed(g) && Monotone(p, universe) && StartsLow(g, p) && Visits(g, order)
      requires IN == map[] && OUT == map[]
      modifies this
      ensures Solved(g, p, IN, OUT)
    {
      Initialize(g, p, universe, order);
      var changes := true;
      while changes
        invariant Running(g, p, universe, IN, OUT)
        invariant !changes ==> forall b | 0 <= b < |g.blocks| :: BlockDone(g, IN, OUT, b)
        decreases AllFacts(g, universe) - Facts(g, IN, OUT), changes
      {
        ghost var ins, outs := IN, OUT;
        changes := Round(g, p, universe, order);
        FactsBounded(g, p, universe, IN, OUT);
        if changes {
          FactsGrow(g, ins, outs, IN, OUT);
        } else {
          FactsMonotone(g, ins, outs, IN, OUT);
        }
      }
      QuietRoundSolves(g, p, universe, IN, OUT);
    }
  }

  /** Both engines give every block the same sets, whatever the order in which each visits the blocks. */
  method EnginesAgree<T(==, !new)>(
    g: Cfg, p: Problem<T>, ghost universe: set<T>, order: seq<nat>, fastOrder: seq<nat>, b: nat)
    returns (results: BackwardResults<T>, fast: FastBackwardResults<T>)
    requires WellFormed(g) && Monotone(p, universe) && StartsLow(g, p)
    requires Visits(g, order) && Visits(g, fastOrder) && b < |g.blocks|
    ensures Get(results.IN, b) == Get(fast.IN, b) && Get(results.OUT, b) == Get(fast.OUT, b)
  {
    results := new BackwardResults();
    fast := new FastBackwardResults();
    results.BackwardDataFlow(g, p, universe, order);
    fast.FastBackwardDataFlow(g, p, universe, fastOrder);
    SolvedIsUnique(g, p, results.IN, results.OUT, fast.IN, fast.OUT, b);
  }

  /** The set before statement i when `out` is the set after the last one. */
  function Carry<T(!new)>(p: Problem<T>, stmts: seq<nat>, i: nat, out: Domain<T>): Domain<T>
    requires i <= |stmts|
  {
    if out.Top? then Top else Elems(From(p, stmts, i, out.s))
  }

  /** The statement tables hold what a block's OUT set gives, or nothing yet. */
  ghost predicate Holds<T(!new)>(
    p: Problem<T>, b: nat, stmts: seq<nat>, out: Domain<T>, ins: StatementTable<T>, outs: StatementTable<T>) {
    forall i | 0 <= i < |stmts| ::
      && GetS(ins, Uid(b, i)) == Carry(p, stmts, i, out)
      && GetS(outs, Uid(b, i)) == Carry(p, stmts, i + 1, out)
  }

  ghost predicate SameOutside<T>(
    b: nat, ins0: StatementTable<T>, outs0: StatementTable<T>, ins: StatementTable<T>, outs: StatementTable<T>) {
    forall u: Uid | u.block != b :: GetS(ins, u) == GetS(ins0, u) && GetS(outs, u) == GetS(outs0, u)
  }

  lemma HoldsElsewhere<T(!new)>(
    p: Problem<T>, b: nat, c: nat, stmts: seq<nat>, out: Domain<T>,
    ins0: StatementTable<T>, outs0: StatementTable<T>, ins: StatementTable<T>, outs: StatementTable<T>)
    requires c != b && SameOutside(b, ins0, outs0, ins, outs) && Holds(p, c, stmts, out, ins0, outs0)
    ensures Holds(p, c, stmts, out, ins, outs)
  {
    forall i | 0 <= i < |stmts|
      ensures GetS(ins, Uid(c, i)) == Carry(p, stmts, i, out)
      ensures GetS(outs, Uid(c, i)) == Carry(p, stmts, i + 1, out)
    {
      assert GetS(ins, Uid(c, i)) == GetS(ins0, Uid(c, i)) && GetS(outs, Uid(c, i)) == GetS(outs0, Uid(c, i));
    }
  }

  /** The statement tables when the statements after the i-th have been carried. */
  ghost predicate Carrying<T(!new)>(
    p: Problem<T>, b: nat, stmts: seq<nat>, out: set<T>, i: nat,
    ins0: StatementTable<T>, outs0: StatementTable<T>, ins: StatementTable<T>, outs: StatementTable<T>)
    requires i < |stmts|
  {
    && GetS(outs, Uid(b, i)) == Elems(From(p, stmts, i + 1, out))
    && (forall j | i < j < |stmts| ::
          && GetS(ins, Uid(b, j)) == Elems(From(p, stmts, j, out))
          && GetS(outs, Uid(b, j)) == Elems(From(p, stmts, j + 1, out)))
    && (forall j | 0 <= j <= i :: GetS(ins, Uid(b, j)) == GetS(ins0, Uid(b, j)))
    && SameOutside(b, ins0, outs0, ins, outs)
  }

  lemma CarryingStep<T(!new)>(
    p: Problem<T>, b: nat, stmts: seq<nat>, out: set<T>, i: nat,
    ins0: StatementTable<T>, outs0: StatementTable<T>, ins: StatementTable<T>, outs: StatementTable<T>)
    requires 0 < i < |stmts| && Carrying(p, b, stmts, out, i, ins0, outs0, ins, outs)
    ensures var v := Elems(p.transfer(stmts[i], GetS(outs, Uid(b, i)).s));
      && GetS(ins, Uid(b, i)) == GetS(ins0, Uid(b, i))
      && v == Elems(From(p, stmts, i, out))
      && Carrying(p, b, stmts, out, i - 1, ins0, outs0, ins[Uid(b, i) := v], outs[Uid(b, i - 1) := v])
  {
    var v := Elems(p.transfer(stmts[i], GetS(outs, Uid(b, i)).s));
    var ins', outs' := ins[Uid(b, i) := v], outs[Uid(b, i - 1) := v];
    assert v == Elems(From(p, stmts, i, out));
    forall j | i - 1 < j < |stmts|
      ensures GetS(ins', Uid(b, j)) == Elems(From(p, stmts, j, out))
      ensures GetS(outs', Uid(b, j)) == Elems(From(p, stmts, j + 1, out))
    {
      if j != i { assert GetS(ins', Uid(b, j)) == GetS(ins, Uid(b, j)); }
    }
  }

  lemma CarryingDone<T(!new)>(
    p: Problem<T>, b: nat, stmts: seq<nat>, out: set<T>,
    ins0: StatementTable<T>, outs0: StatementTable<T>, ins: StatementTable<T>, outs: StatementTable<T>)
    requires 0 < |stmts| && Carrying(p, b, stmts, out, 0, ins0, outs0, ins, outs)
    ensures var v := Elems(p.transfer(stmts[0], GetS(outs, Uid(b, 0)).s));
      && GetS(ins, Uid(b, 0)) == GetS(ins0, Uid(b, 0))
      && v == Elems(Through(p, stmts, out))
      && Holds(p, b, stmts, Elems(out), ins[Uid(b, 0) := v], outs)
      && SameOutside(b, ins0, outs0, ins[Uid(b, 0) := v], outs)
  {
  }

  ghost predicate AllDone<T>(g: Cfg, ins: Table<T>, outs: Table<T>, visited: seq<nat>) {
    forall c | c in visited :: c < |g.blocks| && BlockDone(g, ins, outs, c)
  }

  /** The flag still means what it should after one more step. */
  lemma FlagAfterStep<T(!new)>(
    g: Cfg, p: Problem<T>, i0: Table<T>, o0: Table<T>, i1: Table<T>, o1: Table<T>, i2: Table<T>, o2: Table<T>,
    b: nat, s: nat, before: bool, after: bool)
    requires FlagOk(g, i0, o0, i1, o1, before) && Filled(g, i0) && Filled(g, i1)
    requires b < |g.blocks| && i2 == StepIns(g, p, i1, o1, b, s) && o2 == StepOuts(i1, o1, b, s)
    requires Grown(g, i1, o1, i2, o2)
    requires before ==> after
    requires !after ==> Get(i2, b) == Get(i1, b)
    requires after && !before ==> Get(i2, b) != Get(i1, b) || Get(o2, b) != Get(o1, b)
    ensures FlagOk(g, i0, o0, i2, o2, after)
  {
    GrownTrans(g, i0, o0, i1, o1, i2, o2);
    if after && !before { assert Changed(g, i1, o1, i2, o2); }
  }

  /** Done edges and blocks stay done through a step that leaves the flag clear. */
  lemma DoneAfterStep<T(!new)>(
    g: Cfg, visited: seq<nat>, i1: Table<T>, o1: Table<T>, i2: Table<T>, o2: Table<T>, b: nat, succs: seq<nat>, k: nat)
    requires WellFormed(g) && Grown(g, i1, o1, i2, o2) && SameIns(g, i1, i2)
    requires b < |g.blocks| && succs == g.blocks[b].succs && k < |succs|
    requires AllDone(g, i1, o1, visited)
    requires forall j | 0 <= j < k :: EdgeDone(i1, o1, b, succs[j])
    requires EdgeDone(i2, o2, b, succs[k])
    ensures AllDone(g, i2, o2, visited)
    ensures forall j | 0 <= j < k + 1 :: EdgeDone(i2, o2, b, succs[j])
  {
    forall c | c in visited ensures BlockDone(g, i2, o2, c) {
      if c != g.exit {
        forall s | s in g.blocks[c].succs ensures EdgeDone(i2, o2, c, s) {
          EdgeStaysDone(g, i1, o1, i2, o2, c, s);
        }
      }
    }
    forall j | 0 <= j < k ensures EdgeDone(i2, o2, b, succs[j]) {
      assert succs[j] in succs;
      EdgeStaysDone(g, i1, o1, i2, o2, b, succs[j]);
    }
  }
}
