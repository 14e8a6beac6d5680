/**
 * The backward data-flow engines on union-meet problems: what they compute is
 * the least solution of the flow equations, in whatever order the blocks are
 * visited.
 */
module DataFlow {
  /** A basic block: its successors and its statements, which only the problem looks into. */
  datatype Block = Block(succs: seq<nat>, stmts: seq<nat>)

  datatype Cfg = Cfg(blocks: seq<Block>, exit: nat)

  /** Top is the value of a map entry nobody has written. */
  datatype Domain<T> = Top | Elems(s: set<T>)

  type Table<T> = map<nat, Domain<T>>

  datatype Problem<!T(!new)> = Problem(
    boundary: set<T>,
    init: set<T>,
    transfer: (nat, set<T>) -> set<T>,
    size: set<T> -> nat)

  ghost predicate WellFormed(g: Cfg) {
    && g.exit < |g.blocks|
    && (forall b, s | 0 <= b < |g.blocks| && s in g.blocks[b].succs :: s < |g.blocks|)
  }

  /** The order in which a round visits the blocks: all of them. */
  ghost predicate Visits(g: Cfg, order: seq<nat>) {
    (forall b | b in order :: b < |g.blocks|) && (forall b | 0 <= b < |g.blocks| :: b in order)
  }

  /** A monotone problem over subsets of `universe`; `size` tells a set from its proper subsets. */
  ghost predicate Monotone<T(!new)>(p: Problem<T>, universe: set<T>) {
    && p.init <= universe && p.boundary <= universe
    && (forall u, x, y :: Rises(p, u, x, y))
    && (forall u, x :: StaysWithin(p, universe, u, x))
    && (forall x, y :: Separates(p, x, y))
  }

  predicate Rises<T(!new)>(p: Problem<T>, u: nat, x: set<T>, y: set<T>) {
    x <= y ==> p.transfer(u, x) <= p.transfer(u, y)
  }

  predicate StaysWithin<T(!new)>(p: Problem<T>, universe: set<T>, u: nat, x: set<T>) {
    x <= universe ==> p.transfer(u, x) <= universe
  }

  predicate Separates<T(!new)>(p: Problem<T>, x: set<T>, y: set<T>) {
    x < y ==> p.size(x) != p.size(y)
  }

  // ----- the equations -----

  function Get<T>(m: Table<T>, k: nat): Domain<T> { if k in m then m[k] else Top }

  function ElemsOf<T>(d: Domain<T>): set<T> { if d.Elems? then d.s else {} }

  function Meet<T>(d: Domain<T>, e: Domain<T>): Domain<T> {
    if e.Top? then d else if d.Top? then e else Elems(d.s + e.s)
  }

  /** The statements of a block from the last down to the k-th. */
  function From<T(!new)>(p: Problem<T>, stmts: seq<nat>, k: nat, out: set<T>): set<T>
    requires k <= |stmts|
    decreases |stmts| - k
  {
    if k == |stmts| then out else p.transfer(stmts[k], From(p, stmts, k + 1, out))
  }

  function Through<T(!new)>(p: Problem<T>, stmts: seq<nat>, out: set<T>): set<T> { From(p, stmts, 0, out) }

  /** The union over the successors. */
  function Join<T>(ins: Table<T>, succs: seq<nat>): set<T> {
    set s, t | s in succs && t in ElemsOf(Get(ins, s)) :: t
  }

  /** Blocks the engines update: all but the exit and those without successor. */
  predicate Updated(g: Cfg, b: nat)
    requires b < |g.blocks|
  {
    b != g.exit && g.blocks[b].succs != []
  }

  ghost predicate Filled<T>(g: Cfg, ins: Table<T>) {
    forall b | 0 <= b < |g.blocks| :: Get(ins, b).Elems?
  }

  /** x satisfies the equations as inclusions. */
  ghost predicate Solves<T(!new)>(g: Cfg, p: Problem<T>, x: Table<T>) {
    && Filled(g, x)
    && (g.exit < |g.blocks| ==> p.boundary <= Get(x, g.exit).s)
    && (forall b | 0 <= b < |g.blocks| && Updated(g, b) ::
          Through(p, g.blocks[b].stmts, Join(x, g.blocks[b].succs)) <= Get(x, b).s)
    && (forall b | 0 <= b < |g.blocks| && b != g.exit && !Updated(g, b) :: p.init <= Get(x, b).s)
  }

  /** Blocks start no higher than their transfer of the empty set; so it is when `init` is empty. */
  ghost predicate StartsLow<T(!new)>(g: Cfg, p: Problem<T>) {
    forall b | 0 <= b < |g.blocks| && Updated(g, b) :: p.init <= Through(p, g.blocks[b].stmts, {})
  }

  ghost predicate Below<T>(g: Cfg, x: Table<T>, y: Table<T>) {
    forall b | 0 <= b < |g.blocks| :: ElemsOf(Get(x, b)) <= ElemsOf(Get(y, b))
  }

  ghost predicate Least<T(!new)>(g: Cfg, p: Problem<T>, ins: Table<T>) {
    && Solves(g, p, ins)
    && forall x | Solves(g, p, x) :: Below(g, ins, x)
  }

  /** What an engine has computed when it stops. */
  ghost predicate Solved<T(!new)>(g: Cfg, p: Problem<T>, ins: Table<T>, outs: Table<T>) {
    && Least(g, p, ins)
    && (forall b | 0 <= b < |g.blocks| && Updated(g, b) ::
          && Get(outs, b) == Elems(Join(ins, g.blocks[b].succs))
          && Get(ins, b) == Elems(Through(p, g.blocks[b].stmts, Join(ins, g.blocks[b].succs))))
    && (forall b | 0 <= b < |g.blocks| && !Updated(g, b) ::
          && Get(outs, b) == Top
          && Get(ins, b) == Elems(if b == g.exit then p.boundary else p.init))
  }

  /** Two engines that both stop there agree on every block. */
  lemma SolvedIsUnique<T(!new)>(
    g: Cfg, p: Problem<T>, ins: Table<T>, outs: Table<T>, ins': Table<T>, outs': Table<T>, b: nat)
    requires WellFormed(g) && Solved(g, p, ins, outs) && Solved(g, p, ins', outs') && b < |g.blocks|
    ensures Get(ins, b) == Get(ins', b) && Get(outs, b) == Get(outs', b)
  {
    assert Below(g, ins, ins') && Below(g, ins', ins);
    forall c | 0 <= c < |g.blocks| ensures Get(ins, c) == Get(ins', c) {
      assert ElemsOf(Get(ins, c)) == ElemsOf(Get(ins', c));
    }
    if Updated(g, b) {
      var succs := g.blocks[b].succs;
      assert forall s | s in succs :: Get(ins, s) == Get(ins', s);
      assert Join(ins, succs) == Join(ins', succs);
    }
  }

  /** The start of the iteration: the boundary at the exit, `init` elsewhere. */
  lemma StartRuns<T(!new)>(g: Cfg, p: Problem<T>, universe: set<T>, ins: Table<T>)
    requires WellFormed(g) && Monotone(p, universe) && StartsLow(g, p)
    requires forall b | 0 <= b < |g.blocks| :: Get(ins, b) == Elems(if b == g.exit then p.boundary else p.init)
    ensures Running(g, p, universe, ins, map[])
  {
    forall b | 0 <= b < |g.blocks| ensures BlockOk(g, p, universe, ins, map[], b) {}
    forall x | Solves(g, p, x) ensures Below(g, ins, x) {
      forall b | 0 <= b < |g.blocks| ensures ElemsOf(Get(ins, b)) <= ElemsOf(Get(x, b)) {
        if Updated(g, b) { ThroughMonotone(p, universe, g.blocks[b].stmts, {}, Join(x, g.blocks[b].succs)); }
      }
    }
  }

  // ----- one step: meet with one successor, then transfer -----

  function StepOut<T>(ins: Table<T>, outs: Table<T>, b: nat, s: nat): Domain<T> {
    Meet(Get(outs, b), Get(ins, s))
  }

  function StepOuts<T>(ins: Table<T>, outs: Table<T>, b: nat, s: nat): Table<T> {
    outs[b := StepOut(ins, outs, b, s)]
  }

  function StepIns<T(!new)>(g: Cfg, p: Problem<T>, ins: Table<T>, outs: Table<T>, b: nat, s: nat): Table<T>
    requires b < |g.blocks|
  {
    ins[b := Elems(Through(p, g.blocks[b].stmts, ElemsOf(StepOut(ins, outs, b, s))))]
  }

  /** What every step keeps. */
  ghost predicate Running<T(!new)>(g: Cfg, p: Problem<T>, universe: set<T>, ins: Table<T>, outs: Table<T>) {
    && WellFormed(g) && Monotone(p, universe) && StartsLow(g, p)
    && Filled(g, ins)
    && Get(ins, g.exit) == Elems(p.boundary)
    && (forall b | 0 <= b < |g.blocks| :: BlockOk(g, p, universe, ins, outs, b))
    && (forall x | Solves(g, p, x) :: Below(g, ins, x))
  }

  ghost predicate BlockOk<T(!new)>(g: Cfg, p: Problem<T>, universe: set<T>, ins: Table<T>, outs: Table<T>, b: nat)
    requires b < |g.blocks|
  {
    && ElemsOf(Get(ins, b)) <= universe
    && ElemsOf(Get(outs, b)) <= Join(ins, g.blocks[b].succs)
    && (Get(outs, b).Elems? ==> Updated(g, b))
    && (b != g.exit ==>
          Get(ins, b) == Elems(if Get(outs, b).Top? then p.init
                               else Through(p, g.blocks[b].stmts, Get(outs, b).s)))
  }

  ghost predicate Grown<T>(g: Cfg, ins: Table<T>, outs: Table<T>, ins': Table<T>, outs': Table<T>) {
    && Below(g, ins, ins') && Below(g, outs, outs')
    && forall b | 0 <= b < |g.blocks| && Get(outs, b).Elems? :: Get(outs', b).Elems?
  }

  lemma {:induction false} FromMonotone<T(!new)>(
    p: Problem<T>, universe: set<T>, stmts: seq<nat>, k: nat, x: set<T>, y: set<T>)
    requires Monotone(p, universe) && x <= y && k <= |stmts|
    ensures From(p, stmts, k, x) <= From(p, stmts, k, y)
    ensures y <= universe ==> From(p, stmts, k, y) <= universe
    decreases |stmts| - k
  {
    if k < |stmts| {
      FromMonotone(p, universe, stmts, k + 1, x, y);
      assert Rises(p, stmts[k], From(p, stmts, k + 1, x), From(p, stmts, k + 1, y));
      assert StaysWithin(p, universe, stmts[k], From(p, stmts, k + 1, y));
    }
  }

  lemma ThroughMonotone<T(!new)>(p: Problem<T>, universe: set<T>, stmts: seq<nat>, x: set<T>, y: set<T>)
    requires Monotone(p, universe) && x <= y
    ensures Through(p, stmts, x) <= Through(p, stmts, y)
    ensures y <= universe ==> Through(p, stmts, y) <= universe
  {
    FromMonotone(p, universe, stmts, 0, x, y);
  }

  lemma JoinGrows<T>(g: Cfg, x: Table<T>, y: Table<T>, succs: seq<nat>)
    requires Below(g, x, y) && forall s | s in succs :: s < |g.blocks|
    ensures Join(x, succs) <= Join(y, succs)
  {
    forall t | t in Join(x, succs) ensures t in Join(y, succs) {
      var s :| s in succs && t in ElemsOf(Get(x, s));
      assert t in ElemsOf(Get(y, s));
    }
  }

  lemma JoinInUniverse<T(!new)>(g: Cfg, p: Problem<T>, universe: set<T>, ins: Table<T>, outs: Table<T>, b: nat)
    requires Running(g, p, universe, ins, outs) && b < |g.blocks|
    ensures Join(ins, g.blocks[b].succs) <= universe
  {
    forall t | t in Join(ins, g.blocks[b].succs) ensures t in universe {
      var s :| s in g.blocks[b].succs && t in ElemsOf(Get(ins, s));
      assert BlockOk(g, p, universe, ins, outs, s);
    }
  }

  /** The sets only grow. */
  lemma StepGrows<T(!new)>(g: Cfg, p: Problem<T>, universe: set<T>, ins: Table<T>, outs: Table<T>, b: nat, s: nat)
    requires Running(g, p, universe, ins, outs) && b < |g.blocks| && b != g.exit && s in g.blocks[b].succs
    ensures Grown(g, ins, outs, StepIns(g, p, ins, outs, b, s), StepOuts(ins, outs, b, s))
    ensures ElemsOf(StepOut(ins, outs, b, s)) == ElemsOf(Get(outs, b)) + ElemsOf(Get(ins, s))
    ensures ElemsOf(StepOut(ins, outs, b, s)) <= Join(ins, g.blocks[b].succs)
    ensures StepOut(ins, outs, b, s).Elems?
  {
    assert BlockOk(g, p, universe, ins, outs, b);
    var out := ElemsOf(StepOut(ins, outs, b, s));
    ThroughMonotone(p, universe, g.blocks[b].stmts, ElemsOf(Get(outs, b)), out);
    assert Updated(g, b);
  }

  /** One step keeps `Running`. */
  lemma StepRuns<T(!new)>(g: Cfg, p: Problem<T>, universe: set<T>, ins: Table<T>, outs: Table<T>, b: nat, s: nat)
    requires Running(g, p, universe, ins, outs) && b < |g.blocks| && b != g.exit && s in g.blocks[b].succs
    ensures Running(g, p, universe, StepIns(g, p, ins, outs, b, s), StepOuts(ins, outs, b, s))
  {
    StepGrows(g, p, universe, ins, outs, b, s);
    JoinInUniverse(g, p, universe, ins, outs, b);
    var ins', outs' := StepIns(g, p, ins, outs, b, s), StepOuts(ins, outs, b, s);
    var stmts, succs, out := g.blocks[b].stmts, g.blocks[b].succs, ElemsOf(StepOut(ins, outs, b, s));
    ThroughMonotone(p, universe, stmts, out, Join(ins, succs));
    ThroughMonotone(p, universe, stmts, out, out);
    forall c | 0 <= c < |g.blocks| ensures BlockOk(g, p, universe, ins', outs', c) {
      assert BlockOk(g, p, universe, ins, outs, c);
      JoinGrows(g, ins, ins', g.blocks[c].succs);
    }
    forall x | Solves(g, p, x) ensures Below(g, ins', x) {
      JoinGrows(g, ins, x, succs);
      ThroughMonotone(p, universe, stmts, out, Join(x, succs));
    }
  }

  // ----- a round -----

  /** Some edge of the block has been taken into account. */
  ghost predicate EdgeDone<T>(ins: Table<T>, outs: Table<T>, b: nat, s: nat) {
    Get(outs, b).Elems? && ElemsOf(Get(ins, s)) <= Get(outs, b).s
  }

  ghost predicate BlockDone<T>(g: Cfg, ins: Table<T>, outs: Table<T>, b: nat)
    requires b < |g.blocks|
  {
    b != g.exit ==> forall s | s in g.blocks[b].succs :: EdgeDone(ins, outs, b, s)
  }

  ghost predicate Changed<T>(g: Cfg, ins: Table<T>, outs: Table<T>, ins': Table<T>, outs': Table<T>) {
    exists b | 0 <= b < |g.blocks| :: Get(ins', b) != Get(ins, b) || Get(outs', b) != Get(outs, b)
  }

  ghost predicate SameIns<T>(g: Cfg, ins: Table<T>, ins': Table<T>) {
    forall b | 0 <= b < |g.blocks| :: Get(ins', b) == Get(ins, b)
  }

  /**
   * What the flag of a round means: set only when some set has grown or some
   * entry has been filled, clear only when no IN set differs from what it was
   * at the start of the round.
   */
  ghost predicate FlagOk<T>(g: Cfg, ins0: Table<T>, outs0: Table<T>, ins: Table<T>, outs: Table<T>, changes: bool) {
    && Grown(g, ins0, outs0, ins, outs)
    && (changes ==> Changed(g, ins0, outs0, ins, outs))
    && (!changes ==> SameIns(g, ins0, ins))
  }

  lemma GrownTrans<T>(g: Cfg, i0: Table<T>, o0: Table<T>, i1: Table<T>, o1: Table<T>, i2: Table<T>, o2: Table<T>)
    requires Grown(g, i0, o0, i1, o1) && Grown(g, i1, o1, i2, o2)
    ensures Grown(g, i0, o0, i2, o2)
    ensures Filled(g, i0) && Filled(g, i2) && Filled(g, i1) && Changed(g, i0, o0, i1, o1) ==> Changed(g, i0, o0, i2, o2)
    ensures Filled(g, i0) && Filled(g, i2) && Filled(g, i1) && Changed(g, i1, o1, i2, o2) ==> Changed(g, i0, o0, i2, o2)
  {
    forall b | 0 <= b < |g.blocks|
      ensures ElemsOf(Get(i0, b)) <= ElemsOf(Get(i1, b)) <= ElemsOf(Get(i2, b))
      ensures ElemsOf(Get(o0, b)) <= ElemsOf(Get(o1, b)) <= ElemsOf(Get(o2, b))
    {
    }
  }

  /** A done edge stays done as long as no IN set changes. */
  lemma EdgeStaysDone<T(!new)>(g: Cfg, ins: Table<T>, outs: Table<T>, ins': Table<T>, outs': Table<T>, b: nat, s: nat)
    requires Grown(g, ins, outs, ins', outs') && SameIns(g, ins, ins')
    requires b < |g.blocks| && s < |g.blocks| && EdgeDone(ins, outs, b, s)
    ensures EdgeDone(ins', outs', b, s)
  {
    assert ElemsOf(Get(outs, b)) <= ElemsOf(Get(outs', b));
  }

  /** When a whole round leaves the flag clear, the least solution has been reached. */
  lemma QuietRoundSolves<T(!new)>(g: Cfg, p: Problem<T>, universe: set<T>, ins: Table<T>, outs: Table<T>)
    requires Running(g, p, universe, ins, outs)
    requires forall b | 0 <= b < |g.blocks| :: BlockDone(g, ins, outs, b)
    ensures Solved(g, p, ins, outs)
  {
    forall b | 0 <= b < |g.blocks| && Updated(g, b)
      ensures Get(outs, b) == Elems(Join(ins, g.blocks[b].succs))
      ensures Get(ins, b) == Elems(Through(p, g.blocks[b].stmts, Join(ins, g.blocks[b].succs)))
    {
      var succs := g.blocks[b].succs;
      assert BlockOk(g, p, universe, ins, outs, b) && BlockDone(g, ins, outs, b);
      assert succs[0] in succs;
      assert EdgeDone(ins, outs, b, succs[0]);
      forall t | t in Join(ins, succs) ensures t in Get(outs, b).s {
        var s :| s in succs && t in ElemsOf(Get(ins, s));
        assert EdgeDone(ins, outs, b, s);
      }
      assert Get(outs, b).s == Join(ins, succs);
    }
    forall b | 0 <= b < |g.blocks| && !Updated(g, b)
      ensures Get(outs, b) == Top && Get(ins, b) == Elems(if b == g.exit then p.boundary else p.init)
    {
      assert BlockOk(g, p, universe, ins, outs, b);
    }
  }

  // ----- the measure -----

  datatype Fact<T> = InFact(b: nat, t: T) | OutFact(b: nat, t: T) | OutFilled(b: nat)

  /** Everything the tables say, as one set. */
  ghost function Facts<T>(g: Cfg, ins: Table<T>, outs: Table<T>): set<Fact<T>> {
    (set b, t | 0 <= b < |g.blocks| && t in ElemsOf(Get(ins, b)) :: InFact(b, t))
    + (set b, t | 0 <= b < |g.blocks| && t in ElemsOf(Get(outs, b)) :: OutFact(b, t))
    + (set b | 0 <= b < |g.blocks| && Get(outs, b).Elems? :: OutFilled(b))
  }

  ghost function AllFacts<T>(g: Cfg, universe: set<T>): set<Fact<T>> {
    (set b, t | 0 <= b < |g.blocks| && t in universe :: InFact(b, t))
    + (set b, t | 0 <= b < |g.blocks| && t in universe :: OutFact(b, t))
    + (set b | 0 <= b < |g.blocks| :: OutFilled(b))
  }

  lemma FactsBounded<T(!new)>(g: Cfg, p: Problem<T>, universe: set<T>, ins: Table<T>, outs: Table<T>)
    requires Running(g, p, universe, ins, outs)
    ensures Facts(g, ins, outs) <= AllFacts(g, universe)
  {
    forall b | 0 <= b < |g.blocks|
      ensures ElemsOf(Get(ins, b)) <= universe && ElemsOf(Get(outs, b)) <= universe
    {
      assert BlockOk(g, p, universe, ins, outs, b);
      JoinInUniverse(g, p, universe, ins, outs, b);
    }
  }

  lemma FactsMonotone<T>(g: Cfg, ins: Table<T>, outs: Table<T>, ins': Table<T>, outs': Table<T>)
    requires Grown(g, ins, outs, ins', outs')
    ensures Facts(g, ins, outs) <= Facts(g, ins', outs')
  {
    forall b | 0 <= b < |g.blocks|
      ensures ElemsOf(Get(ins, b)) <= ElemsOf(Get(ins', b)) && ElemsOf(Get(outs, b)) <= ElemsOf(Get(outs', b))
    {
    }
  }

  lemma FactsGrow<T>(g: Cfg, ins: Table<T>, outs: Table<T>, ins': Table<T>, outs': Table<T>)
    requires Grown(g, ins, outs, ins', outs') && Filled(g, ins) && Filled(g, ins')
    requires Changed(g, ins, outs, ins', outs')
    ensures Facts(g, ins, outs) < Facts(g, ins', outs')
  {
    var f, f' := Facts(g, ins, outs), Facts(g, ins', outs');
    FactsMonotone(g, ins, outs, ins', outs');
    var b :| 0 <= b < |g.blocks| && (Get(ins', b) != Get(ins, b) || Get(outs', b) != Get(outs, b));
    if Get(ins', b) != Get(ins, b) {
      var t :| t in Get(ins', b).s && t !in Get(ins, b).s;
      assert InFact(b, t) in f' && InFact(b, t) !in f;
    } else if Get(outs, b).Top? {
      assert OutFilled(b) in f' && OutFilled(b) !in f;
    } else {
      var t :| t in Get(outs', b).s && t !in Get(outs, b).s;
      assert OutFact(b, t) in f' && OutFact(b, t) !in f;
    }
  }

  // ----- why the iteration must start low -----

  /** It does when `init` is empty, as it is for liveness. */
  lemma EmptyStartsLow<T(!new)>(g: Cfg, p: Problem<T>)
    requires p.init == {}
    ensures StartsLow(g, p)
  {
  }

  /** Two empty blocks in a row before the exit. */
  function TwoEmptyBlocks(): Cfg { Cfg([Block([1], []), Block([2], []), Block([], [])], 2) }

  /** Sets pass through unchanged, and are told apart by their cardinality. */
  function Identity<T(!new)>(init: set<T>, boundary: set<T>): Problem<T> {
    Problem(boundary, init, (u, x) => x, x => |x|)
  }

  /** The flag after an assignment to an entry, by the size test. */
  predicate SizeFlag<T(!new)>(p: Problem<T>, current: Domain<T>, value: Domain<T>, changes: bool)
    requires current.Elems? ==> value.Elems?
  {
    if current.Top? then value.Elems? else changes || p.size(current.s) != p.size(value.s)
  }

  /** The flag by comparing the sets themselves. */
  predicate SetFlag<T(==, !new)>(current: Domain<T>, value: Domain<T>, changes: bool) { changes || current != value }

  datatype Progress<T> = Progress(ins: Table<T>, outs: Table<T>, bySize: bool, bySet: bool)

  /** One edge of a round out of an empty block, with what either test makes of the flag. */
  function EdgeOver<T(==, !new)>(g: Cfg, p: Problem<T>, r: Progress<T>, b: nat, s: nat): Progress<T>
    requires b < |g.blocks| && g.blocks[b].stmts == []
  {
    var ins := StepIns(g, p, r.ins, r.outs, b, s);
    Progress(ins, StepOuts(r.ins, r.outs, b, s),
      SizeFlag(p, Get(r.ins, b), Get(ins, b), r.bySize), SetFlag(Get(r.ins, b), Get(ins, b), r.bySet))
  }

  /** All the edges out of one block, from the k-th on. */
  function BlockOver<T(==, !new)>(g: Cfg, p: Problem<T>, r: Progress<T>, b: nat, k: nat): Progress<T>
    requires b < |g.blocks| && g.blocks[b].stmts == [] && k <= |g.blocks[b].succs|
    decreases |g.blocks[b].succs| - k
  {
    if k == |g.blocks[b].succs| then r else BlockOver(g, p, EdgeOver(g, p, r, b, g.blocks[b].succs[k]), b, k + 1)
  }

  /** A round over empty blocks, from the k-th on; the exit is passed over. */
  function RoundOver<T(==, !new)>(g: Cfg, p: Problem<T>, r: Progress<T>, order: seq<nat>, k: nat): Progress<T>
    requires k <= |order| && forall i | 0 <= i < |order| :: order[i] < |g.blocks| && g.blocks[order[i]].stmts == []
    decreases |order| - k
  {
    if k == |order| then r
    else RoundOver(g, p, if order[k] == g.exit then r else BlockOver(g, p, r, order[k], 0), order, k + 1)
  }

  /**
   * With a start that is not low the size test is not enough. After the first
   * round its flag is clear, and the engine that uses it stops; but the element
   * the boundary sends to the second block has not reached the first. Comparing
   * the sets raises the flag.
   */
  lemma SizesMissAChange<T(!new)>(a: T, b: T)
    requires a != b
    ensures
      var g, p, order := TwoEmptyBlocks(), Identity({a}, {b}), [0, 1, 2];
      var ins0: Table<T> := map[0 := Elems({a}), 1 := Elems({a}), 2 := Elems({b})];
      var r := RoundOver(g, p, Progress(ins0, map[], false, false), order, 0);
      WellFormed(g) && Visits(g, order) && !r.bySize && r.bySet && !Solves(g, p, r.ins)
  {
    var g, p, order := TwoEmptyBlocks(), Identity({a}, {b}), [0, 1, 2];
    var ins0: Table<T> := map[0 := Elems({a}), 1 := Elems({a}), 2 := Elems({b})];
    var r0 := Progress(ins0, map[], false, false);
    var r1 := EdgeOver(g, p, r0, 0, 1);
    var r2 := EdgeOver(g, p, r1, 1, 2);
    OneEdgeOver(g, p, r0, 0, 1);
    OneEdgeOver(g, p, r1, 1, 2);
    assert RoundOver(g, p, r2, order, 2) == r2;
    assert RoundOver(g, p, r1, order, 1) == r2;
    assert RoundOver(g, p, r0, order, 0) == r2;
    FirstEdge(a, b, r0, r1);
    SecondEdge(a, b, r1, r2);
    assert g.blocks[0].succs[0] == 1 && Updated(g, 0);
    assert b in Join(r2.ins, g.blocks[0].succs) && b !in Get(r2.ins, 0).s;
    assert Through(p, g.blocks[0].stmts, Join(r2.ins, g.blocks[0].succs)) == Join(r2.ins, g.blocks[0].succs);
  }

  lemma OneEdgeOver<T(!new)>(g: Cfg, p: Problem<T>, r: Progress<T>, b: nat, s: nat)
    requires b < |g.blocks| && g.blocks[b] == Block([s], [])
    ensures BlockOver(g, p, r, b, 0) == EdgeOver(g, p, r, b, s)
  {
    assert BlockOver(g, p, EdgeOver(g, p, r, b, s), b, 1) == EdgeOver(g, p, r, b, s);
  }

  lemma FirstEdge<T(!new)>(a: T, b: T, r: Progress<T>, next: Progress<T>)
    requires r == Progress(map[0 := Elems({a}), 1 := Elems({a}), 2 := Elems({b})], map[], false, false)
    requires next == EdgeOver(TwoEmptyBlocks(), Identity({a}, {b}), r, 0, 1)
    ensures Get(next.ins, 0) == Elems({a}) && Get(next.ins, 1) == Elems({a}) && Get(next.ins, 2) == Elems({b})
    ensures Get(next.outs, 1) == Top && !next.bySize && !next.bySet
  {
  }

  lemma SecondEdge<T(!new)>(a: T, b: T, r: Progress<T>, next: Progress<T>)
    requires a != b && Get(r.ins, 0) == Elems({a}) && Get(r.ins, 1) == Elems({a}) && Get(r.ins, 2) == Elems({b})
    requires Get(r.outs, 1) == Top && !r.bySize && !r.bySet
    requires next == EdgeOver(TwoEmptyBlocks(), Identity({a}, {b}), r, 1, 2)
    ensures Get(next.ins, 0) == Elems({a}) && Get(next.ins, 1) == Elems({b}) && Get(next.ins, 2) == Elems({b})
    ensures !next.bySize && next.bySet
  {
    assert |{a}| == 1 && |{b}| == 1;
    assert a in {a} && a !in {b};
  }
}
