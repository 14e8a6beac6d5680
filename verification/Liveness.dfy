/** Liveness of registers: the sets, the transfer of one instruction, and what the solution means. */
module Liveness {
  import opened Common
  import opened DataFlow
  import opened Solvers

  // ----- instructions -----

  datatype Operator =
    | MOV | FMOV | MUL3
    | ENTER | LEAVE | RET | PRE_RET
    | LABEL
    | CMP_INT | CMP_FLOAT
    | OR | XOR
    | PUSH | POP
    | LEA
    | SHIFT_LEFT | SHIFT_RIGHT
    | ADD | SUB | MUL2 | DIV
    | FADD | FSUB | FMUL | FDIV
    | INC | DEC | NEG | NOT | AND
    | I2F | F2I
    | CMOVE | CMOVNE | CMOVA | CMOVAE | CMOVB | CMOVBE | CMOVG | CMOVGE | CMOVL | CMOVLE
    | PRE_PARAM
    | NOP
    | XORPS | MOVDQU
    | ALWAYS | CALL
    | NE | E | GE | G | LE | L | B | BE | A | AE | P | Z | NZ

  /** Hard registers and pseudo registers are two worlds; each has general and float registers. */
  datatype Register = Register(hard: bool, float: bool, id: nat)

  datatype Argument =
    | RegisterArg(r: Register)
    | AddressArg(base: Option<Register>, scaled: Option<Register>)
    | ConstantArg

  datatype Instruction = Instruction(
    op: Operator,
    arg1: Option<Argument>, arg2: Option<Argument>, arg3: Option<Argument>,
    uses: seq<Register>,
    kills: seq<Register>)

  /** The last operators, from ALWAYS on: jumps and calls. */
  predicate IsJump(i: Instruction) {
    match i.op
    case ALWAYS | CALL => true
    case NE | E | GE | G | LE | L | B | BE | A | AE | P | Z | NZ => true
    case _ => false
  }

  predicate IsLabel(i: Instruction) { i.op.LABEL? }

  /** Operators that only write their first argument. */
  predicate EraseResultComplete(op: Operator) { op.MOV? || op.FMOV? || op.LEA? || op.MUL3? }

  /** An operator that writes its first argument has one. */
  predicate HasResult(i: Instruction) { EraseResultComplete(i.op) ==> i.arg1.Some? }

  // ----- what an instruction generates and kills -----

  /** The registers of one world in a list. */
  function World(hard: bool, rs: seq<Register>): set<Register> { set r | r in rs && r.hard == hard }

  function OfOption(r: Option<Register>): seq<Register> { if r.Some? then [r.value] else [] }

  function AddressRegisters(a: Argument): seq<Register>
    requires a.AddressArg?
  {
    OfOption(a.base) + OfOption(a.scaled)
  }

  /** The registers an argument reads. */
  function Reads(a: Option<Argument>): seq<Register> {
    match a
    case Some(RegisterArg(r)) => [r]
    case Some(AddressArg(_, _)) => AddressRegisters(a.value)
    case _ => []
  }

  /** The register an instruction overwrites, and what its first argument reads. */
  function Overwrites(i: Instruction): seq<Register> {
    if EraseResultComplete(i.op) && i.arg1.Some? && i.arg1.value.RegisterArg? then [i.arg1.value.r] else []
  }

  function FirstReads(i: Instruction): seq<Register> {
    if Overwrites(i) != [] then [] else Reads(i.arg1)
  }

  predicate Computes(i: Instruction) { !IsJump(i) && !IsLabel(i) && !i.op.NOP? }

  function Kill(hard: bool, i: Instruction): set<Register> {
    if IsJump(i) then World(hard, i.kills)
    else if Computes(i) then World(hard, Overwrites(i))
    else {}
  }

  /** A jump or call kills after it uses: what it does both to is not generated. */
  function Gen(hard: bool, i: Instruction): set<Register> {
    if IsJump(i) then World(hard, i.uses) - World(hard, i.kills)
    else if IsLabel(i) then {}
    else World(hard, i.uses)
         + (if Computes(i) then World(hard, FirstReads(i) + Reads(i.arg2) + Reads(i.arg3)) else {})
  }

  function Transfer(hard: bool, i: Instruction, out: set<Register>): set<Register> {
    (out - Kill(hard, i)) + Gen(hard, i)
  }

  // ----- the mutable sets -----

  /** Two sets of live registers, kept apart. */
  class LiveRegisterValues {
    var registers: set<Register>
    var floatRegisters: set<Register>

    constructor (registers: set<Register>, floatRegisters: set<Register>)
      ensures this.registers == registers && this.floatRegisters == floatRegisters
    {
      this.registers, this.floatRegisters := registers, floatRegisters;
    }

    ghost predicate Valid()
      reads this
    {
      (forall r | r in registers :: !r.float) && (forall r | r in floatRegisters :: r.float)
    }

    ghost function Contents(): set<Register>
      reads this
    {
      registers + floatRegisters
    }

    method Insert(r: Register)
      requires Valid()
      modifies this
      ensures Valid() && Contents() == old(Contents()) + {r}
    {
      if r.float {
        floatRegisters := floatRegisters + {r};
      } else {
        registers := registers + {r};
      }
    }

    method Erase(r: Register)
      requires Valid()
      modifies this
      ensures Valid() && Contents() == old(Contents()) - {r}
    {
      if r.float {
        floatRegisters := floatRegisters - {r};
      } else {
        registers := registers - {r};
      }
    }

    /** The number the change test of the engine compares. */
    function Size(): nat
      requires Valid()
      reads this
      ensures Size() == SizeOf(Contents())
    {
      assert Ints(Contents()) == registers && Floats(Contents()) == floatRegisters;
      0x1_0000 * |registers| + |floatRegisters|
    }
  }

  function Ints(s: set<Register>): set<Register> { set r | r in s && !r.float }

  function Floats(s: set<Register>): set<Register> { set r | r in s && r.float }

  function SizeOf(s: set<Register>): nat { 0x1_0000 * |Ints(s)| + |Floats(s)| }

  /** Two sets with the same registers of both kinds are equal. */
  lemma KindsDecide(a: set<Register>, b: set<Register>)
    requires Ints(a) == Ints(b) && Floats(a) == Floats(b)
    ensures a <= b
  {
    forall r | r in a ensures r in b {
      assert if r.float then r in Floats(a) else r in Ints(a);
    }
  }

  /** Under growth the size tells any two sets apart, however many registers there are. */
  lemma SizeSeparates(a: set<Register>, b: set<Register>)
    requires a < b
    ensures SizeOf(a) < SizeOf(b)
  {
    SubsetSize(Ints(a), Ints(b));
    SubsetSize(Floats(a), Floats(b));
    if Ints(a) == Ints(b) && Floats(a) == Floats(b) { KindsDecide(b, a); }
  }

  lemma {:induction false} SubsetSize<T>(a: set<T>, b: set<T>)
    requires a <= b
    ensures |a| <= |b| && (a != b ==> |a| < |b|)
  {
    assert b == a + (b - a);
    assert |b| == |a| + |b - a|;
    if a != b {
      var x :| x in b - a;
      assert |b - a| > 0;
    }
  }

  // ----- the collector -----

  /** The registers of a list become live. */
  method SetLive(hard: bool, rs: seq<Register>, live: LiveRegisterValues)
    requires live.Valid()
    modifies live
    ensures live.Valid() && live.Contents() == old(live.Contents()) + World(hard, rs)
  {
    for k := 0 to |rs|
      invariant live.Valid() && live.Contents() == old(live.Contents()) + World(hard, rs[..k])
    {
      assert rs[..k + 1] == rs[..k] + [rs[k]];
      assert World(hard, rs[..k + 1]) == World(hard, rs[..k]) + World(hard, [rs[k]]);
      if rs[k].hard == hard {
        live.Insert(rs[k]);
      }
    }
    assert rs[..|rs|] == rs;
  }

  method SetDead(hard: bool, rs: seq<Register>, live: LiveRegisterValues)
    requires live.Valid()
    modifies live
    ensures live.Valid() && live.Contents() == old(live.Contents()) - World(hard, rs)
  {
    for k := 0 to |rs|
      invariant live.Valid() && live.Contents() == old(live.Contents()) - World(hard, rs[..k])
    {
      assert rs[..k + 1] == rs[..k] + [rs[k]];
      assert World(hard, rs[..k + 1]) == World(hard, rs[..k]) + World(hard, [rs[k]]);
      if rs[k].hard == hard {
        live.Erase(rs[k]);
      }
    }
    assert rs[..|rs|] == rs;
  }

  /** The first argument: what the instruction writes completely, or reads. */
  method CollectFirst(hard: bool, i: Instruction, live: LiveRegisterValues)
    requires live.Valid() && HasResult(i) && !IsJump(i) && !IsLabel(i) && !i.op.NOP?
    modifies live
    ensures live.Valid() && live.Contents() == (old(live.Contents()) - Kill(hard, i)) + World(hard, FirstReads(i))
  {
    if EraseResultComplete(i.op) {
      if i.arg1.value.AddressArg? {
        SetLive(hard, AddressRegisters(i.arg1.value), live);
      } else if i.arg1.value.RegisterArg? {
        SetDead(hard, [i.arg1.value.r], live);
      }
    } else {
      SetLive(hard, Reads(i.arg1), live);
    }
  }

  /** One instruction, backwards, on the set after it. */
  method Collect(hard: bool, i: Instruction, live: LiveRegisterValues)
    requires live.Valid() && HasResult(i)
    modifies live
    ensures live.Valid() && live.Contents() == Transfer(hard, i, old(live.Contents()))
  {
    if IsJump(i) {
      SetLive(hard, i.uses, live);
      SetDead(hard, i.kills, live);
    } else if !IsLabel(i) {
      if !i.op.NOP? {
        CollectFirst(hard, i, live);
        SetLive(hard, Reads(i.arg2), live);
        SetLive(hard, Reads(i.arg3), live);
        WorldConcat(hard, FirstReads(i), Reads(i.arg2));
        WorldConcat(hard, FirstReads(i) + Reads(i.arg2), Reads(i.arg3));
      }
      SetLive(hard, i.uses, live);
    }
  }

  lemma WorldConcat(hard: bool, a: seq<Register>, b: seq<Register>)
    ensures World(hard, a + b) == World(hard, a) + World(hard, b)
  {
  }

  /** The transfer works on a copy. */
  method TransferValues(hard: bool, i: Instruction, live: LiveRegisterValues) returns (out: LiveRegisterValues)
    requires live.Valid() && HasResult(i)
    ensures fresh(out) && out.Valid() && out.Contents() == Transfer(hard, i, live.Contents())
  {
    out := new LiveRegisterValues(live.registers, live.floatRegisters);
    Collect(hard, i, out);
  }

  /** Union, element by element. */
  method MeetValues(live: LiveRegisterValues, other: LiveRegisterValues)
    requires live != other && live.Valid() && other.Valid()
    modifies live
    ensures live.Valid() && live.Contents() == old(live.Contents()) + other.Contents()
  {
    var rest := other.registers + other.floatRegisters;
    while rest != {}
      invariant rest <= other.Contents()
      invariant live.Valid() && live.Contents() + rest == old(live.Contents()) + other.Contents()
      invariant old(live.Contents()) <= live.Contents()
      decreases rest
    {
      var r :| r in rest;
      live.Insert(r);
      rest := rest - {r};
    }
  }

  // ----- liveness as a data-flow problem -----

  /** What statement u of a function generates and kills; uids without code do nothing. */
  function GenAt(hard: bool, code: seq<Instruction>, u: nat): set<Register> {
    if u < |code| then Gen(hard, code[u]) else {}
  }

  function KillAt(hard: bool, code: seq<Instruction>, u: nat): set<Register> {
    if u < |code| then Kill(hard, code[u]) else {}
  }

  function LivenessProblem(hard: bool, code: seq<Instruction>): Problem<Register> {
    Problem({}, {},
      (u: nat, out: set<Register>) => if u < |code| then Transfer(hard, code[u], out) else out,
      (s: set<Register>) => SizeOf(s))
  }

  ghost function AllRegisters(hard: bool, code: seq<Instruction>): set<Register> {
    set i, r | i in code && r in Gen(hard, i) :: r
  }

  lemma LivenessIsMonotone(hard: bool, code: seq<Instruction>)
    ensures Monotone(LivenessProblem(hard, code), AllRegisters(hard, code))
  {
    var p := LivenessProblem(hard, code);
    forall x: set<Register>, y: set<Register> | x < y ensures p.size(x) != p.size(y) {
      SizeSeparates(x, y);
    }
    forall u: nat, x | x <= AllRegisters(hard, code) ensures p.transfer(u, x) <= AllRegisters(hard, code) {
      if u < |code| { assert code[u] in code; }
    }
  }

  // ----- what liveness means -----

  /** Statement i of the list generates r, and none from the k-th up to it kills r. */
  ghost predicate Hits(hard: bool, code: seq<Instruction>, stmts: seq<nat>, k: nat, i: nat, r: Register) {
    k <= i < |stmts| && r in GenAt(hard, code, stmts[i]) && Spares(hard, code, stmts, k, i, r)
  }

  /** The list generates r from the k-th statement on before it kills it. */
  ghost predicate Generates(hard: bool, code: seq<Instruction>, stmts: seq<nat>, k: nat, r: Register) {
    exists i: nat :: Hits(hard, code, stmts, k, i, r)
  }

  /** No statement from the k-th up to the i-th kills r. */
  ghost predicate Spares(hard: bool, code: seq<Instruction>, stmts: seq<nat>, k: nat, i: nat, r: Register) {
    forall j | k <= j < i && j < |stmts| :: r !in KillAt(hard, code, stmts[j])
  }

  lemma GeneratesStep(hard: bool, code: seq<Instruction>, stmts: seq<nat>, k: nat, r: Register)
    requires k < |stmts|
    ensures Generates(hard, code, stmts, k, r) <==>
      r in GenAt(hard, code, stmts[k])
      || (r !in KillAt(hard, code, stmts[k]) && Generates(hard, code, stmts, k + 1, r))
  {
    if Generates(hard, code, stmts, k, r) {
      var i: nat :| Hits(hard, code, stmts, k, i, r);
      if i > k { assert Hits(hard, code, stmts, k + 1, i, r); }
    }
    if r in GenAt(hard, code, stmts[k]) {
      assert Hits(hard, code, stmts, k, k, r);
    } else if r !in KillAt(hard, code, stmts[k]) && Generates(hard, code, stmts, k + 1, r) {
      var i: nat :| Hits(hard, code, stmts, k + 1, i, r);
      assert Hits(hard, code, stmts, k, i, r);
    }
  }

  lemma TransferStep(hard: bool, code: seq<Instruction>, u: nat, out: set<Register>, r: Register)
    ensures r in LivenessProblem(hard, code).transfer(u, out) <==>
      r in GenAt(hard, code, u) || (r !in KillAt(hard, code, u) && r in out)
  {
  }

  /** A list lets a register in exactly when it generates it first, or spares it and it is live after. */
  lemma {:induction false} FromMeans(
    hard: bool, code: seq<Instruction>, stmts: seq<nat>, k: nat, out: set<Register>, r: Register)
    requires k <= |stmts|
    ensures r in From(LivenessProblem(hard, code), stmts, k, out) <==>
      Generates(hard, code, stmts, k, r) || (r in out && Spares(hard, code, stmts, k, |stmts|, r))
    decreases |stmts| - k
  {
    if k < |stmts| {
      var p := LivenessProblem(hard, code);
      FromMeans(hard, code, stmts, k + 1, out, r);
      GeneratesStep(hard, code, stmts, k, r);
      TransferStep(hard, code, stmts[k], From(p, stmts, k + 1, out), r);
      assert From(p, stmts, k, out) == p.transfer(stmts[k], From(p, stmts, k + 1, out));
    }
  }

  /** Block b is one the engine updates, and it spares r. */
  ghost predicate PassesOn(hard: bool, g: Cfg, code: seq<Instruction>, b: nat, next: nat, r: Register) {
    && b < |g.blocks| && next in g.blocks[b].succs
    && Spares(hard, code, g.blocks[b].stmts, 0, |g.blocks[b].stmts|, r)
  }

  /**
   * A path of the graph along which r is spared until its last block, which
   * generates it first.  The exit and blocks without successor are never on
   * it: the engine does not update them.
   */
  ghost predicate UsePath(hard: bool, g: Cfg, code: seq<Instruction>, path: seq<nat>, r: Register) {
    && path != []
    && (forall k | 0 <= k < |path| :: path[k] < |g.blocks| && Updated(g, path[k]))
    && (forall k | 1 <= k < |path| :: PassesOn(hard, g, code, path[k - 1], path[k], r))
    && (var b := path[|path| - 1]; b < |g.blocks| && Generates(hard, code, g.blocks[b].stmts, 0, r))
  }

  ghost predicate LiveAt(hard: bool, g: Cfg, code: seq<Instruction>, b: nat, r: Register) {
    exists path :: UsePath(hard, g, code, path, r) && path[0] == b
  }

  /** A solution holds every register some path uses. */
  lemma {:induction false} PathIsIn(
    hard: bool, g: Cfg, code: seq<Instruction>, ins: Table<Register>, path: seq<nat>, r: Register)
    requires WellFormed(g) && Solves(g, LivenessProblem(hard, code), ins)
    requires UsePath(hard, g, code, path, r)
    ensures r in ElemsOf(Get(ins, path[0]))
    decreases |path|
  {
    var b := path[0];
    var blk := g.blocks[b];
    FromMeans(hard, code, blk.stmts, 0, Join(ins, blk.succs), r);
    if |path| > 1 {
      var rest := path[1..];
      assert PassesOn(hard, g, code, path[0], path[1], r);
      forall k | 1 <= k < |rest| ensures PassesOn(hard, g, code, rest[k - 1], rest[k], r) {
        assert PassesOn(hard, g, code, path[k + 1 - 1], path[k + 1], r);
      }
      PathIsIn(hard, g, code, ins, rest, r);
    }
  }

  lemma PrependPath(hard: bool, g: Cfg, code: seq<Instruction>, b: nat, path: seq<nat>, r: Register)
    requires WellFormed(g) && UsePath(hard, g, code, path, r)
    requires b < |g.blocks| && Updated(g, b) && PassesOn(hard, g, code, b, path[0], r)
    ensures UsePath(hard, g, code, [b] + path, r) && ([b] + path)[0] == b
  {
    var long := [b] + path;
    assert long[|long| - 1] == path[|path| - 1];
    forall k | 1 <= k < |long| ensures PassesOn(hard, g, code, long[k - 1], long[k], r) {
      if k > 1 { assert PassesOn(hard, g, code, path[k - 1 - 1], path[k - 1], r); }
    }
  }

  /** The sets restricted to registers that some path uses: again a solution. */
  ghost function Used(hard: bool, g: Cfg, code: seq<Instruction>, ins: Table<Register>): Table<Register> {
    map b: nat | 0 <= b < |g.blocks| :: Elems(set r | r in ElemsOf(Get(ins, b)) && LiveAt(hard, g, code, b, r))
  }

  lemma UsedSolves(hard: bool, g: Cfg, code: seq<Instruction>, ins: Table<Register>)
    requires WellFormed(g) && Solves(g, LivenessProblem(hard, code), ins)
    ensures Solves(g, LivenessProblem(hard, code), Used(hard, g, code, ins))
  {
    var p, x := LivenessProblem(hard, code), Used(hard, g, code, ins);
    forall b, r | 0 <= b < |g.blocks| && Updated(g, b) && r in Through(p, g.blocks[b].stmts, Join(x, g.blocks[b].succs))
      ensures r in Get(x, b).s
    {
      var blk := g.blocks[b];
      FromMeans(hard, code, blk.stmts, 0, Join(x, blk.succs), r);
      FromMeans(hard, code, blk.stmts, 0, Join(ins, blk.succs), r);
      if Generates(hard, code, blk.stmts, 0, r) {
        assert UsePath(hard, g, code, [b], r) && [b][0] == b;
      } else {
        var s :| s in blk.succs && r in ElemsOf(Get(x, s));
        var path :| UsePath(hard, g, code, path, r) && path[0] == s;
        PrependPath(hard, g, code, b, path, r);
      }
      assert LiveAt(hard, g, code, b, r);
    }
  }

  /**
   * A register is in the IN set of a block exactly when some path of the
   * control-flow graph from that block reaches an instruction that generates
   * it before any instruction that kills it.
   */
  lemma LivenessIsPathwise(
    hard: bool, g: Cfg, code: seq<Instruction>, ins: Table<Register>, outs: Table<Register>, b: nat, r: Register)
    requires WellFormed(g) && b < |g.blocks|
    requires Solved(g, LivenessProblem(hard, code), ins, outs)
    ensures r in ElemsOf(Get(ins, b)) <==> LiveAt(hard, g, code, b, r)
  {
    if LiveAt(hard, g, code, b, r) {
      var path :| UsePath(hard, g, code, path, r) && path[0] == b;
      PathIsIn(hard, g, code, ins, path, r);
    }
    UsedSolves(hard, g, code, ins);
    assert Below(g, ins, Used(hard, g, code, ins));
    assert ElemsOf(Get(ins, b)) <= ElemsOf(Get(Used(hard, g, code, ins), b));
  }

  /** Liveness of a whole function, by the engine the compiler uses. */
  method LiveRegisters(hard: bool, g: Cfg, code: seq<Instruction>, order: seq<nat>)
    returns (results: BackwardResults<Register>)
    requires WellFormed(g) && Visits(g, order)
    ensures Solved(g, LivenessProblem(hard, code), results.IN, results.OUT)
    ensures forall b: nat, r | b < |g.blocks| ::
      r in ElemsOf(Get(results.IN, b)) <==> LiveAt(hard, g, code, b, r)
  {
    LivenessIsMonotone(hard, code);
    EmptyStartsLow(g, LivenessProblem(hard, code));
    results := new BackwardResults();
    results.BackwardDataFlow(g, LivenessProblem(hard, code), AllRegisters(hard, code), order);
    forall b: nat, r | b < |g.blocks|
      ensures r in ElemsOf(Get(results.IN, b)) <==> LiveAt(hard, g, code, b, r)
    {
      LivenessIsPathwise(hard, g, code, results.IN, results.OUT, b, r);
    }
  }
}
