/**
 * Execution of instructions on registers, and what liveness is for: registers
 * that are not live make no difference.
 */
module Execution {
  import opened Common
  import opened DataFlow
  import opened Liveness

  // ----- one step -----

  /** The registers, and everything else a program can see: memory, flags, output. */
  datatype State<M> = State(regs: Register -> int, mem: M)

  /** What an instruction gets from an argument. */
  datatype Operand = Absent | Fixed | Content(n: int) | Cell(base: Option<int>, scaled: Option<int>)

  datatype Seen = Seen(first: Operand, second: Operand, third: Operand, used: seq<int>)

  /**
   * What instructions do with what they see: any functions.  `write` gives the
   * new content of a register, `store` the new rest of the state.
   */
  datatype Machine<!M> = Machine(write: (Instruction, Seen, Register, M) -> int, store: (Instruction, Seen, M) -> M)

  datatype Kind = Mark | Idle | Jump | Move | Compute

  function KindOf(op: Operator): Kind {
    match op
    case LABEL => Mark
    case NOP => Idle
    case ALWAYS | CALL | NE | E | GE | G | LE | L | B | BE | A | AE | P | Z | NZ => Jump
    case MOV | FMOV | LEA | MUL3 => Move
    case _ => Compute
  }

  function Fetch(r: Option<Register>, regs: Register -> int): Option<int> {
    if r.Some? then Some(regs(r.value)) else None
  }

  function Look(a: Option<Argument>, regs: Register -> int): Operand {
    match a
    case None => Absent
    case Some(ConstantArg) => Fixed
    case Some(RegisterArg(r)) => Content(regs(r))
    case Some(AddressArg(base, scaled)) => Cell(Fetch(base, regs), Fetch(scaled, regs))
  }

  /** The register an instruction has as its first argument. */
  predicate IsFirst(i: Instruction, r: Register) { i.arg1 == Some(RegisterArg(r)) }

  predicate FirstIsRegister(i: Instruction) { i.arg1.Some? && i.arg1.value.RegisterArg? }

  function Contents(rs: seq<Register>, regs: Register -> int): (c: seq<int>)
    ensures |c| == |rs| && forall k | 0 <= k < |rs| :: c[k] == regs(rs[k])
  {
    seq(|rs|, k requires 0 <= k < |rs| => regs(rs[k]))
  }

  /** A move does not look at the register it writes. */
  function See(i: Instruction, regs: Register -> int): Seen {
    match KindOf(i.op)
    case Mark => Seen(Absent, Absent, Absent, [])
    case Idle => Seen(Absent, Absent, Absent, Contents(i.uses, regs))
    case Jump => Seen(Absent, Absent, Absent, Contents(i.uses, regs))
    case Move =>
      var first := if FirstIsRegister(i) then Absent else Look(i.arg1, regs);
      Seen(first, Look(i.arg2, regs), Look(i.arg3, regs), Contents(i.uses, regs))
    case Compute => Seen(Look(i.arg1, regs), Look(i.arg2, regs), Look(i.arg3, regs), Contents(i.uses, regs))
  }

  /** A jump or call can change what it uses and clobbers, a computation what it uses and its first argument. */
  predicate Changes(i: Instruction, r: Register) {
    match KindOf(i.op)
    case Mark => false
    case Idle => false
    case Jump => r in i.uses || r in i.kills
    case Move => r in i.uses || IsFirst(i, r)
    case Compute => r in i.uses || IsFirst(i, r)
  }

  function Step<M>(m: Machine<M>, i: Instruction, s: State<M>): State<M> {
    if i.op.LABEL? then s else
    var seen := See(i, s.regs);
    State(r => if Changes(i, r) then m.write(i, seen, r, s.mem) else s.regs(r), m.store(i, seen, s.mem))
  }

  // ----- registers that are not live make no difference to a step -----

  /** The same state as far as live registers of one world, all registers of the other, and the rest go. */
  ghost predicate Alike<M(!new)>(hard: bool, live: set<Register>, s: State<M>, t: State<M>) {
    s.mem == t.mem && forall r :: Matters(hard, live, r) ==> s.regs(r) == t.regs(r)
  }

  predicate Matters(hard: bool, live: set<Register>, r: Register) { r.hard != hard || r in live }

  /** A register that the instruction reads and then clobbers: the analysis does not count its reading. */
  predicate ReadAndClobbered(hard: bool, i: Instruction, r: Register) {
    KindOf(i.op).Jump? && r.hard == hard && r in i.uses && r in i.kills
  }

  ghost predicate Clean(hard: bool, i: Instruction) { forall r :: !ReadAndClobbered(hard, i, r) }

  lemma KindsMatch(i: Instruction)
    ensures KindOf(i.op).Jump? <==> IsJump(i)
    ensures KindOf(i.op).Mark? <==> IsLabel(i)
    ensures KindOf(i.op).Move? <==> EraseResultComplete(i.op)
    ensures KindOf(i.op).Move? || KindOf(i.op).Compute? <==> Computes(i)
  {
  }

  lemma LookAlike<M(!new)>(hard: bool, a: Option<Argument>, live: set<Register>, s: State<M>, t: State<M>)
    requires Alike(hard, live, s, t) && World(hard, Reads(a)) <= live
    ensures Look(a, s.regs) == Look(a, t.regs)
  {
    match a
    case Some(RegisterArg(r)) => assert r in Reads(a) && Matters(hard, live, r);
    case Some(AddressArg(base, scaled)) =>
      if base.Some? { assert base.value in Reads(a) && Matters(hard, live, base.value); }
      if scaled.Some? {
        assert Reads(a)[|Reads(a)| - 1] == scaled.value;
        assert Matters(hard, live, scaled.value);
      }
    case _ =>
  }

  lemma UsedAlike<M(!new)>(hard: bool, rs: seq<Register>, live: set<Register>, s: State<M>, t: State<M>)
    requires Alike(hard, live, s, t) && World(hard, rs) <= live
    ensures Contents(rs, s.regs) == Contents(rs, t.regs)
  {
    forall k | 0 <= k < |rs| ensures s.regs(rs[k]) == t.regs(rs[k]) {
      assert rs[k] in rs && Matters(hard, live, rs[k]);
    }
  }

  lemma SeenAlike<M(!new)>(hard: bool, i: Instruction, out: set<Register>, s: State<M>, t: State<M>)
    requires Clean(hard, i) && Alike(hard, Transfer(hard, i, out), s, t)
    ensures See(i, s.regs) == See(i, t.regs)
  {
    var live := Transfer(hard, i, out);
    KindsMatch(i);
    if !IsLabel(i) {
      forall r | r in World(hard, i.uses) ensures r in live { assert !ReadAndClobbered(hard, i, r); }
      UsedAlike(hard, i.uses, live, s, t);
    }
    if Computes(i) {
      WorldConcat(hard, FirstReads(i), Reads(i.arg2));
      WorldConcat(hard, FirstReads(i) + Reads(i.arg2), Reads(i.arg3));
      LookAlike(hard, i.arg2, live, s, t);
      LookAlike(hard, i.arg3, live, s, t);
      if !(KindOf(i.op).Move? && FirstIsRegister(i)) { LookAlike(hard, i.arg1, live, s, t); }
    }
  }

  /**
   * States that agree on what is live before an instruction agree on what is
   * live after it, and on everything else a program can see.
   */
  lemma StepSound<M(!new)>(hard: bool, m: Machine<M>, i: Instruction, out: set<Register>, s: State<M>, t: State<M>)
    requires Clean(hard, i) && Alike(hard, Transfer(hard, i, out), s, t)
    ensures Alike(hard, out, Step(m, i, s), Step(m, i, t))
  {
    SeenAlike(hard, i, out, s, t);
    KindsMatch(i);
    var u, v := Step(m, i, s), Step(m, i, t);
    forall r | Matters(hard, out, r) ensures u.regs(r) == v.regs(r) {
      if !Changes(i, r) { assert Matters(hard, Transfer(hard, i, out), r); }
    }
  }

  // ----- and nothing less would do -----

  /** The same state, except for one register. */
  ghost predicate DifferAtMost(s: State<int>, t: State<int>, r: Register) {
    s.mem == t.mem && forall q | q != r :: s.regs(q) == t.regs(q)
  }

  /** Some machine turns a difference in r alone into one that is seen or live after the instruction. */
  ghost predicate Tells(hard: bool, i: Instruction, out: set<Register>, r: Register) {
    exists m: Machine<int>, s: State<int>, t: State<int> :: TellsApart(hard, m, i, out, s, t, r)
  }

  ghost predicate TellsApart(
    hard: bool, m: Machine<int>, i: Instruction, out: set<Register>, s: State<int>, t: State<int>, r: Register) {
    DifferAtMost(s, t, r) && !Alike(hard, out, Step(m, i, s), Step(m, i, t))
  }

  function Zeros(): State<int> { State((q: Register) => 0, 0) }

  function OneIn(r: Register): State<int> { State((q: Register) => if q == r then 1 else 0, 0) }

  /** A machine that lets everyone see whether an instruction saw the same as in the state of zeros. */
  ghost function Watching(i: Instruction): Machine<int> {
    Machine((j: Instruction, seen: Seen, q: Register, mem: int) => 0,
            (j: Instruction, seen: Seen, mem: int) => if seen == See(i, Zeros().regs) then 0 else 1)
  }

  lemma UsedDiffers(rs: seq<Register>, r: Register)
    requires r in rs
    ensures Contents(rs, Zeros().regs) != Contents(rs, OneIn(r).regs)
  {
    var k :| 0 <= k < |rs| && rs[k] == r;
    assert Contents(rs, Zeros().regs)[k] != Contents(rs, OneIn(r).regs)[k];
  }

  lemma LookDiffers(a: Option<Argument>, r: Register)
    requires r in Reads(a)
    ensures Look(a, Zeros().regs) != Look(a, OneIn(r).regs)
  {
  }

  lemma GeneratedIsSeen(hard: bool, i: Instruction, r: Register)
    requires r in Gen(hard, i)
    ensures See(i, Zeros().regs) != See(i, OneIn(r).regs)
  {
    KindsMatch(i);
    if r in i.uses {
      UsedDiffers(i.uses, r);
    } else {
      WorldConcat(hard, FirstReads(i), Reads(i.arg2));
      WorldConcat(hard, FirstReads(i) + Reads(i.arg2), Reads(i.arg3));
      if r in FirstReads(i) { LookDiffers(i.arg1, r); }
      else if r in Reads(i.arg2) { LookDiffers(i.arg2, r); }
      else { LookDiffers(i.arg3, r); }
    }
  }

  lemma SeenIsTold(hard: bool, i: Instruction, out: set<Register>, r: Register)
    requires !i.op.LABEL? && See(i, Zeros().regs) != See(i, OneIn(r).regs)
    ensures Tells(hard, i, out, r)
  {
    assert TellsApart(hard, Watching(i), i, out, Zeros(), OneIn(r), r);
  }

  /**
   * What the transfer makes live is exactly what can make a difference: to the
   * registers live after the instruction, or to anything else that is seen.
   */
  lemma TransferIsExact(hard: bool, i: Instruction, out: set<Register>, r: Register)
    requires Clean(hard, i) && r.hard == hard
    ensures r in Transfer(hard, i, out) <==> Tells(hard, i, out, r)
  {
    KindsMatch(i);
    if r in Gen(hard, i) {
      GeneratedIsSeen(hard, i, r);
      SeenIsTold(hard, i, out, r);
    } else if r in Transfer(hard, i, out) {
      var m := Watching(i);
      assert !ReadAndClobbered(hard, i, r);
      assert !Changes(i, r);
      assert Step(m, i, Zeros()).regs(r) == 0 && Step(m, i, OneIn(r)).regs(r) == 1 && Matters(hard, out, r);
      assert TellsApart(hard, m, i, out, Zeros(), OneIn(r), r);
    } else if Tells(hard, i, out, r) {
      var m, s, t :| TellsApart(hard, m, i, out, s, t, r);
      StepSound(hard, m, i, out, s, t);
    }
  }

  ghost predicate SoundAt(
    hard: bool, m: Machine<int>, i: Instruction, out: set<Register>, s: State<int>, t: State<int>) {
    Alike(hard, Transfer(hard, i, out), s, t) ==> Alike(hard, out, Step(m, i, s), Step(m, i, t))
  }

  /** Liveness is sound exactly for instructions that clobber nothing they read. */
  lemma StepSoundIff(hard: bool, i: Instruction)
    ensures (forall m: Machine<int>, out, s: State<int>, t: State<int> :: SoundAt(hard, m, i, out, s, t)) <==>
      Clean(hard, i)
  {
    if Clean(hard, i) {
      forall m: Machine<int>, out, s: State<int>, t: State<int> ensures SoundAt(hard, m, i, out, s, t) {
        if Alike(hard, Transfer(hard, i, out), s, t) { StepSound(hard, m, i, out, s, t); }
      }
    } else {
      var r :| ReadAndClobbered(hard, i, r);
      KindsMatch(i);
      UsedDiffers(i.uses, r);
      assert Alike(hard, Transfer(hard, i, {}), Zeros(), OneIn(r));
      assert !SoundAt(hard, Watching(i), i, {}, Zeros(), OneIn(r));
    }
  }

  // ----- whole runs -----

  ghost predicate AllClean(hard: bool, code: seq<Instruction>) { forall i | i in code :: Clean(hard, i) }

  /** Statements without code do nothing. */
  function StepAt<M>(m: Machine<M>, code: seq<Instruction>, u: nat, s: State<M>): State<M> {
    if u < |code| then Step(m, code[u], s) else s
  }

  function Run<M>(m: Machine<M>, code: seq<Instruction>, stmts: seq<nat>, k: nat, s: State<M>): State<M>
    requires k <= |stmts|
    decreases |stmts| - k
  {
    if k == |stmts| then s else Run(m, code, stmts, k + 1, StepAt(m, code, stmts[k], s))
  }

  lemma {:induction false} RunSound<M(!new)>(
    hard: bool, m: Machine<M>, code: seq<Instruction>, stmts: seq<nat>, k: nat, out: set<Register>,
    s: State<M>, t: State<M>)
    requires AllClean(hard, code) && k <= |stmts|
    requires Alike(hard, From(LivenessProblem(hard, code), stmts, k, out), s, t)
    ensures Alike(hard, out, Run(m, code, stmts, k, s), Run(m, code, stmts, k, t))
    decreases |stmts| - k
  {
    if k < |stmts| {
      var u, next := stmts[k], From(LivenessProblem(hard, code), stmts, k + 1, out);
      if u < |code| {
        assert code[u] in code;
        StepSound(hard, m, code[u], next, s, t);
      }
      RunSound(hard, m, code, stmts, k + 1, out, StepAt(m, code, u, s), StepAt(m, code, u, t));
    }
  }

  /** The blocks of a path, one after the other. */
  function RunPath<M>(m: Machine<M>, g: Cfg, code: seq<Instruction>, path: seq<nat>, s: State<M>): State<M>
    requires forall k | 0 <= k < |path| :: path[k] < |g.blocks|
  {
    if path == [] then s else RunPath(m, g, code, path[1..], Run(m, code, g.blocks[path[0]].stmts, 0, s))
  }

  /** A path of the graph through blocks the engine updates, and to one block more. */
  ghost predicate Leads(g: Cfg, path: seq<nat>, last: nat) {
    && last < |g.blocks|
    && (forall k | 0 <= k < |path| :: path[k] < |g.blocks| && Updated(g, path[k]))
    && (forall k | 1 <= k < |path| :: path[k] in g.blocks[path[k - 1]].succs)
    && (path != [] ==> last in g.blocks[path[|path| - 1]].succs)
  }

  lemma AlikeOnLess<M(!new)>(hard: bool, live: set<Register>, less: set<Register>, s: State<M>, t: State<M>)
    requires Alike(hard, live, s, t) && less <= live
    ensures Alike(hard, less, s, t)
  {
    forall r | Matters(hard, less, r) ensures s.regs(r) == t.regs(r) { assert Matters(hard, live, r); }
  }

  /**
   * Along every path, states that agree on what the engine found live at its
   * start agree on what it found live at its end, and on everything that can
   * be seen there: registers that are not live can hold anything.
   */
  lemma {:induction false} LiveRegistersSuffice<M(!new)>(
    hard: bool, m: Machine<M>, g: Cfg, code: seq<Instruction>, ins: Table<Register>, path: seq<nat>, last: nat,
    s: State<M>, t: State<M>)
    requires WellFormed(g) && AllClean(hard, code) && Solves(g, LivenessProblem(hard, code), ins)
    requires Leads(g, path, last)
    requires Alike(hard, ElemsOf(Get(ins, if path == [] then last else path[0])), s, t)
    ensures Alike(hard, ElemsOf(Get(ins, last)), RunPath(m, g, code, path, s), RunPath(m, g, code, path, t))
    decreases |path|
  {
    if path != [] {
      var p, blk, rest := LivenessProblem(hard, code), g.blocks[path[0]], path[1..];
      var out := Join(ins, blk.succs);
      AlikeOnLess(hard, ElemsOf(Get(ins, path[0])), From(p, blk.stmts, 0, out), s, t);
      RunSound(hard, m, code, blk.stmts, 0, out, s, t);
      var u, v := Run(m, code, blk.stmts, 0, s), Run(m, code, blk.stmts, 0, t);
      var next := if rest == [] then last else rest[0];
      assert next in blk.succs;
      AlikeOnLess(hard, out, ElemsOf(Get(ins, next)), u, v);
      assert forall k | 1 <= k < |rest| :: rest[k] == path[k + 1] && rest[k - 1] == path[k];
      LiveRegistersSuffice(hard, m, g, code, ins, rest, last, u, v);
    }
  }
}
