/**
 * Meaning of values and statements.  Memory, calls and the operators on
 * non-integers are an arbitrary interpretation `Interp`; loops are indexed by
 * a fuel that counts their iterations.
 */
module Semantics {
  import opened Common
  import opened Ast

  type Globals = map<string, Val>

  datatype State = State(locals: map<string, Val>, globals: Globals)

  /** `max` is the largest integer of the target platform. */
  datatype Interp = Interp(
    max: nat,
    binop: (Operator, Val, Val, Globals) -> Option<Val>,
    unop: (Operator, Val, Globals) -> Option<Val>,
    cast: (string, Val) -> Option<Val>,
    call: (string, seq<Val>, Globals) -> Option<(Val, Globals)>,
    store: (Operator, Val, Val, Val, Globals) -> Option<Globals>)

  // ----- variables -----

  function Get(st: State, n: Name): Option<Val> {
    match n
    case Local(x) => if x in st.locals then Some(st.locals[x]) else None
    case Global(x) => if x in st.globals then Some(st.globals[x]) else None
  }

  function Set(st: State, n: Name, v: Val): State {
    match n
    case Local(x) => st.(locals := st.locals[x := v])
    case Global(x) => st.(globals := st.globals[x := v])
  }

  // ----- values -----

  /** Result of a value: what it yields and the state it leaves, or no normal result. */
  datatype Res = Ok(v: Val, st: State) | Stuck
  datatype ArgsRes = Args(vs: seq<Val>, st: State) | StuckArgs

  /** Where an assignment, `++` or `--` writes; a temporary is forgotten at once. */
  datatype Place =
    | VarPlace(name: Name)
    | ElemPlace(arr: Name, index: Val)
    | MemPlace(op: Operator, base: Val, index: Val)
    | Temporary(held: Val)
  datatype PlaceRes = At(p: Place, st: State) | NoPlace

  function OfOption(o: Option<Val>, st: State): Res {
    if o.Some? then Ok(o.value, st) else Stuck
  }

  function OfCall(r: Option<(Val, Globals)>, st: State): Res {
    if r.Some? then Ok(r.value.0, State(st.locals, r.value.1)) else Stuck
  }

  /** The integers of the platform, in two's complement. */
  predicate InRange(I: Interp, x: int) { -1 - I.max <= x <= I.max }

  function Wrap(I: Interp, x: int): int {
    if InRange(I, x) then x else (x + I.max + 1) % (2 * I.max + 2) - I.max - 1
  }

  /** Binary operators; integer arithmetic wraps around. */
  function Apply(I: Interp, op: Operator, a: Val, b: Val, g: Globals): Option<Val> {
    match (op, a, b)
    case (ADD, IntV(x), IntV(y)) => Some(IntV(Wrap(I, x + y)))
    case (SUB, IntV(x), IntV(y)) => Some(IntV(Wrap(I, x - y)))
    case (LESS, IntV(x), IntV(y)) => Some(BoolV(x < y))
    case (LESS_EQUALS, IntV(x), IntV(y)) => Some(BoolV(x <= y))
    case (EQUALS, IntV(x), IntV(y)) => Some(BoolV(x == y))
    case (BRACKET, ArrV(es), IntV(i)) => if 0 <= i < |es| then Some(es[i]) else None
    case (BRACKET, StrV(s), IntV(i)) => if 0 <= i < |s| then Some(CharV(s[i])) else None
    case _ => I.binop(op, a, b, g)
  }

  /** The variable a value is, once empty composed values are looked through. */
  function Root(v: Value): Option<Name> {
    match v
    case Variable(n) => Some(n)
    case Composed(first, ops) => if ops == [] then Root(first) else None
    case _ => None
  }

  function Eval(I: Interp, v: Value, st: State): Res
    decreases v, 2
  {
    match v
    case Literal(x) => Ok(x, st)
    case Variable(n) => OfOption(Get(st, n), st)
    case Composed(_, ops) => EvalOps(I, v, |ops|, st)
    case FunctionCall(m, args) =>
      (match EvalArgs(I, args, st)
       case Args(vs, s1) => OfCall(I.call(m, vs, s1.globals), s1)
       case StuckArgs => Stuck)
    case Builtin(kind, arg) =>
      (match Eval(I, arg, st)
       case Ok(w, s1) => OfOption(SizeOf(I, kind, w), s1)
       case Stuck => Stuck)
    case AssignValue(left, _, _) =>
      // the value of an assignment is its left side, read again
      (match EvalAssign(I, v, st)
       case Ok(_, s1) => Eval(I, left, s1)
       case Stuck => Stuck)
    case Prefix(op, operand) =>
      if Bumps(op) then
        match Reference(I, operand, st)
        case At(p, s1) => Bump(I, op, p, s1)
        case NoPlace => Stuck
      else
        (match Eval(I, operand, st)
         case Ok(w, s1) => OfOption(I.unop(op, w, s1.globals), s1)
         case Stuck => Stuck)
    case Ternary(c, t, f) =>
      (match Eval(I, c, st)
       case Ok(BoolV(b), s1) => if b then Eval(I, t, s1) else Eval(I, f, s1)
       case _ => Stuck)
    case Cast(ty, inner) =>
      (match Eval(I, inner, st)
       case Ok(w, s1) => OfOption(I.cast(ty, w), s1)
       case Stuck => Stuck)
    case New(m, args) =>
      (match EvalArgs(I, args, st)
       case Args(vs, s1) => OfCall(I.call(m, vs, s1.globals), s1)
       case StuckArgs => Stuck)
    case NewArray(ty, size) =>
      (match Eval(I, size, st)
       case Ok(w, s1) => OfCall(I.call(ty, [w], s1.globals), s1)
       case Stuck => Stuck)
  }

  /** Arguments are evaluated from the last to the first. */
  function EvalArgs(I: Interp, args: seq<Value>, st: State): (r: ArgsRes)
    ensures r.Args? ==> |r.vs| == |args|
    decreases args, 0
  {
    if args == [] then Args([], st) else
    match EvalArgs(I, args[1..], st)
    case StuckArgs => StuckArgs
    case Args(vs, s1) =>
      match Eval(I, args[0], s1)
      case Ok(v, s2) => Args([v] + vs, s2)
      case Stuck => StuckArgs
  }

  /** A composed value after its first k operations. */
  function EvalOps(I: Interp, e: Value, k: nat, st: State): Res
    requires e.Composed? && k <= |e.ops|
    decreases e, 1, k, 0
  {
    if k == 0 then Eval(I, e.first, st)
    else if Bumps(e.ops[k - 1].op) then
      match ReferenceOps(I, e, k - 1, st)
      case At(p, s1) => BumpAfter(I, e.ops[k - 1].op, p, s1)
      case NoPlace => Stuck
    else
      match EvalOps(I, e, k - 1, st)
      case Ok(acc, s1) => Step(I, e, k - 1, acc, s1)
      case Stuck => Stuck
  }

  /**
   * Operation j of a composed value, unless it is `++` or `--`; && and || do
   * not evaluate what they do not need.
   */
  function Step(I: Interp, e: Value, j: nat, acc: Val, st: State): Res
    requires e.Composed? && j < |e.ops| && !Bumps(e.ops[j].op)
    decreases e, 0
  {
    var Operation(op, value) := e.ops[j];
    match op
    case AND => if acc == BoolV(true) then Eval(I, value, st) else if acc == BoolV(false) then Ok(acc, st) else Stuck
    case OR => if acc == BoolV(false) then Eval(I, value, st) else if acc == BoolV(true) then Ok(acc, st) else Stuck
    case CALL =>
      if !value.FunctionCall? then Stuck else
      (match EvalArgs(I, value.args, st)
       case Args(vs, s1) => OfCall(I.call(value.mangled, [acc] + vs, s1.globals), s1)
       case StuckArgs => Stuck)
    case _ =>
      match Eval(I, value, st)
      case Ok(w, s1) => OfOption(Apply(I, op, acc, w, s1.globals), s1)
      case Stuck => Stuck
  }

  /** A size is an integer of the platform. */
  function SizeOf(I: Interp, kind: BuiltinKind, v: Val): Option<Val> {
    if kind.SIZE? && v.ArrV? && |v.elems| <= I.max then Some(IntV(|v.elems|))
    else if kind.LENGTH? && v.StrV? && |v.s| <= I.max then Some(IntV(|v.s|))
    else None
  }

  // ----- places -----

  /** The place a left side denotes. */
  function Resolve(I: Interp, left: Value, st: State): PlaceRes
    decreases left, 2
  {
    match left
    case Variable(n) => At(VarPlace(n), st)
    case Composed(first, ops) =>
      if ops == [] then Resolve(I, first, st)
      else if !Selects(ops[|ops| - 1].op) then NoPlace
      else Selected(I, left, |ops| - 1, st)
    case Prefix(STAR, operand) =>
      (match Eval(I, operand, st)
       case Ok(w, s1) => At(MemPlace(STAR, w, w), s1)
       case Stuck => NoPlace)
    case _ => NoPlace
  }

  /** The element or member that operation j of a composed value selects. */
  function Selected(I: Interp, e: Value, j: nat, st: State): PlaceRes
    requires e.Composed? && j < |e.ops| && Selects(e.ops[j].op)
    decreases e, 1, j, 1
  {
    match EvalOps(I, e, j, st)
    case Stuck => NoPlace
    case Ok(acc, s1) =>
      match Eval(I, e.ops[j].value, s1)
      case Stuck => NoPlace
      case Ok(w, s2) =>
        if e.ops[j].op.BRACKET? && j == 0 && Root(e.first).Some?
        then At(ElemPlace(Root(e.first).value, w), s2)
        else At(MemPlace(e.ops[j].op, acc, w), s2)
  }

  /**
   * What `++` and `--` change: a variable, an element or a member; any other
   * value, the target of a pointer included, has been copied to a temporary.
   */
  function Reference(I: Interp, v: Value, st: State): PlaceRes
    decreases v, 3
  {
    match v
    case Literal(_) => NoPlace
    case Variable(n) => At(VarPlace(n), st)
    case Composed(_, ops) => ReferenceOps(I, v, |ops|, st)
    case AssignValue(left, _, _) =>
      (match EvalAssign(I, v, st)
       case Ok(_, s1) => Reference(I, left, s1)
       case Stuck => NoPlace)
    case _ => Copied(Eval(I, v, st))
  }

  /** The same for a composed value after its first k operations. */
  function ReferenceOps(I: Interp, e: Value, k: nat, st: State): PlaceRes
    requires e.Composed? && k <= |e.ops|
    decreases e, 1, k, 2
  {
    if k == 0 then Reference(I, e.first, st)
    else if Selects(e.ops[k - 1].op) then Selected(I, e, k - 1, st)
    else Copied(EvalOps(I, e, k, st))
  }

  function Copied(r: Res): PlaceRes {
    if r.Ok? then At(Temporary(r.v), r.st) else NoPlace
  }

  function ReadPlace(I: Interp, p: Place, st: State): Option<Val> {
    match p
    case VarPlace(n) => Get(st, n)
    case ElemPlace(n, i) =>
      (match Get(st, n)
       case Some(arr) => Apply(I, BRACKET, arr, i, st.globals)
       case None => None)
    case MemPlace(op, base, i) =>
      if op.STAR? then I.unop(STAR, base, st.globals) else Apply(I, op, base, i, st.globals)
    case Temporary(v) => Some(v)
  }

  function StoreMem(I: Interp, op: Operator, base: Val, i: Val, v: Val, st: State): Option<State> {
    match I.store(op, base, i, v, st.globals)
    case Some(g) => Some(State(st.locals, g))
    case None => None
  }

  function WritePlace(I: Interp, p: Place, v: Val, st: State): Option<State> {
    match p
    case VarPlace(n) => Some(Set(st, n, v))
    case ElemPlace(n, i) =>
      (match Get(st, n)
       case None => None
       case Some(arr) =>
         if arr.ArrV? then
           if i.IntV? && 0 <= i.n < |arr.elems| then Some(Set(st, n, ArrV(arr.elems[i.n := v]))) else None
         else StoreMem(I, BRACKET, arr, i, v, st))
    case MemPlace(op, base, i) => StoreMem(I, op, base, i, v, st)
    case Temporary(_) => Some(st)
  }

  function Write(I: Interp, p: Place, v: Val, st: State): Res {
    match WritePlace(I, p, v, st)
    case Some(s1) => Ok(v, s1)
    case None => Stuck
  }

  /** `++` and `--` on a place: the new value. */
  function Bump(I: Interp, op: Operator, p: Place, st: State): Res {
    match ReadPlace(I, p, st)
    case None => Stuck
    case Some(current) =>
      match Apply(I, if op.INC? then ADD else SUB, current, IntV(1), st.globals)
      case None => Stuck
      case Some(v) => Write(I, p, v, st)
  }

  /** `++` and `--` behind a value: the place changes the same way, but the old value comes out. */
  function BumpAfter(I: Interp, op: Operator, p: Place, st: State): Res {
    match Bump(I, op, p, st)
    case Ok(_, s1) => OfOption(ReadPlace(I, p, st), s1)
    case Stuck => Stuck
  }

  /**
   * Assignments find the place on the left first and evaluate the right side
   * second.  A compound assignment finds its place once.
   */
  function EvalAssign(I: Interp, a: Value, st: State): Res
    requires a.AssignValue?
    decreases a, 1
  {
    if a.op.SWAP? then
      match (Root(a.left), Root(a.right))
      case (Some(l), Some(r)) =>
        (match (Get(st, l), Get(st, r))
         case (Some(x), Some(y)) => Ok(y, Set(Set(st, r, x), l, y))
         case _ => Stuck)
      case _ => Stuck
    else
      match Resolve(I, a.left, st)
      case NoPlace => Stuck
      case At(p, s1) =>
        if a.op.ASSIGN? then
          match Eval(I, a.right, s1)
          case Ok(v, s2) => Write(I, p, v, s2)
          case Stuck => Stuck
        else
          match ReadPlace(I, p, s1)
          case None => Stuck
          case Some(current) =>
            match Eval(I, a.right, s1)
            case Stuck => Stuck
            case Ok(v, s2) =>
              match Apply(I, a.op, current, v, s2.globals)
              case Some(w) => Write(I, p, w, s2)
              case None => Stuck
  }

  // ----- statements -----

  datatype Outcome = Normal(st: State) | Returned(v: Val, st: State) | Fault | OutOfFuel

  function Done(r: Res): Outcome {
    if r.Ok? then Normal(r.st) else Fault
  }

  const STR_EQUALS := "_F10str_equalsSS"
  const FREE := "_F4freePI"

  /** Does a case of a switch match: == on integers, the library's comparison on strings. */
  function Matches(I: Interp, kind: SwitchKind, v: Val, w: Val, st: State): Res {
    match kind
    case IntSwitch => OfOption(Apply(I, EQUALS, v, w, st.globals), st)
    case StringSwitch => OfCall(I.call(STR_EQUALS, [v, w], st.globals), st)
    case OtherSwitch => Stuck
  }

  function ExecSeq(I: Interp, n: nat, ss: seq<Stmt>, st: State): Outcome
    decreases n, ss, 0
  {
    if ss == [] then Normal(st) else
    match Exec(I, n, ss[0], st)
    case Normal(s1) => ExecSeq(I, n, ss[1..], s1)
    case o => o
  }

  function ExecOpt(I: Interp, n: nat, s: Option<Stmt>, st: State): Outcome
    decreases n, s, 0
  {
    match s
    case None => Normal(st)
    case Some(t) => Exec(I, n, t, st)
  }

  function ExecBlock(I: Interp, n: nat, b: Otherwise, st: State): Outcome
    decreases n, b, 0
  {
    match b
    case Absent => Normal(st)
    case Present(ss) => ExecSeq(I, n, ss, st)
  }

  function Exec(I: Interp, n: nat, s: Stmt, st: State): Outcome
    decreases n, s, 3
  {
    match s
    case ValueStmt(v) => Done(Eval(I, v, st))
    case VariableDeclaration(x, init) =>
      if init.None? then Normal(st) else
      (match Eval(I, init.value, st)
       case Ok(v, s1) => Normal(Set(s1, Local(x), v))
       case Stuck => Fault)
    case StructDeclaration(x, ctor, values) =>
      (match EvalArgs(I, values, st)
       case StuckArgs => Fault
       case Args(vs, s1) =>
         match OfCall(I.call(ctor, vs, s1.globals), s1)
         case Ok(v, s2) => Normal(Set(s2, Local(x), v))
         case Stuck => Fault)
    case ArrayDeclaration(x, size) =>
      (match Eval(I, size, st)
       case Ok(IntV(k), s1) =>
         if k < 0 then Fault else Normal(Set(s1, Local(x), ArrV(seq(k, _ => IntV(0)))))
       case _ => Fault)
    case Assignment(l, op, r) => Done(EvalAssign(I, AssignValue(l, op, r), st))
    case Return(v) =>
      (match Eval(I, v, st)
       case Ok(w, s1) => Returned(w, s1)
       case Stuck => Fault)
    case Delete(v) =>
      (match Eval(I, v, st)
       case Ok(w, s1) => Done(OfCall(I.call(FREE, [w], s1.globals), s1))
       case Stuck => Fault)
    case If(_, _) => ExecArms(I, n, s, 0, st)
    case Scope(body) => ExecSeq(I, n, body, st)
    case DoWhile(body, c) =>
      if n == 0 then OutOfFuel else
      (match ExecSeq(I, n, body, st)
       case Normal(s1) =>
         (match Eval(I, c, s1)
          case Ok(BoolV(b), s2) => if b then Exec(I, n - 1, s, s2) else Normal(s2)
          case _ => Fault)
       case o => o)
    case While(c, body) =>
      (match Eval(I, c, st)
       case Ok(BoolV(b), s1) =>
         if !b then Normal(s1)
         else if n == 0 then OutOfFuel
         else
           (match ExecSeq(I, n, body, s1)
            case Normal(s2) => Exec(I, n - 1, s, s2)
            case o => o)
       case _ => Fault)
    case For(start, _, _, _) =>
      (match ExecOpt(I, n, start, st)
       case Normal(s1) => ForLoop(I, n, s, s1)
       case o => o)
    case Foreach(_, from, _, _) => ForeachLoop(I, n, s, from, st)
    case ForeachIn(_, arr, isArray, _, _) =>
      (match Eval(I, Builtin(if isArray then SIZE else LENGTH, Variable(arr)), st)
       case Ok(IntV(len), _) => ForeachInLoop(I, n, s, 0, len, st)
       case _ => Fault)
    case Switch(_, v, _, _) =>
      (match Eval(I, v, st)
       case Ok(w, s1) => ExecCases(I, n, s, 0, w, s1)
       case Stuck => Fault)
  }

  /** The arms of an `if` from the k-th on. */
  function ExecArms(I: Interp, n: nat, s: Stmt, k: nat, st: State): Outcome
    requires s.If? && k <= |s.arms|
    decreases n, s, 2, |s.arms| - k
  {
    if k == |s.arms| then ExecBlock(I, n, s.otherwise, st) else
    match Eval(I, s.arms[k].cond, st)
    case Ok(BoolV(b), s1) => if b then ExecSeq(I, n, s.arms[k].body, s1) else ExecArms(I, n, s, k + 1, s1)
    case _ => Fault
  }

  /** A switch whose value is w, from its k-th case on; there is no fall-through. */
  function ExecCases(I: Interp, n: nat, s: Stmt, k: nat, w: Val, st: State): Outcome
    requires s.Switch? && k <= |s.cases|
    decreases n, s, 2, |s.cases| - k
  {
    if k == |s.cases| then ExecBlock(I, n, s.default, st) else
    match Eval(I, s.cases[k].value, st)
    case Stuck => Fault
    case Ok(x, s1) =>
      match Matches(I, s.kind, w, x, s1)
      case Ok(BoolV(b), s2) => if b then ExecSeq(I, n, s.cases[k].body, s2) else ExecCases(I, n, s, k + 1, w, s2)
      case _ => Fault
  }

  function ForLoop(I: Interp, n: nat, s: Stmt, st: State): Outcome
    requires s.For?
    decreases n, s, 2
  {
    match (if s.condition.Some? then Eval(I, s.condition.value, st) else Ok(BoolV(true), st))
    case Ok(BoolV(b), s1) =>
      if !b then Normal(s1)
      else if n == 0 then OutOfFuel
      else
        (match ExecSeq(I, n, s.body, s1)
         case Normal(s2) =>
           (match ExecOpt(I, n, s.repeat, s2)
            case Normal(s3) => ForLoop(I, n - 1, s, s3)
            case o => o)
         case o => o)
    case _ => Fault
  }

  /** The body runs once for each k from `from` to `to`; the count is k, not the variable. */
  function ForeachLoop(I: Interp, n: nat, s: Stmt, k: int, st: State): Outcome
    requires s.Foreach?
    decreases n, s, 2
  {
    if k > s.to then Normal(st)
    else if n == 0 then OutOfFuel
    else
      match ExecSeq(I, n, s.body, Set(st, Local(s.name), IntV(k)))
      case Normal(s1) => ForeachLoop(I, n - 1, s, k + 1, s1)
      case o => o
  }

  /** The body runs once for each index k of the array, the variable holding element k. */
  function ForeachInLoop(I: Interp, n: nat, s: Stmt, k: nat, len: int, st: State): Outcome
    requires s.ForeachIn?
    decreases n, s, 2
  {
    if k >= len then Normal(st)
    else if n == 0 then OutOfFuel
    else
      match Get(st, s.arr)
      case None => Fault
      case Some(arr) =>
        match Apply(I, BRACKET, arr, IntV(k), st.globals)
        case None => Fault
        case Some(v) =>
          match ExecSeq(I, n, s.body, Set(st, Local(s.name), v))
          case Normal(s1) => ForeachInLoop(I, n - 1, s, k + 1, len, s1)
          case o => o
  }
}
