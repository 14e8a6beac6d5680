/** The part of the abstract syntax tree that the desugaring pass rewrites. */
module Ast {
  import opened Common

  datatype Operator =
    | ASSIGN | SWAP
    | ADD | SUB | DIV | MUL | MOD
    | AND | OR | NOT
    | DEC | INC
    | EQUALS | NOT_EQUALS | LESS | LESS_EQUALS | GREATER | GREATER_EQUALS
    | STAR | ADDRESS
    | BRACKET | DOT | CALL

  /** The operators the grammar accepts in `left op= right`. */
  predicate Compound(op: Operator) {
    op.ADD? || op.SUB? || op.DIV? || op.MUL? || op.MOD?
  }

  /** `++` and `--`. */
  predicate Bumps(op: Operator) { op.INC? || op.DEC? }

  /** The operations that select an element or a member. */
  predicate Selects(op: Operator) { op.BRACKET? || op.DOT? }

  /** A resolved variable: a slot of the function's frame, or a global. */
  datatype Name = Local(id: string) | Global(id: string)

  datatype Val =
    | IntV(n: int)
    | BoolV(b: bool)
    | CharV(c: char)
    | StrV(s: string)
    | ArrV(elems: seq<Val>)
    | OtherV(id: int)          // floats, pointers, structures

  datatype BuiltinKind = SIZE | LENGTH

  datatype Operation = Operation(op: Operator, value: Value)

  datatype Value =
    | Literal(v: Val)
    | Variable(name: Name)
    | Composed(first: Value, ops: seq<Operation>)
    | FunctionCall(mangled: string, args: seq<Value>)
    | Builtin(kind: BuiltinKind, arg: Value)
    | AssignValue(left: Value, op: Operator, right: Value)
    | Prefix(prefix: Operator, operand: Value)
    | Ternary(cond: Value, whenTrue: Value, whenFalse: Value)
    | Cast(target: string, inner: Value)
    | New(ctor: string, values: seq<Value>)
    | NewArray(elemType: string, size: Value)

  datatype Arm = Arm(cond: Value, body: seq<Stmt>)
  datatype Case = Case(value: Value, body: seq<Stmt>)

  /** An `else` branch or a default case, if there is one. */
  datatype Otherwise = Absent | Present(body: seq<Stmt>)

  /** The type of a switch's value, as the type visitor reports it. */
  datatype SwitchKind = IntSwitch | StringSwitch | OtherSwitch

  /**
   * `If` keeps its main branch and its `else if` branches in one list of arms,
   * main branch first.
   */
  datatype Stmt =
    | ValueStmt(v: Value)
    | VariableDeclaration(name: string, init: Option<Value>)
    | StructDeclaration(name: string, ctor: string, values: seq<Value>)
    | ArrayDeclaration(name: string, size: Value)
    | Assignment(left: Value, op: Operator, right: Value)
    | Return(v: Value)
    | Delete(v: Value)
    | If(arms: seq<Arm>, otherwise: Otherwise)
    | DoWhile(body: seq<Stmt>, cond: Value)
    | Scope(body: seq<Stmt>)
    | While(cond: Value, body: seq<Stmt>)
    | For(start: Option<Stmt>, condition: Option<Value>, repeat: Option<Stmt>, body: seq<Stmt>)
    | Foreach(name: string, from: int, to: int, body: seq<Stmt>)
    | ForeachIn(name: string, arr: Name, isArray: bool, iter: string, body: seq<Stmt>)
    | Switch(kind: SwitchKind, v: Value, cases: seq<Case>, default: Otherwise)
}
