/** The expression tree the parser produces (`src/ast.rs`) and the three
    shape tests the compiler asks of it. */
module Ast {
  import opened Wrappers

  datatype Position = Position(line: nat, column: nat)

  datatype Expr = Expr(pos: Position, expr: ExprKind)

  /** A match arm: a pattern and its body. */
  datatype Arm = Arm(pattern: Expr, body: Expr)

  /** An object-literal entry: a key and its value. */
  datatype Entry = Entry(key: Expr, value: Expr)

  datatype ExprKind =
    | Assign(target: Expr, value: Expr)
    | BinOp(lhs: Expr, op: string, rhs: Expr)
    | Unop(uop: string, operand: Expr)
    | Access(obj: Expr, field: string)
    | Ident(id: string)
    | Function(fname: Option<string>, params: seq<string>, fbody: Expr)
    | Class(cname: string, cbody: Expr, parent: Option<Expr>)
    | Lambda(lparams: seq<string>, lbody: Expr)
    | Match(scrutinee: Expr, arms: seq<Arm>, otherwise: Option<Expr>)
    | If(cond: Expr, thenBranch: Expr, elseBranch: Option<Expr>)
    | ConstInt(i: int)
    | ConstChar(c: char)
    | ConstStr(s: string)
    | New(callee: Expr)
    | ConstFloat(bits: nat)
    | Object(entries: seq<Entry>)
    | Var(mutable: bool, vname: string, init: Option<Expr>)
    | While(wcond: Expr, wbody: Expr)
    | Block(exprs: seq<Expr>)
    | Return(result: Option<Expr>)
    | Call(fn_: Expr, args: seq<Expr>)
    | Nil
    | Break
    | Continue
    | Throw(thrown: Expr)
    | ConstBool(b: bool)
    | Array(elems: seq<Expr>)
    | ArrayIndex(array: Expr, index: Expr)
    | This

  /** The operators `is_binop_cmp` accepts. */
  const CMP_OPS: set<string> := {">", "<", ">=", "<=", "==", "!="}

  /** `is_access`. */
  predicate IsAccess(e: Expr)
  {
    match e.expr
    case Access(_, _) => true
    case _ => false
  }

  /** `is_binop`. */
  predicate IsBinop(e: Expr)
  {
    match e.expr
    case BinOp(_, _, _) => true
    case _ => false
  }

  /** `is_binop_cmp`: a binary operation with one of the six comparison
      operators. */
  predicate IsBinopCmp(e: Expr)
  {
    match e.expr
    case BinOp(_, op, _) =>
      op == ">" || op == "<" || op == ">=" || op == "<=" || op == "==" || op == "!="
    case _ => false
  }

  /** A comparison is a binary operation, an access is never one, and the
      comparison test is the binary-operation test narrowed to `CMP_OPS`. */
  lemma ShapeTests(e: Expr)
    ensures IsBinopCmp(e) ==> IsBinop(e)
    ensures !(IsAccess(e) && IsBinop(e))
    ensures IsBinopCmp(e) <==> e.expr.BinOp? && e.expr.op in CMP_OPS
    ensures IsAccess(e) <==> e.expr.Access?
    ensures IsBinop(e) <==> e.expr.BinOp?
  {
  }

  /** The arithmetic and logical operators are binary operations but not
      comparisons. */
  lemma ArithmeticIsNoComparison(pos: Position, l: Expr, op: string, r: Expr)
    requires op in {"+", "-", "*", "/", "%", "&&", "||", "<<", ">>"}
    ensures IsBinop(Expr(pos, BinOp(l, op, r)))
    ensures !IsBinopCmp(Expr(pos, BinOp(l, op, r)))
  {
  }
}
