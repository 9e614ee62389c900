/** Abstract syntax of the expression language (sohara-core/src/expr/ast.rs). */
module Ast {
  import opened Json

  datatype CmpOp = Eq | Neq | Gt | Gte | Lt | Lte

  /** The binary operators; the program gives each its own `Expr` variant. */
  datatype BinOp =
    | OrOp | AndOp | CmpBin(op: CmpOp) | InOp | AddOp | SubOp | MulOp | DivOp | RemOp

  datatype Expr =
    | Lit(value: Value)
    | Path(segments: seq<string>)
    | List(items: seq<Expr>)
    | Not(inner: Expr)
    | Bin(op: BinOp, lhs: Expr, rhs: Expr)
    | Call(name: string, args: seq<Expr>)
}
