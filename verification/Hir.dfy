/** The part of the Rust HIR that the borrow checker's passes look at. */
module Hir {
  import opened Wrappers

  /** What the type tables say of a value, as far as binding it goes. */
  datatype Ty = UnitTy | PlainTy(copy: bool) | RefTy(mutable: bool, inner: Ty) | TupleTy(parts: seq<Ty>)

  /** What the declared type of a name really is; a value that `carries` may hold
      a borrow or a lambda inside. */
  datatype Real = Real(copy: bool, reference: bool, carries: bool)

  datatype Shape =
    | NameShape(name: string, actual: Real, sub: Option<Shape>)
    | TupleShape(xs: seq<Shape>)
    | StructShape(fields: seq<FieldShape>)
    | EnumShape(args: seq<Shape>)
    | RefShape(inner: Shape)
    | Silent   // wildcards, literals and ranges

  /** A field pattern; without a sub-pattern it binds the field's own name. */
  datatype FieldShape = FieldShape(name: string, actual: Real, sub: Option<Shape>)

  /** A pattern and the recorded type of what it is matched with. */
  datatype Pattern = Pattern(shape: Shape, ty: Ty)

  /** A bound name: what the checker takes its type to be, and what it is. */
  datatype Binding = Binding(name: string, copy: bool, reference: bool, reallyCopy: bool, reallyRef: bool, carries: bool)

  /** How the callee's signature takes an argument. */
  datatype Passing = ByValue | ByRef | ByMut

  /** `owning`: the operand of a dereference is a reference to a non-Copy type;
      `carries`: the assigned place may hold a borrow. */
  datatype Expr =
    | Path(segs: seq<string>)
    | Literal
    | BlockExpr(block: Block)
    | Tuple(xs: seq<Expr>)
    | Binary(lhs: Expr, rhs: Expr)
    | Assign(compound: bool, carries: bool, lhs: Expr, rhs: Expr)
    | Unary(deref: bool, owning: bool, operand: Expr)
    | Borrow(mutable: bool, inner: Expr)
    | Move(inner: Expr)
    | Call(callee: Expr, params: seq<Passing>, args: seq<Expr>)
    | MethodCall(receiver: Expr, args: seq<Expr>)
    | Field(receiver: Expr, name: string)
    | Index(receiver: Expr, idx: Expr)
    | If(cond: Expr, thn: Block, els: Option<Expr>)
    | Match(scrutinee: Expr, arms: seq<Arm>)
    | For(pat: Pattern, iter: Expr, body: Block)
    | While(cond: Expr, body: Block)
    | Loop(body: Block)
    | Return(value: Option<Expr>)
    | Lambda(inputs: seq<Param>, body: Block)

  datatype Param = Param(name: string, actual: Real)

  datatype Block = Block(stmts: seq<Stmt>, tail: Option<Expr>)

  datatype Stmt = Let(pat: Pattern, init: Option<Expr>, mutable: bool) | ExprStmt(e: Expr)

  datatype Arm = Arm(pat: Pattern, guard: Option<Expr>, body: Expr)
}
