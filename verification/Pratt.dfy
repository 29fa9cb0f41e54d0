/** The expression grammar of the Python front end: the parser on values, and a
    printer that writes only the parentheses it has to. */
module Pratt {
  import opened Wrappers

  datatype Symbol =
    | OrOr | OrKw | AndAnd | AndKw | EqEq | NotEq | Less | LessEq | Greater | GreaterEq
    | Pipe | Caret | Amp | Shl | Shr | Plus | Minus | Star | Slash | Percent | DotDot | DotDotEq
    | Bang | MutKw | LParen | RParen | LBracket | RBracket | Comma | Dot | Question | At
    | Closer(text: string)   // any token that neither starts nor continues an expression

  /** `sameLine`: no line break separates the word from the token before it. */
  datatype Token = Ident(name: string, sameLine: bool) | Lit(text: string) | Sym(s: Symbol)

  /** The operator table; a higher number binds tighter, and every operator
      associates to the left. */
  function Power(s: Symbol): Option<nat> {
    match s
    case DotDot => Some(0) case DotDotEq => Some(0)
    case OrOr => Some(1) case OrKw => Some(1)
    case AndAnd => Some(2) case AndKw => Some(2)
    case EqEq => Some(3) case NotEq => Some(3)
    case Less => Some(4) case LessEq => Some(4) case Greater => Some(4) case GreaterEq => Some(4)
    case Pipe => Some(5)
    case Caret => Some(6)
    case Amp => Some(7)
    case Shl => Some(8) case Shr => Some(8)
    case Plus => Some(9) case Minus => Some(9)
    case Star => Some(10) case Slash => Some(10) case Percent => Some(10)
    case _ => None
  }

  datatype PrefixOp = Neg | Not | Deref | Ref | RefMut

  datatype Tree =
    | Name(name: string)
    | Literal(text: string)
    | Bad
    | Prefix(op: PrefixOp, operand: Tree)
    | Binop(sym: Symbol, lhs: Tree, rhs: Tree)
    | Tuple(elems: seq<Tree>)
    | Post(target: Tree, form: Form)

  datatype Form =
    | Call(args: seq<Tree>)
    | Macro(args: seq<Tree>)
    | Index(at: Tree)
    | Field(name: string)
    | Method(name: string, args: seq<Tree>)
    | Propagate
    | Ask(msg: string, args: seq<Tree>)
    | Send(msg: string, args: seq<Tree>)
    | Deadline(due: Tree)

  /** `Raised`: a required token was missing, and the error is thrown. */
  datatype Parsed<T> = Done(value: T, rest: seq<Token>) | Raised

  // ----- cursor -----

  predicate AtSym(ts: seq<Token>, s: Symbol) { ts != [] && ts[0] == Sym(s) }

  function SymbolText(s: Symbol): string {
    match s
    case OrOr => "||" case OrKw => "or" case AndAnd => "&&" case AndKw => "and"
    case EqEq => "==" case NotEq => "!=" case Less => "<" case LessEq => "<=" case Greater => ">" case GreaterEq => ">="
    case Pipe => "|" case Caret => "^" case Amp => "&" case Shl => "<<" case Shr => ">>"
    case Plus => "+" case Minus => "-" case Star => "*" case Slash => "/" case Percent => "%"
    case DotDot => ".." case DotDotEq => "..=" case Bang => "!" case MutKw => "mut"
    case LParen => "(" case RParen => ")" case LBracket => "[" case RBracket => "]"
    case Comma => "," case Dot => "." case Question => "?" case At => "@"
    case Closer(text) => text
  }

  /** What eating the next token yields; at the end of the input nothing moves. */
  function EatenText(ts: seq<Token>): string {
    if ts == [] then ""
    else match ts[0] case Ident(name, _) => name case Lit(text) => text case Sym(s) => SymbolText(s)
  }

  function Eaten(ts: seq<Token>): seq<Token> { if ts == [] then [] else ts[1..] }

  /** A word on the same line, then an opening parenthesis. */
  predicate MessageAhead(ts: seq<Token>) {
    |ts| >= 2 && ts[0].Ident? && ts[0].sameLine && ts[1] == Sym(LParen)
  }

  // ----- the parser -----

  function ParseBp(min: nat, ts: seq<Token>): (r: Parsed<Tree>)
    ensures r.Done? ==> |r.rest| <= |ts|
    decreases |ts|, 5
  {
    Climb(min, Operand(ts))
  }

  /** A prefix expression with its postfix forms. */
  function Operand(ts: seq<Token>): (r: Parsed<Tree>)
    ensures r.Done? ==> |r.rest| <= |ts|
    decreases |ts|, 3
  {
    match ParseUnary(ts)
    case Raised => Raised
    case Done(lhs, rest) => Postfix(lhs, rest)
  }

  /** The operator loop, from an operand that has just been read. */
  function Climb(min: nat, lhs: Parsed<Tree>): (r: Parsed<Tree>)
    ensures lhs.Done? && r.Done? ==> |r.rest| <= |lhs.rest|
    decreases if lhs.Done? then |lhs.rest| else 0, 4
  {
    match lhs
    case Raised => Raised
    case Done(l, ts) =>
      if ts == [] || !ts[0].Sym? || Power(ts[0].s).None? || Power(ts[0].s).value < min then Done(l, ts)
      else match ParseBp(Power(ts[0].s).value + 1, ts[1..])
        case Raised => Raised
        case Done(rhs, rest) => Climb(min, Postfix(Binop(ts[0].s, l, rhs), rest))
  }

  function PrefixOf(ts: seq<Token>): Option<(PrefixOp, seq<Token>)> {
    if AtSym(ts, Minus) then Some((Neg, ts[1..]))
    else if AtSym(ts, Bang) then Some((Not, ts[1..]))
    else if AtSym(ts, Star) then Some((Deref, ts[1..]))
    else if AtSym(ts, Amp) then (if AtSym(ts[1..], MutKw) then Some((RefMut, ts[2..])) else Some((Ref, ts[1..])))
    else None
  }

  function ParseUnary(ts: seq<Token>): (r: Parsed<Tree>)
    ensures r.Done? ==> |r.rest| <= |ts|
    decreases |ts|, 1
  {
    match PrefixOf(ts)
    case Some((op, rest)) =>
      (match ParseUnary(rest) case Raised => Raised case Done(x, rest') => Done(Prefix(op, x), rest'))
    case None => ParseAtom(ts)
  }

  function ParseAtom(ts: seq<Token>): (r: Parsed<Tree>)
    ensures r.Done? ==> |r.rest| <= |ts|
    decreases |ts|, 0
  {
    if ts == [] then Done(Bad, [])
    else match ts[0]
      case Ident(name, _) => Done(Name(name), ts[1..])
      case Lit(text) => Done(Literal(text), ts[1..])
      case Sym(LParen) =>
        if AtSym(ts[1..], RParen) then Done(Tuple([]), ts[2..])
        else (match ParseBp(0, ts[1..]) case Raised => Raised case Done(e, rest) => TupleRest([e], false, rest))
      case Sym(_) => Done(Bad, ts[1..])
  }

  /** After the first element: further elements, then the closing parenthesis. A
      single element without a comma is no tuple. */
  function TupleRest(elems: seq<Tree>, comma: bool, ts: seq<Token>): (r: Parsed<Tree>)
    requires elems != []
    ensures r.Done? ==> |r.rest| <= |ts|
    decreases |ts|, 6
  {
    if AtSym(ts, Comma) && !AtSym(ts[1..], RParen) then
      (match ParseBp(0, ts[1..]) case Raised => Raised case Done(e, rest) => TupleRest(elems + [e], true, rest))
    else
      var seen := comma || AtSym(ts, Comma);
      var rest := if AtSym(ts, Comma) then ts[1..] else ts;
      if !AtSym(rest, RParen) then Raised
      else Done(if !seen && |elems| == 1 then elems[0] else Tuple(elems), rest[1..])
  }

  function Postfix(lhs: Tree, ts: seq<Token>): (r: Parsed<Tree>)
    ensures r.Done? ==> |r.rest| <= |ts|
    decreases |ts|, 2
  {
    match ParseForm(ts)
    case Raised => Raised
    case Done(None, _) => Done(lhs, ts)
    case Done(Some(form), rest) => Postfix(Post(lhs, form), rest)
  }

  /** One postfix form, if the next token starts one. */
  function ParseForm(ts: seq<Token>): (r: Parsed<Option<Form>>)
    ensures r.Done? ==> |r.rest| <= |ts| && (r.value.Some? ==> |r.rest| < |ts|)
    decreases |ts|, 1
  {
    if AtSym(ts, LParen) then
      (match ArgList([], ts[1..]) case Raised => Raised case Done(args, rest) => Done(Some(Call(args)), rest))
    else if AtSym(ts, Bang) && AtSym(ts[1..], LParen) then
      (match ArgList([], ts[2..]) case Raised => Raised case Done(args, rest) => Done(Some(Macro(args)), rest))
    else if AtSym(ts, LBracket) then
      (match ParseBp(0, ts[1..])
       case Raised => Raised
       case Done(e, rest) => if AtSym(rest, RBracket) then Done(Some(Index(e)), rest[1..]) else Raised)
    else if AtSym(ts, Dot) then
      var rest := Eaten(ts[1..]);
      if AtSym(rest, LParen) then
        (match ArgList([], rest[1..])
         case Raised => Raised
         case Done(args, rest') => Done(Some(Method(EatenText(ts[1..]), args)), rest'))
      else Done(Some(Field(EatenText(ts[1..]))), rest)
    else if AtSym(ts, Question) then
      if MessageAhead(ts[1..]) then
        (match ArgList([], ts[3..]) case Raised => Raised case Done(args, rest) => Done(Some(Ask(ts[1].name, args)), rest))
      else Done(Some(Propagate), ts[1..])
    else if AtSym(ts, Bang) && MessageAhead(ts[1..]) then
      (match ArgList([], ts[3..]) case Raised => Raised case Done(args, rest) => Done(Some(Send(ts[1].name, args)), rest))
    else if AtSym(ts, At) then
      (match ParseUnary(ts[1..]) case Raised => Raised case Done(d, rest) => Done(Some(Deadline(d)), rest))
    else Done(None, ts)
  }

  /** Arguments up to the closing parenthesis; a trailing comma is allowed. */
  function ArgList(args: seq<Tree>, ts: seq<Token>): (r: Parsed<seq<Tree>>)
    ensures r.Done? ==> |r.rest| < |ts|
    decreases |ts|, 6
  {
    if AtSym(ts, RParen) then Done(args, ts[1..])
    else if ts == [] then Raised
    else match ParseBp(0, ts)
      case Raised => Raised
      case Done(e, rest) =>
        if AtSym(rest, Comma) then ArgList(args + [e], rest[1..])
        else if AtSym(rest, RParen) then Done(args + [e], rest[1..])
        else Raised
  }

  function ParseExpr(ts: seq<Token>): Parsed<Tree> { ParseBp(0, ts) }

  // ----- the printer -----

  function InParens(ts: seq<Token>): seq<Token> { [Sym(LParen)] + ts + [Sym(RParen)] }

  /** A tree where an operator of power `m` may stand at its top. */
  function Print(t: Tree, m: nat): seq<Token>
    decreases t, 2
  {
    if !t.Binop? then PrintPost(t)
    else if Level(t.sym) < m then InParens(PrintBinop(t))
    else PrintBinop(t)
  }

  function Level(s: Symbol): nat { if Power(s).Some? then Power(s).value else 0 }

  /** The right operand has to bind tighter, the left one only as tight. */
  function PrintBinop(t: Tree): seq<Token>
    requires t.Binop?
    decreases t, 1
  {
    Print(t.lhs, Level(t.sym)) + [Sym(t.sym)] + Print(t.rhs, Level(t.sym) + 1)
  }

  function PrintPost(t: Tree): seq<Token>
    requires !t.Binop?
    decreases t, 1
  {
    if t.Post? then PrintTarget(t) + PrintForm(t.form) else PrintAtomic(t)
  }

  /** `(e.f)(x)` is not the method call `e.f(x)`. */
  predicate TargetNeedsParens(target: Tree, form: Form) {
    target.Binop? || (target.Post? && target.form.Field? && form.Call?)
  }

  function PrintTarget(t: Tree): seq<Token>
    requires t.Post?
    decreases t, 0
  {
    if TargetNeedsParens(t.target, t.form) then InParens(Print(t.target, 0)) else PrintPost(t.target)
  }

  function PrintForm(form: Form): seq<Token>
    decreases form, 3
  {
    match form
    case Call(args) => [Sym(LParen)] + PrintArgs(args)
    case Macro(args) => [Sym(Bang), Sym(LParen)] + PrintArgs(args)
    case Index(e) => [Sym(LBracket)] + Print(e, 0) + [Sym(RBracket)]
    case Field(name) => [Sym(Dot)] + if name == "" then [] else [Ident(name, true)]
    case Method(name, args) => [Sym(Dot), Ident(name, true), Sym(LParen)] + PrintArgs(args)
    case Propagate => [Sym(Question)]
    case Ask(msg, args) => [Sym(Question), Ident(msg, true), Sym(LParen)] + PrintArgs(args)
    case Send(msg, args) => [Sym(Bang), Ident(msg, true), Sym(LParen)] + PrintArgs(args)
    case Deadline(d) => [Sym(At)] + PrintUnary(d)
  }

  /** With the closing parenthesis. */
  function PrintArgs(args: seq<Tree>): seq<Token>
    decreases args, 3
  {
    if args == [] then [Sym(RParen)]
    else if |args| == 1 then Print(args[0], 0) + [Sym(RParen)]
    else Print(args[0], 0) + [Sym(Comma)] + PrintArgs(args[1..])
  }

  /** A tree where only prefix expressions may stand. */
  function PrintUnary(t: Tree): seq<Token>
    decreases t, 3
  {
    if t.Binop? || t.Post? then InParens(Print(t, 0)) else PrintAtomic(t)
  }

  function PrefixTokens(op: PrefixOp): seq<Token> {
    match op
    case Neg => [Sym(Minus)]
    case Not => [Sym(Bang)]
    case Deref => [Sym(Star)]
    case Ref => [Sym(Amp)]
    case RefMut => [Sym(Amp), Sym(MutKw)]
  }

  function PrintAtomic(t: Tree): seq<Token>
    requires !t.Binop? && !t.Post?
    decreases t, 0
  {
    match t
    case Name(name) => [Ident(name, true)]
    case Literal(text) => [Lit(text)]
    case Bad => []
    case Prefix(op, x) => PrefixTokens(op) + PrintUnary(x)
    case Tuple(elems) =>
      if |elems| == 1 then [Sym(LParen)] + Print(elems[0], 0) + [Sym(Comma), Sym(RParen)]
      else [Sym(LParen)] + PrintArgs(elems)
  }

  /** Trees without error nodes or missing names, with operators from the table. */
  predicate Sound(t: Tree)
    decreases t, 0
  {
    match t
    case Name(_) => true
    case Literal(_) => true
    case Bad => false
    case Prefix(_, x) => Sound(x)
    case Binop(s, l, r) => Power(s).Some? && Sound(l) && Sound(r)
    case Tuple(elems) => SoundAll(elems)
    case Post(target, form) => Sound(target) && SoundForm(form)
  }

  predicate SoundAll(ts: seq<Tree>)
    decreases ts, 0
  {
    ts == [] || (Sound(ts[0]) && SoundAll(ts[1..]))
  }

  predicate SoundForm(form: Form)
    decreases form, 0
  {
    match form
    case Call(args) => SoundAll(args)
    case Macro(args) => SoundAll(args)
    case Index(e) => Sound(e)
    case Field(name) => name != ""
    case Method(_, args) => SoundAll(args)
    case Propagate => true
    case Ask(_, args) => SoundAll(args)
    case Send(_, args) => SoundAll(args)
    case Deadline(d) => Sound(d)
  }
}
