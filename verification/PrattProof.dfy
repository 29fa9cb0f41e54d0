/** Printing and parsing are inverse, and the printer's parentheses are the fewest. */
module PrattProof {
  import opened Wrappers
  import opened Pratt

  // ----- what may follow an expression -----

  predicate StartsForm(s: Symbol) {
    s == LParen || s == Bang || s == LBracket || s == Dot || s == Question || s == At
  }

  /** The next token, if any, is a symbol that starts no postfix form. */
  predicate FormFree(ts: seq<Token>) { ts == [] || (ts[0].Sym? && !StartsForm(ts[0].s)) }

  /** ... and no operator tighter than `m`. */
  predicate Stops(ts: seq<Token>, m: nat) { FormFree(ts) && (ts != [] && Power(ts[0].s).Some? ==> Power(ts[0].s).value <= m) }

  /** ... and no operator at all. */
  predicate Closed(ts: seq<Token>) { FormFree(ts) && (ts != [] ==> Power(ts[0].s).None?) }

  predicate FollowsForm(form: Form, ts: seq<Token>) {
    (form.Field? ==> !AtSym(ts, LParen)) && (form.Propagate? ==> ts == [] || ts[0].Sym?)
  }

  predicate Follows(t: Tree, ts: seq<Token>) { t.Post? ==> FollowsForm(t.form, ts) }

  lemma NoForm(t: Tree, ts: seq<Token>)
    requires FormFree(ts)
    ensures Postfix(t, ts) == Done(t, ts)
  {
  }

  lemma Assoc(a: seq<Token>, b: seq<Token>, c: seq<Token>)
    ensures (a + b) + c == a + (b + c)
  {
  }

  /** Regrouping printed tokens around what follows them. */
  lemma ParenShape(a: seq<Token>, rest: seq<Token>)
    ensures InParens(a) + rest == [Sym(LParen)] + (a + ([Sym(RParen)] + rest))
  {
  }

  lemma InfixShape(a: seq<Token>, s: Token, b: seq<Token>, rest: seq<Token>)
    ensures a + [s] + b + rest == a + ([s] + (b + rest))
  {
  }

  lemma ListShape(a: seq<Token>, b: seq<Token>, rest: seq<Token>)
    ensures [Sym(LParen)] + (a + [Sym(Comma)] + b) + rest == [Sym(LParen)] + (a + ([Sym(Comma)] + (b + rest)))
  {
  }

  lemma LoneShape(a: seq<Token>, rest: seq<Token>)
    ensures [Sym(LParen)] + a + [Sym(Comma), Sym(RParen)] + rest == [Sym(LParen)] + (a + ([Sym(Comma), Sym(RParen)] + rest))
  {
  }

  // ----- how a printed expression starts -----

  predicate OpensOperand(ts: seq<Token>) {
    ts != [] && (ts[0].Sym? ==> ts[0].s in {LParen, Minus, Bang, Star, Amp})
  }

  lemma {:induction false} PrintStarts(t: Tree, m: nat)
    requires Sound(t)
    ensures OpensOperand(Print(t, m))
    decreases t, 2
  {
    if t.Binop? { PrintStarts(t.lhs, Level(t.sym)); } else { PostStarts(t); }
  }

  lemma {:induction false} PostStarts(t: Tree)
    requires Sound(t) && !t.Binop?
    ensures OpensOperand(PrintPost(t))
    decreases t, 1
  {
    if t.Post? && !TargetNeedsParens(t.target, t.form) { PostStarts(t.target); }
  }

  // ----- the round trip -----

  lemma {:induction false} AtomicBack(t: Tree, rest: seq<Token>)
    requires Sound(t) && !t.Binop? && !t.Post?
    ensures ParseUnary(PrintAtomic(t) + rest) == Done(t, rest)
    decreases t, 0
  {
    var ts := PrintAtomic(t) + rest;
    match t
    case Name(_) => assert ts[1..] == rest;
    case Literal(_) => assert ts[1..] == rest;
    case Prefix(op, x) => PrefixBack(op, x, rest);
    case Tuple(elems) => TupleBack(elems, rest);
  }

  lemma {:induction false} PrefixBack(op: PrefixOp, x: Tree, rest: seq<Token>)
    requires Sound(x)
    ensures ParseUnary(PrefixTokens(op) + PrintUnary(x) + rest) == Done(Prefix(op, x), rest)
    decreases x, 6
  {
    var inner := PrintUnary(x) + rest;
    UnaryBack(x, rest);
    UnaryStarts(x);
    PrefixReads(op, inner);
    Assoc(PrefixTokens(op), PrintUnary(x), rest);
  }

  lemma PrefixReads(op: PrefixOp, inner: seq<Token>)
    requires OpensOperand(inner)
    ensures PrefixOf(PrefixTokens(op) + inner) == Some((op, inner))
  {
    var ts := PrefixTokens(op) + inner;
    assert ts[1..] == (if op.RefMut? then [Sym(MutKw)] + inner else inner);
    assert op.RefMut? ==> ts[2..] == inner;
  }

  lemma UnaryStarts(x: Tree)
    requires Sound(x)
    ensures OpensOperand(PrintUnary(x))
  {
    if !x.Binop? && !x.Post? { PostStarts(x); }
  }

  lemma {:induction false} UnaryBack(t: Tree, rest: seq<Token>)
    requires Sound(t)
    ensures ParseUnary(PrintUnary(t) + rest) == Done(t, rest)
    decreases t, 5
  {
    if t.Binop? || t.Post? { ParensBack(t, rest); } else { AtomicBack(t, rest); }
  }

  /** An opening parenthesis, then a first element. */
  lemma FirstElement(body: seq<Token>, e: Tree, rest: seq<Token>)
    requires OpensOperand(body) && ParseBp(0, body) == Done(e, rest)
    ensures ParseUnary([Sym(LParen)] + body) == TupleRest([e], false, rest)
  {
    var ts := [Sym(LParen)] + body;
    assert ts[1..] == body;
    assert PrefixOf(ts) == None;
  }

  lemma NoTuple(t: Tree, rest: seq<Token>)
    ensures TupleRest([t], false, [Sym(RParen)] + rest) == Done(t, rest)
  {
    assert ([Sym(RParen)] + rest)[1..] == rest;
  }

  lemma {:induction false} ParensBack(t: Tree, rest: seq<Token>)
    requires Sound(t)
    ensures ParseUnary(InParens(Print(t, 0)) + rest) == Done(t, rest)
    decreases t, 3
  {
    var close := [Sym(RParen)] + rest;
    var body := Print(t, 0) + close;
    PrintStarts(t, 0);
    ExprBack(t, 0, 0, close);
    FirstElement(body, t, close);
    NoTuple(t, rest);
    ParenShape(Print(t, 0), rest);
  }

  lemma {:induction false} PostBack(t: Tree, rest: seq<Token>)
    requires Sound(t) && !t.Binop? && Follows(t, rest)
    ensures Operand(PrintPost(t) + rest) == Postfix(t, rest)
    decreases t, 1
  {
    if !t.Post? {
      AtomicBack(t, rest);
    } else {
      var tail := PrintForm(t.form) + rest;
      Assoc(PrintTarget(t), PrintForm(t.form), rest);
      FormBack(t.form, rest);
      FormStarts(t.form);
      if TargetNeedsParens(t.target, t.form) { ParensBack(t.target, tail); } else { PostBack(t.target, tail); }
      assert Postfix(t.target, tail) == Postfix(t, rest);
    }
  }

  lemma FormStarts(form: Form)
    ensures PrintForm(form) != [] && PrintForm(form)[0].Sym? && (!form.Call? ==> PrintForm(form)[0] != Sym(LParen))
  {
  }

  /** Parsing a printed tree resumes the operator loop with that tree in hand. */
  lemma {:induction false} ExprBack(t: Tree, m: nat, min: nat, rest: seq<Token>)
    requires Sound(t) && min <= m && Stops(rest, m)
    ensures ParseBp(min, Print(t, m) + rest) == Climb(min, Done(t, rest))
    decreases t, if t.Binop? && Level(t.sym) < m then 4 else 2
  {
    NoForm(t, rest);
    if !t.Binop? {
      PostBack(t, rest);
    } else if Level(t.sym) < m {
      ParensBack(t, rest);
    } else {
      BinopBack(t, min, rest);
    }
  }

  /** The loop takes an operator and its right operand. */
  lemma ClimbTakes(min: nat, l: Tree, s: Symbol, right: seq<Token>, e: Tree, rest: seq<Token>)
    requires Power(s).Some? && min <= Level(s) && FormFree(rest) && ParseBp(Level(s) + 1, right) == Done(e, rest)
    ensures Climb(min, Done(l, [Sym(s)] + right)) == Climb(min, Done(Binop(s, l, e), rest))
  {
    assert ([Sym(s)] + right)[1..] == right;
    NoForm(Binop(s, l, e), rest);
  }

  lemma {:induction false} BinopBack(t: Tree, min: nat, rest: seq<Token>)
    requires t.Binop? && Sound(t) && min <= Level(t.sym) && Stops(rest, Level(t.sym))
    ensures ParseBp(min, PrintBinop(t) + rest) == Climb(min, Done(t, rest))
    decreases t, 1
  {
    var p := Level(t.sym);
    var right := Print(t.rhs, p + 1) + rest;
    var tail := [Sym(t.sym)] + right;
    InfixShape(Print(t.lhs, p), Sym(t.sym), Print(t.rhs, p + 1), rest);
    ExprBack(t.lhs, p, min, tail);
    ExprBack(t.rhs, p + 1, p + 1, rest);
    ClimbTakes(min, t.lhs, t.sym, right, t.rhs, rest);
  }

  lemma {:induction false} ClosedBack(t: Tree, rest: seq<Token>)
    requires Sound(t) && Closed(rest)
    ensures ParseBp(0, Print(t, 0) + rest) == Done(t, rest)
    decreases t, 4
  {
    ExprBack(t, 0, 0, rest);
  }

  lemma ArgStep(acc: seq<Tree>, ts: seq<Token>, e: Tree, rest: seq<Token>)
    requires ts != [] && !AtSym(ts, RParen)
    ensures ParseBp(0, ts) == Done(e, [Sym(Comma)] + rest) ==> ArgList(acc, ts) == ArgList(acc + [e], rest)
    ensures ParseBp(0, ts) == Done(e, [Sym(RParen)] + rest) ==> ArgList(acc, ts) == Done(acc + [e], rest)
  {
    assert ([Sym(Comma)] + rest)[1..] == rest && ([Sym(RParen)] + rest)[1..] == rest;
  }

  lemma {:induction false} ArgsBack(acc: seq<Tree>, args: seq<Tree>, rest: seq<Token>)
    requires SoundAll(args)
    ensures ArgList(acc, PrintArgs(args) + rest) == Done(acc + args, rest)
    decreases args, 7
  {
    if args == [] {
      assert ([Sym(RParen)] + rest)[1..] == rest && acc + args == acc;
    } else if |args| == 1 {
      LastArg(acc, args, rest);
    } else {
      NextArg(acc, args, rest);
      ArgsBack(acc + [args[0]], args[1..], rest);
      assert acc + args == acc + [args[0]] + args[1..];
    }
  }

  lemma {:induction false} LastArg(acc: seq<Tree>, args: seq<Tree>, rest: seq<Token>)
    requires |args| == 1 && SoundAll(args)
    ensures ArgList(acc, PrintArgs(args) + rest) == Done(acc + args, rest)
    decreases args, 6
  {
    var first := Print(args[0], 0);
    var tail := [Sym(RParen)] + rest;
    PrintStarts(args[0], 0);
    ClosedBack(args[0], tail);
    ArgStep(acc, first + tail, args[0], rest);
    Assoc(first, [Sym(RParen)], rest);
    assert acc + args == acc + [args[0]];
  }

  lemma {:induction false} NextArg(acc: seq<Tree>, args: seq<Tree>, rest: seq<Token>)
    requires |args| > 1 && SoundAll(args)
    ensures ArgList(acc, PrintArgs(args) + rest) == ArgList(acc + [args[0]], PrintArgs(args[1..]) + rest)
    decreases args, 6
  {
    var first, more := Print(args[0], 0), PrintArgs(args[1..]);
    var tail := [Sym(Comma)] + (more + rest);
    PrintStarts(args[0], 0);
    ClosedBack(args[0], tail);
    ArgStep(acc, first + tail, args[0], more + rest);
    InfixShape(first, Sym(Comma), more, rest);
  }

  lemma {:induction false} TupleBack(elems: seq<Tree>, rest: seq<Token>)
    requires SoundAll(elems)
    ensures ParseUnary(PrintAtomic(Tuple(elems)) + rest) == Done(Tuple(elems), rest)
    decreases elems, 8
  {
    if elems == [] {
      EmptyBack(rest);
    } else if |elems| == 1 {
      SingleBack(elems, rest);
    } else {
      ManyBack(elems, rest);
    }
  }

  lemma EmptyBack(rest: seq<Token>)
    ensures ParseUnary(PrintAtomic(Tuple([])) + rest) == Done(Tuple([]), rest)
  {
    assert PrintAtomic(Tuple([])) == [Sym(LParen), Sym(RParen)];
    var ts := [Sym(LParen), Sym(RParen)] + rest;
    assert ts[1..] == [Sym(RParen)] + rest && ts[2..] == rest;
  }

  lemma {:induction false} ManyBack(elems: seq<Tree>, rest: seq<Token>)
    requires |elems| > 1 && SoundAll(elems)
    ensures ParseUnary(PrintAtomic(Tuple(elems)) + rest) == Done(Tuple(elems), rest)
    decreases elems, 7
  {
    var more := PrintArgs(elems[1..]);
    var tail := [Sym(Comma)] + (more + rest);
    var body := Print(elems[0], 0) + tail;
    PrintStarts(elems[0], 0);
    ClosedBack(elems[0], tail);
    FirstElement(body, elems[0], tail);
    TupleTail([elems[0]], false, elems[1..], rest);
    assert [elems[0]] + elems[1..] == elems;
    ListShape(Print(elems[0], 0), more, rest);
  }

  /** A tuple of one keeps its comma. */
  lemma {:induction false} SingleBack(elems: seq<Tree>, rest: seq<Token>)
    requires |elems| == 1 && SoundAll(elems)
    ensures ParseUnary(PrintAtomic(Tuple(elems)) + rest) == Done(Tuple(elems), rest)
    decreases elems, 7
  {
    var tail := [Sym(Comma), Sym(RParen)] + rest;
    var body := Print(elems[0], 0) + tail;
    PrintStarts(elems[0], 0);
    ClosedBack(elems[0], tail);
    FirstElement(body, elems[0], tail);
    LoneComma(elems[0], rest);
    assert [elems[0]] == elems;
    LoneShape(Print(elems[0], 0), rest);
  }

  lemma LoneComma(e: Tree, rest: seq<Token>)
    ensures TupleRest([e], false, [Sym(Comma), Sym(RParen)] + rest) == Done(Tuple([e]), rest)
  {
    var tail := [Sym(Comma), Sym(RParen)] + rest;
    assert tail[1..] == [Sym(RParen)] + rest && tail[1..][1..] == rest;
  }

  lemma TupleStep(acc: seq<Tree>, comma: bool, body: seq<Token>, e: Tree, rest: seq<Token>)
    requires acc != [] && !AtSym(body, RParen) && ParseBp(0, body) == Done(e, rest)
    ensures TupleRest(acc, comma, [Sym(Comma)] + body) == TupleRest(acc + [e], true, rest)
  {
    assert ([Sym(Comma)] + body)[1..] == body;
  }

  lemma TupleEnd(acc: seq<Tree>, rest: seq<Token>)
    requires acc != []
    ensures TupleRest(acc, true, [Sym(RParen)] + rest) == Done(Tuple(acc), rest)
  {
    assert ([Sym(RParen)] + rest)[1..] == rest;
  }

  lemma {:induction false} TupleTail(acc: seq<Tree>, comma: bool, more: seq<Tree>, rest: seq<Token>)
    requires acc != [] && more != [] && SoundAll(more)
    ensures TupleRest(acc, comma, [Sym(Comma)] + (PrintArgs(more) + rest)) == Done(Tuple(acc + more), rest)
    decreases more, 7
  {
    if |more| == 1 {
      LastElement(acc, comma, more, rest);
      TupleEnd(acc + more, rest);
    } else {
      NextElement(acc, comma, more, rest);
      TupleTail(acc + [more[0]], true, more[1..], rest);
      assert acc + [more[0]] + more[1..] == acc + more;
    }
  }

  lemma {:induction false} LastElement(acc: seq<Tree>, comma: bool, more: seq<Tree>, rest: seq<Token>)
    requires acc != [] && |more| == 1 && SoundAll(more)
    ensures TupleRest(acc, comma, [Sym(Comma)] + (PrintArgs(more) + rest)) == TupleRest(acc + more, true, [Sym(RParen)] + rest)
    decreases more, 6
  {
    var first, tail := Print(more[0], 0), [Sym(RParen)] + rest;
    PrintStarts(more[0], 0);
    ClosedBack(more[0], tail);
    TupleStep(acc, comma, first + tail, more[0], tail);
    Assoc(first, [Sym(RParen)], rest);
    assert acc + [more[0]] == acc + more;
  }

  lemma {:induction false} NextElement(acc: seq<Tree>, comma: bool, more: seq<Tree>, rest: seq<Token>)
    requires acc != [] && |more| > 1 && SoundAll(more)
    ensures TupleRest(acc, comma, [Sym(Comma)] + (PrintArgs(more) + rest))
         == TupleRest(acc + [more[0]], true, [Sym(Comma)] + (PrintArgs(more[1..]) + rest))
    decreases more, 6
  {
    var first, after := Print(more[0], 0), PrintArgs(more[1..]);
    var tail := [Sym(Comma)] + (after + rest);
    PrintStarts(more[0], 0);
    ClosedBack(more[0], tail);
    TupleStep(acc, comma, first + tail, more[0], tail);
    InfixShape(first, Sym(Comma), after, rest);
  }

  lemma {:induction false} FormBack(form: Form, rest: seq<Token>)
    requires SoundForm(form) && FollowsForm(form, rest)
    ensures ParseForm(PrintForm(form) + rest) == Done(Some(form), rest)
    decreases form, 8
  {
    match form
    case Call(_) => CallBack(form, rest);
    case Macro(_) => CallBack(form, rest);
    case Index(_) => IndexBack(form, rest);
    case Field(_) => FieldBack(form, rest);
    case Method(_, _) => MethodBack(form, rest);
    case Propagate => PropagateBack(rest);
    case Ask(_, _) => AskBack(form, rest);
    case Send(_, _) => SendBack(form, rest);
    case Deadline(_) => DeadlineBack(form, rest);
  }

  lemma FieldBack(form: Form, rest: seq<Token>)
    requires form.Field? && SoundForm(form) && !AtSym(rest, LParen)
    ensures ParseForm(PrintForm(form) + rest) == Done(Some(form), rest)
  {
    var ts := [Sym(Dot), Ident(form.name, true)] + rest;
    assert PrintForm(form) + rest == ts;
    assert ts[1..] == [Ident(form.name, true)] + rest && Eaten(ts[1..]) == rest;
  }

  lemma PropagateBack(rest: seq<Token>)
    requires rest == [] || rest[0].Sym?
    ensures ParseForm(PrintForm(Propagate) + rest) == Done(Some(Propagate), rest)
  {
    assert ([Sym(Question)] + rest)[1..] == rest;
  }

  lemma {:induction false} DeadlineBack(form: Form, rest: seq<Token>)
    requires form.Deadline? && SoundForm(form)
    ensures ParseForm(PrintForm(form) + rest) == Done(Some(form), rest)
    decreases form, 7
  {
    var tail := PrintUnary(form.due) + rest;
    UnaryBack(form.due, rest);
    Assoc([Sym(At)], PrintUnary(form.due), rest);
    assert ([Sym(At)] + tail)[1..] == tail;
  }

  lemma CallForm(macro: bool, tail: seq<Token>, args: seq<Tree>, rest: seq<Token>)
    requires ArgList([], tail) == Done(args, rest)
    ensures ParseForm((if macro then [Sym(Bang), Sym(LParen)] else [Sym(LParen)]) + tail)
         == Done(Some(if macro then Macro(args) else Call(args)), rest)
  {
    var ts := (if macro then [Sym(Bang), Sym(LParen)] else [Sym(LParen)]) + tail;
    assert macro ==> ts[1..][0] == Sym(LParen) && ts[2..] == tail;
    assert !macro ==> ts[1..] == tail;
  }

  lemma {:induction false} CallBack(form: Form, rest: seq<Token>)
    requires (form.Call? || form.Macro?) && SoundForm(form)
    ensures ParseForm(PrintForm(form) + rest) == Done(Some(form), rest)
    decreases form, 7
  {
    ArgsBack([], form.args, rest);
    assert [] + form.args == form.args;
    CallForm(form.Macro?, PrintArgs(form.args) + rest, form.args, rest);
    Assoc(if form.Macro? then [Sym(Bang), Sym(LParen)] else [Sym(LParen)], PrintArgs(form.args), rest);
  }

  lemma {:induction false} IndexBack(form: Form, rest: seq<Token>)
    requires form.Index? && SoundForm(form)
    ensures ParseForm(PrintForm(form) + rest) == Done(Some(form), rest)
    decreases form, 7
  {
    var close := [Sym(RBracket)] + rest;
    assert (PrintForm(form) + rest)[1..] == Print(form.at, 0) + close;
    ClosedBack(form.at, close);
    assert close[1..] == rest;
  }

  lemma MethodForm(name: string, tail: seq<Token>, args: seq<Tree>, rest: seq<Token>)
    requires ArgList([], tail) == Done(args, rest)
    ensures ParseForm([Sym(Dot), Ident(name, true), Sym(LParen)] + tail) == Done(Some(Method(name, args)), rest)
  {
    var ts := [Sym(Dot), Ident(name, true), Sym(LParen)] + tail;
    assert ts[1..] == [Ident(name, true), Sym(LParen)] + tail;
    assert Eaten(ts[1..]) == [Sym(LParen)] + tail && ([Sym(LParen)] + tail)[1..] == tail;
  }

  lemma {:induction false} MethodBack(form: Form, rest: seq<Token>)
    requires form.Method? && SoundForm(form)
    ensures ParseForm(PrintForm(form) + rest) == Done(Some(form), rest)
    decreases form, 7
  {
    ArgsBack([], form.args, rest);
    assert [] + form.args == form.args;
    MethodForm(form.name, PrintArgs(form.args) + rest, form.args, rest);
    Assoc([Sym(Dot), Ident(form.name, true), Sym(LParen)], PrintArgs(form.args), rest);
  }

  /** The two message forms differ only in the mark. */
  lemma MessageForm(mark: Symbol, msg: string, tail: seq<Token>, args: seq<Tree>, rest: seq<Token>)
    requires (mark == Question || mark == Bang) && ArgList([], tail) == Done(args, rest)
    ensures ParseForm([Sym(mark), Ident(msg, true), Sym(LParen)] + tail)
         == Done(Some(if mark == Question then Ask(msg, args) else Send(msg, args)), rest)
  {
    var ts := [Sym(mark), Ident(msg, true), Sym(LParen)] + tail;
    assert ts[3..] == tail;
    assert ts[1..][0] == Ident(msg, true) && ts[1..][1] == Sym(LParen);
  }

  lemma {:induction false} AskBack(form: Form, rest: seq<Token>)
    requires form.Ask? && SoundForm(form)
    ensures ParseForm(PrintForm(form) + rest) == Done(Some(form), rest)
    decreases form, 7
  {
    var tail := PrintArgs(form.args) + rest;
    ArgsBack([], form.args, rest);
    assert [] + form.args == form.args;
    MessageForm(Question, form.msg, tail, form.args, rest);
    Assoc([Sym(Question), Ident(form.msg, true), Sym(LParen)], PrintArgs(form.args), rest);
  }

  lemma {:induction false} SendBack(form: Form, rest: seq<Token>)
    requires form.Send? && SoundForm(form)
    ensures ParseForm(PrintForm(form) + rest) == Done(Some(form), rest)
    decreases form, 7
  {
    var tail := PrintArgs(form.args) + rest;
    ArgsBack([], form.args, rest);
    assert [] + form.args == form.args;
    MessageForm(Bang, form.msg, tail, form.args, rest);
    Assoc([Sym(Bang), Ident(form.msg, true), Sym(LParen)], PrintArgs(form.args), rest);
  }

  /** Printing any tree and parsing it gives the tree back, with no token left. */
  lemma RoundTrip(t: Tree)
    requires Sound(t)
    ensures ParseExpr(Print(t, 0)) == Done(t, [])
  {
    ClosedBack(t, []);
    assert Print(t, 0) + [] == Print(t, 0);
  }

  /** ... and before any token that ends an expression. */
  lemma RoundTripInContext(t: Tree, rest: seq<Token>)
    requires Sound(t) && Closed(rest)
    ensures ParseExpr(Print(t, 0) + rest) == Done(t, rest)
  {
    ClosedBack(t, rest);
  }
}
