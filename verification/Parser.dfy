/** The parser as it runs: a cursor over the tokens. */
module Parsers {
  import opened Wrappers
  import opened Pratt
  import opened PrattProof

  lemma Unfold(min: nat, ts: seq<Token>)
    ensures match Pratt.ParseUnary(ts)
            case Raised => ParseBp(min, ts) == Raised
            case Done(lhs, rest) => ParseBp(min, ts) == Climb(min, Postfix(lhs, rest))
  {
  }

  function OperatorAhead(min: nat, ts: seq<Token>): (r: Option<Symbol>)
    ensures r.Some? ==> ts != [] && ts[0] == Sym(r.value) && Power(r.value).Some? && Power(r.value).value >= min
  {
    if ts != [] && ts[0].Sym? && Power(ts[0].s).Some? && Power(ts[0].s).value >= min then Some(ts[0].s) else None
  }

  lemma ClimbStep(min: nat, l: Tree, ts: seq<Token>)
    ensures match OperatorAhead(min, ts)
            case None => Climb(min, Done(l, ts)) == Done(l, ts)
            case Some(s) =>
              (match ParseBp(Power(s).value + 1, ts[1..])
               case Raised => Climb(min, Done(l, ts)) == Raised
               case Done(rhs, rest) => Climb(min, Done(l, ts)) == Climb(min, Postfix(Binop(s, l, rhs), rest)))
  {
  }

  class Parser {
    const tokens: seq<Token>
    var pos: nat

    ghost predicate Valid()
      reads this
    {
      pos <= |tokens|
    }

    ghost function Rest(): seq<Token>
      requires Valid()
      reads this
    {
      tokens[pos..]
    }

    constructor (tokens: seq<Token>)
      ensures Valid() && this.tokens == tokens && Rest() == tokens
    {
      this.tokens, pos := tokens, 0;
    }

    /** Is the token `off` places ahead this symbol? */
    predicate At(off: nat, s: Symbol)
      requires Valid()
      reads this
      ensures off <= |Rest()| ==> (At(off, s) <==> AtSym(Rest()[off..], s))
    {
      pos + off < |tokens| && tokens[pos + off] == Sym(s)
    }

    method Eat() returns (text: string)
      requires Valid()
      modifies this`pos
      ensures Valid() && pos >= old(pos) && text == EatenText(old(Rest())) && Rest() == Eaten(old(Rest()))
    {
      text := EatenText(tokens[pos..]);
      if pos < |tokens| { pos := pos + 1; }
    }

    method EatIf(s: Symbol) returns (ok: bool)
      requires Valid()
      modifies this`pos
      ensures Valid() && pos >= old(pos) && ok == AtSym(old(Rest()), s)
      ensures Rest() == if ok then old(Rest())[1..] else old(Rest())
    {
      ok := pos < |tokens| && tokens[pos] == Sym(s);
      if ok { pos := pos + 1; }
    }

    /** What a method that may throw reports: a tree, or nothing. */
    ghost predicate Yields(r: Option<Tree>, spec: Parsed<Tree>)
      requires Valid()
      reads this
    {
      spec == if r.Some? then Done(r.value, Rest()) else Raised
    }

    method ParseExprBp(min: nat) returns (r: Option<Tree>)
      requires Valid()
      modifies this`pos
      ensures Valid() && pos >= old(pos) && Yields(r, ParseBp(min, old(Rest())))
      decreases |tokens| - pos, 5
    {
      Unfold(min, Rest());
      var first := ParseUnary();
      if first.None? { return None; }
      r := ClimbFrom(min, first.value);
    }

    /** The operator loop, from a prefix expression that has just been read. */
    method ClimbFrom(min: nat, first: Tree) returns (r: Option<Tree>)
      requires Valid()
      modifies this`pos
      ensures Valid() && pos >= old(pos) && Yields(r, Climb(min, Postfix(first, old(Rest()))))
      decreases |tokens| - pos, 4
    {
      var lhs := first;
      ghost var whole := Climb(min, Postfix(first, Rest()));
      while true
        invariant Valid() && pos >= old(pos) && whole == Climb(min, Postfix(lhs, Rest()))
        decreases |tokens| - pos
      {
        var l := ParsePostfix(lhs);
        if l.None? { return None; }
        ghost var ts := Rest();
        ClimbStep(min, l.value, ts);
        lhs := l.value;
        var op := EatOperator(min);
        if op.None? { return Some(lhs); }
        var rhs := ParseExprBp(Power(op.value).value + 1);
        if rhs.None? { return None; }
        lhs := Binop(op.value, lhs, rhs.value);
      }
    }

    /** The next token, if it is an operator of power at least `min`. */
    method EatOperator(min: nat) returns (op: Option<Symbol>)
      requires Valid()
      modifies this`pos
      ensures Valid() && pos >= old(pos) && op == OperatorAhead(min, old(Rest()))
      ensures Rest() == if op.Some? then old(Rest())[1..] else old(Rest())
    {
      if pos == |tokens| || !tokens[pos].Sym? { return None; }
      var power := Power(tokens[pos].s);
      if power.None? || power.value < min { return None; }
      op := Some(tokens[pos].s);
      pos := pos + 1;
    }

    method ParseUnary() returns (r: Option<Tree>)
      requires Valid()
      modifies this`pos
      ensures Valid() && pos >= old(pos) && Yields(r, Pratt.ParseUnary(old(Rest())))
      decreases |tokens| - pos, 1
    {
      if pos < |tokens| && tokens[pos] in {Sym(Minus), Sym(Bang), Sym(Star), Sym(Amp)} {
        var s := tokens[pos].s;
        ghost var start := Rest();
        pos := pos + 1;
        assert Rest() == start[1..];
        var mutable := false;
        if s == Amp { mutable := EatIf(MutKw); }
        var op := match s case Minus => Neg case Bang => Not case Star => Deref case _ => if mutable then RefMut else Ref;
        assert mutable ==> Rest() == start[2..];
        assert PrefixOf(start) == Some((op, Rest()));
        var inner := ParseUnary();
        r := if inner.None? then None else Some(Prefix(op, inner.value));
      } else {
        r := ParseAtom();
      }
    }

    method ParseAtom() returns (r: Option<Tree>)
      requires Valid()
      modifies this`pos
      ensures Valid() && pos >= old(pos) && Yields(r, Pratt.ParseAtom(old(Rest())))
      decreases |tokens| - pos, 0
    {
      if pos == |tokens| { return Some(Bad); }
      var t := tokens[pos];
      ghost var start := Rest();
      pos := pos + 1;
      assert Rest() == start[1..];
      match t
      case Ident(name, _) => r := Some(Name(name));
      case Lit(text) => r := Some(Literal(text));
      case Sym(LParen) =>
        var unit := EatIf(RParen);
        if unit {
          assert Rest() == start[2..];
          return Some(Tuple([]));
        }
        var first := ParseExprBp(0);
        if first.None? { return None; }
        r := ParseTupleRest(first.value);
      case Sym(_) => r := Some(Bad);
    }

    method ParseTupleRest(first: Tree) returns (r: Option<Tree>)
      requires Valid()
      modifies this`pos
      ensures Valid() && pos >= old(pos) && Yields(r, TupleRest([first], false, old(Rest())))
      decreases |tokens| - pos, 6
    {
      var elems, comma := [first], false;
      ghost var whole := TupleRest(elems, comma, Rest());
      var more := true;
      while more
        invariant Valid() && pos >= old(pos) && elems != []
        invariant more ==> whole == TupleRest(elems, comma, Rest())
        invariant !more ==> comma && AtSym(Rest(), RParen) && whole == Done(Tuple(elems), Rest()[1..])
        decreases more, |tokens| - pos
      {
        ghost var before := Rest();
        var ate := EatIf(Comma);
        if !ate { break; }
        comma := true;
        if At(0, RParen) {
          assert Rest()[0..] == Rest();
          more := false;
        } else {
          assert Rest()[0..] == Rest();
          var e := ParseExprBp(0);
          if e.None? { return None; }
          elems := elems + [e.value];
        }
      }
      var closed := EatIf(RParen);
      if !closed { return None; }
      r := Some(if !comma && |elems| == 1 then elems[0] else Tuple(elems));
    }

    method ParsePostfix(start: Tree) returns (r: Option<Tree>)
      requires Valid()
      modifies this`pos
      ensures Valid() && pos >= old(pos) && Yields(r, Postfix(start, old(Rest())))
      decreases |tokens| - pos, 3
    {
      var lhs := start;
      ghost var whole := Postfix(start, Rest());
      while true
        invariant Valid() && pos >= old(pos) && whole == Postfix(lhs, Rest())
        decreases |tokens| - pos
      {
        var raised, form := ParseOneForm();
        if raised { return None; }
        if form.None? { return Some(lhs); }
        lhs := Post(lhs, form.value);
      }
    }

    method ParseOneForm() returns (raised: bool, form: Option<Form>)
      requires Valid()
      modifies this`pos
      ensures Valid() && pos >= old(pos)
      ensures ParseForm(old(Rest())) == if raised then Raised else Done(form, Rest())
      decreases |tokens| - pos, 2
    {
      ghost var start := Rest();
      assert start[0..] == start;
      if At(0, LParen) {
        pos := pos + 1;
        assert Rest() == start[1..];
        var args := ParseCallArgs();
        return args.None?, if args.None? then None else Some(Call(args.value));
      }
      if At(0, Bang) && At(1, LParen) {
        pos := pos + 2;
        assert Rest() == start[2..];
        var args := ParseCallArgs();
        return args.None?, if args.None? then None else Some(Macro(args.value));
      }
      if At(0, LBracket) || At(0, Dot) || At(0, Pratt.At) {
        raised, form := ParseLedForm();
        return;
      }
      if At(0, Question) || At(0, Bang) {
        raised, form := ParseMessageForm();
        return;
      }
      return false, None;
    }

    /** Index, field, method and deadline. */
    method ParseLedForm() returns (raised: bool, form: Option<Form>)
      requires Valid() && pos < |tokens| && tokens[pos] in {Sym(LBracket), Sym(Dot), Sym(Pratt.At)}
      modifies this`pos
      ensures Valid() && pos >= old(pos)
      ensures ParseForm(old(Rest())) == if raised then Raised else Done(form, Rest())
      decreases |tokens| - pos, 1
    {
      ghost var start := Rest();
      var t := tokens[pos];
      pos := pos + 1;
      assert Rest() == start[1..];
      if t == Sym(LBracket) {
        var e := ParseExprBp(0);
        if e.None? { return true, None; }
        var ok := EatIf(RBracket);
        return !ok, if ok then Some(Index(e.value)) else None;
      } else if t == Sym(Dot) {
        var name := Eat();
        var called := EatIf(LParen);
        if !called { return false, Some(Field(name)); }
        var args := ParseCallArgs();
        return args.None?, if args.None? then None else Some(Method(name, args.value));
      } else {
        var d := ParseUnary();
        return d.None?, if d.None? then None else Some(Deadline(d.value));
      }
    }

    /** Propagation, and the two message forms. */
    method ParseMessageForm() returns (raised: bool, form: Option<Form>)
      requires Valid() && pos < |tokens|
      requires tokens[pos] == Sym(Question) || (tokens[pos] == Sym(Bang) && !AtSym(Rest()[1..], LParen))
      modifies this`pos
      ensures Valid() && pos >= old(pos)
      ensures ParseForm(old(Rest())) == if raised then Raised else Done(form, Rest())
      decreases |tokens| - pos, 1
    {
      ghost var start := Rest();
      var ask := tokens[pos] == Sym(Question);
      var message := pos + 2 < |tokens| && tokens[pos + 1].Ident? && tokens[pos + 1].sameLine && tokens[pos + 2] == Sym(LParen);
      assert message == MessageAhead(start[1..]);
      if message {
        var name := tokens[pos + 1].name;
        pos := pos + 3;
        assert Rest() == start[3..];
        var args := ParseCallArgs();
        if args.None? { return true, None; }
        return false, Some(if ask then Ask(name, args.value) else Send(name, args.value));
      }
      if ask {
        pos := pos + 1;
        assert Rest() == start[1..];
        return false, Some(Propagate);
      }
      return false, None;
    }

    /** After the opening parenthesis. */
    method ParseCallArgs() returns (r: Option<seq<Tree>>)
      requires Valid()
      modifies this`pos
      ensures Valid() && pos >= old(pos)
      ensures ArgList([], old(Rest())) == if r.Some? then Done(r.value, Rest()) else Raised
      decreases |tokens| - pos, 6
    {
      var args: seq<Tree> := [];
      ghost var whole := ArgList([], Rest());
      while pos < |tokens| && tokens[pos] != Sym(RParen)
        invariant Valid() && pos >= old(pos) && whole == ArgList(args, Rest())
        decreases |tokens| - pos
      {
        var e := ParseExprBp(0);
        if e.None? { return None; }
        args := args + [e.value];
        var comma := EatIf(Comma);
        if !comma {
          var closed := EatIf(RParen);
          return if closed then Some(args) else None;
        }
      }
      var closed := EatIf(RParen);
      r := if closed then Some(args) else None;
    }
  }

  /** Parsing the printed form of a tree: the tree, and the cursor at the end. */
  method ParsePrinted(t: Tree) returns (r: Option<Tree>, pos: nat)
    requires Sound(t)
    ensures r == Some(t) && pos == |Print(t, 0)|
  {
    var p := new Parser(Print(t, 0));
    RoundTrip(t);
    r := p.ParseExprBp(0);
    pos := p.pos;
  }

  /** A prefix operator binds tighter than a postfix form: `-x.f` is `(-x).f`. */
  lemma PrefixBeforePostfix(op: PrefixOp, x: Tree, form: Form)
    requires Sound(x) && SoundForm(form)
    ensures ParseExpr(PrefixTokens(op) + PrintUnary(x) + PrintForm(form)) == Done(Post(Prefix(op, x), form), [])
  {
    var t := Post(Prefix(op, x), form);
    RoundTrip(t);
    assert Print(t, 0) == PrintTarget(t) + PrintForm(form) == PrintAtomic(Prefix(op, x)) + PrintForm(form);
  }
}
