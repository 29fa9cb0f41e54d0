/** The operator tiers as lists of spellings, and how they group operands: by
    tier alone, without the parser's table. */
module PrattTiers {
  import opened Wrappers
  import opened Pratt
  import opened PrattProof

  /** From the loosest to the tightest. */
  const TIERS: seq<set<Symbol>> :=
    [{DotDot, DotDotEq}, {OrOr, OrKw}, {AndAnd, AndKw}, {EqEq, NotEq}, {Less, LessEq, Greater, GreaterEq},
     {Pipe}, {Caret}, {Amp}, {Shl, Shr}, {Plus, Minus}, {Star, Slash, Percent}]

  /** The tier that lists a symbol, looking from tier `k` up. */
  function TierFrom(s: Symbol, k: nat): Option<nat>
    requires k <= |TIERS|
    decreases |TIERS| - k
  {
    if k == |TIERS| then None else if s in TIERS[k] then Some(k) else TierFrom(s, k + 1)
  }

  function Tier(s: Symbol): Option<nat> { TierFrom(s, 0) }

  predicate Operator(s: Symbol) { Tier(s).Some? }

  predicate Tighter(s: Symbol, t: Symbol)
    requires Operator(s) && Operator(t)
  {
    Tier(s).value > Tier(t).value
  }

  lemma InOneTier(s: Symbol, k: nat)
    requires k < |TIERS|
    ensures s in TIERS[k] <==> Power(s) == Some(k)
  {
  }

  lemma PowerBound(s: Symbol)
    ensures Power(s).Some? ==> Power(s).value < |TIERS|
  {
  }

  lemma {:induction false} TierIsPower(s: Symbol, k: nat)
    requires k <= |TIERS|
    ensures TierFrom(s, k) == if Power(s).Some? && Power(s).value >= k then Power(s) else None
    decreases |TIERS| - k
  {
    if k == |TIERS| {
      PowerBound(s);
    } else {
      InOneTier(s, k);
      TierIsPower(s, k + 1);
    }
  }

  /** The symbols of the tiers, and no others, are the operators of the parser. */
  lemma TiersAreThePowers(s: Symbol)
    ensures Tier(s) == Power(s)
  {
    TierIsPower(s, 0);
  }

  /** How the operators are spelled, and the other symbols of an expression. */
  lemma LooseSpellings()
    ensures SymbolText(DotDot) == ".." && SymbolText(DotDotEq) == "..="
    ensures SymbolText(OrOr) == "||" && SymbolText(OrKw) == "or" && SymbolText(AndAnd) == "&&" && SymbolText(AndKw) == "and"
    ensures SymbolText(EqEq) == "==" && SymbolText(NotEq) == "!="
  {
  }

  lemma MiddleSpellings()
    ensures SymbolText(Less) == "<" && SymbolText(LessEq) == "<=" && SymbolText(Greater) == ">" && SymbolText(GreaterEq) == ">="
    ensures SymbolText(Pipe) == "|" && SymbolText(Caret) == "^" && SymbolText(Amp) == "&"
  {
  }

  lemma TightSpellings()
    ensures SymbolText(Shl) == "<<" && SymbolText(Shr) == ">>" && SymbolText(Plus) == "+" && SymbolText(Minus) == "-"
    ensures SymbolText(Star) == "*" && SymbolText(Slash) == "/" && SymbolText(Percent) == "%"
  {
  }

  lemma MarkSpellings()
    ensures SymbolText(Bang) == "!" && SymbolText(MutKw) == "mut" && SymbolText(Comma) == "," && SymbolText(Dot) == "."
    ensures SymbolText(Question) == "?" && SymbolText(At) == "@"
  {
  }

  lemma BracketSpellings()
    ensures SymbolText(LParen) == "(" && SymbolText(RParen) == ")" && SymbolText(LBracket) == "[" && SymbolText(RBracket) == "]"
  {
  }

  // ----- chains of operands -----

  datatype Link = Link(sym: Symbol, operand: Tree)

  /** An operand: no operator outside brackets. */
  predicate IsOperand(t: Tree) { !t.Binop? && Sound(t) }

  predicate IsChain(links: seq<Link>) {
    links == [] || (Operator(links[0].sym) && IsOperand(links[0].operand) && IsChain(links[1..]))
  }

  /** The chain as it is written. */
  function Written(links: seq<Link>): seq<Token>
    requires IsChain(links)
  {
    if links == [] then [] else [Sym(links[0].sym)] + PrintPost(links[0].operand) + Written(links[1..])
  }

  predicate Operators(t: Tree) { t.Binop? ==> Operator(t.sym) && Operators(t.lhs) && Operators(t.rhs) }

  /** One more operator and operand: they go below each operator on the right edge that
      the new one is tighter than. */
  function Attach(t: Tree, l: Link): Tree
    requires Operators(t) && Operator(l.sym) && IsOperand(l.operand)
    ensures Operators(Attach(t, l))
    decreases t
  {
    if t.Binop? && Tighter(l.sym, t.sym) then Binop(t.sym, t.lhs, Attach(t.rhs, l)) else Binop(l.sym, t, l.operand)
  }

  function Group(t: Tree, links: seq<Link>): Tree
    requires Operators(t) && IsChain(links)
    ensures Operators(Group(t, links))
    decreases |links|
  {
    if links == [] then t else Group(Attach(t, links[0]), links[1..])
  }

  /** The operands and operators of a tree from left to right, without parentheses. */
  function Flat(t: Tree): seq<Token> {
    if t.Binop? then Flat(t.lhs) + [Sym(t.sym)] + Flat(t.rhs) else PrintPost(t)
  }

  /** No operator stands above a looser one, and equally tight ones lean to the left. */
  predicate Grouped(t: Tree)
    requires Operators(t)
  {
    t.Binop? ==>
      && Grouped(t.lhs) && Grouped(t.rhs)
      && (t.lhs.Binop? ==> !Tighter(t.sym, t.lhs.sym))
      && (t.rhs.Binop? ==> Tighter(t.rhs.sym, t.sym))
  }

  lemma ByLevel(s: Symbol)
    requires Operator(s)
    ensures Power(s).Some? && Tier(s).value == Level(s)
  {
    TiersAreThePowers(s);
  }

  lemma {:induction false} FlatIsPrinted(t: Tree, m: nat)
    requires Sound(t) && Operators(t) && Grouped(t) && (t.Binop? ==> Level(t.sym) >= m)
    ensures Print(t, m) == Flat(t)
    decreases t
  {
    if t.Binop? {
      ByLevel(t.sym);
      if t.lhs.Binop? { ByLevel(t.lhs.sym); }
      if t.rhs.Binop? { ByLevel(t.rhs.sym); }
      FlatIsPrinted(t.lhs, Level(t.sym));
      FlatIsPrinted(t.rhs, Level(t.sym) + 1);
    }
  }

  /** A tree grouped by the tiers is what its operands and operators parse to. */
  lemma GroupedParses(t: Tree)
    requires Sound(t) && Operators(t) && Grouped(t)
    ensures ParseExpr(Flat(t)) == Done(t, [])
  {
    FlatIsPrinted(t, 0);
    RoundTrip(t);
  }

  lemma {:induction false} AttachKeeps(t: Tree, l: Link)
    requires Sound(t) && Operators(t) && Grouped(t) && Operator(l.sym) && IsOperand(l.operand)
    ensures var r := Attach(t, l); r.Binop? && Sound(r) && Grouped(r)
    ensures var r := Attach(t, l); r.sym == l.sym || (t.Binop? && r.sym == t.sym && Tighter(l.sym, t.sym))
    ensures Flat(Attach(t, l)) == Flat(t) + ([Sym(l.sym)] + PrintPost(l.operand))
    decreases t
  {
    ByLevel(l.sym);
    if t.Binop? && Tighter(l.sym, t.sym) {
      AttachKeeps(t.rhs, l);
      AttachFlat(Flat(t.lhs), Sym(t.sym), Flat(t.rhs), [Sym(l.sym)] + PrintPost(l.operand));
    } else {
      assert Flat(Attach(t, l)) == Flat(t) + [Sym(l.sym)] + PrintPost(l.operand);
    }
  }

  lemma AttachFlat(a: seq<Token>, s: Token, b: seq<Token>, c: seq<Token>)
    ensures a + [s] + (b + c) == a + [s] + b + c
  {
  }

  lemma {:induction false} GroupKeeps(t: Tree, links: seq<Link>)
    requires Sound(t) && Operators(t) && Grouped(t) && IsChain(links)
    ensures Sound(Group(t, links)) && Grouped(Group(t, links))
    ensures Flat(Group(t, links)) == Flat(t) + Written(links)
    decreases |links|
  {
    if links != [] {
      AttachKeeps(t, links[0]);
      GroupKeeps(Attach(t, links[0]), links[1..]);
      AttachFlat(Flat(t), Sym(links[0].sym), PrintPost(links[0].operand), Written(links[1..]));
    }
  }

  /** Operands joined by any operators, however many: the parser groups them as the
      tiers say and leaves nothing. */
  lemma ChainParses(first: Tree, links: seq<Link>)
    requires IsOperand(first) && IsChain(links)
    ensures ParseExpr(PrintPost(first) + Written(links)) == Done(Group(first, links), [])
  {
    GroupKeeps(first, links);
    GroupedParses(Group(first, links));
  }

  lemma NamePrints(a: string)
    ensures PrintAtomic(Name(a)) == [Ident(a, true)] && PrintPost(Name(a)) == [Ident(a, true)]
    ensures Print(Name(a), 0) == [Ident(a, true)] && PrintUnary(Name(a)) == [Ident(a, true)] && Flat(Name(a)) == [Ident(a, true)]
  {
  }

  /** Three names: the second operator takes the middle one exactly if its tier is the
      higher one. */
  lemma ThreeNames(a: string, s: Symbol, b: string, t: Symbol, c: string)
    requires Operator(s) && Operator(t)
    ensures
      ParseExpr([Ident(a, true), Sym(s), Ident(b, true), Sym(t), Ident(c, true)])
      == Done(if Tier(t).value > Tier(s).value then Binop(s, Name(a), Binop(t, Name(b), Name(c)))
              else Binop(t, Binop(s, Name(a), Name(b)), Name(c)), [])
  {
    ByLevel(s);
    ByLevel(t);
    NamePrints(a);
    NamePrints(b);
    NamePrints(c);
    var A, B, C := [Ident(a, true)], [Ident(b, true)], [Ident(c, true)];
    if Tighter(t, s) {
      var inner := Binop(t, Name(b), Name(c));
      assert Flat(inner) == B + [Sym(t)] + C;
      GroupedParses(Binop(s, Name(a), inner));
      assert A + [Sym(s)] + (B + [Sym(t)] + C) == [Ident(a, true), Sym(s), Ident(b, true), Sym(t), Ident(c, true)];
    } else {
      var inner := Binop(s, Name(a), Name(b));
      assert Flat(inner) == A + [Sym(s)] + B;
      GroupedParses(Binop(t, inner, Name(c)));
      assert A + [Sym(s)] + B + [Sym(t)] + C == [Ident(a, true), Sym(s), Ident(b, true), Sym(t), Ident(c, true)];
    }
  }

  // ----- the other forms, word for word -----

  /** One expression form a token list stands for, whatever the names in it. */
  predicate Reads(ts: seq<Token>, t: Tree) { ParseExpr(ts) == Done(t, []) }

  lemma Prefixes(a: string)
    ensures Reads([Sym(Minus), Ident(a, true)], Prefix(Neg, Name(a)))
    ensures Reads([Sym(Bang), Ident(a, true)], Prefix(Not, Name(a)))
    ensures Reads([Sym(Star), Ident(a, true)], Prefix(Deref, Name(a)))
    ensures Reads([Sym(Amp), Ident(a, true)], Prefix(Ref, Name(a)))
    ensures Reads([Sym(Amp), Sym(MutKw), Ident(a, true)], Prefix(RefMut, Name(a)))
  {
    PrefixReads(Neg, a);
    PrefixReads(Not, a);
    PrefixReads(Deref, a);
    PrefixReads(Ref, a);
    PrefixReads(RefMut, a);
    assert PrefixTokens(Neg) + [Ident(a, true)] == [Sym(Minus), Ident(a, true)];
    assert PrefixTokens(Not) + [Ident(a, true)] == [Sym(Bang), Ident(a, true)];
    assert PrefixTokens(Deref) + [Ident(a, true)] == [Sym(Star), Ident(a, true)];
    assert PrefixTokens(Ref) + [Ident(a, true)] == [Sym(Amp), Ident(a, true)];
    assert PrefixTokens(RefMut) + [Ident(a, true)] == [Sym(Amp), Sym(MutKw), Ident(a, true)];
  }

  lemma PrefixReads(op: PrefixOp, a: string)
    ensures Reads(PrefixTokens(op) + [Ident(a, true)], Prefix(op, Name(a)))
  {
    NamePrints(a);
    RoundTrip(Prefix(op, Name(a)));
    assert PrintAtomic(Prefix(op, Name(a))) == PrefixTokens(op) + [Ident(a, true)];
  }

  lemma FormReads(a: string, form: Form, ts: seq<Token>)
    requires SoundForm(form) && ts == PrintForm(form)
    ensures Reads([Ident(a, true)] + ts, Post(Name(a), form))
  {
    NamePrints(a);
    RoundTrip(Post(Name(a), form));
    assert PrintTarget(Post(Name(a), form)) == [Ident(a, true)];
  }

  lemma ArgsPrint(b: string, c: string)
    ensures PrintArgs([Name(b), Name(c)]) == [Ident(b, true), Sym(Comma), Ident(c, true), Sym(RParen)]
    ensures SoundAll([Name(b), Name(c)])
  {
    NamePrints(b);
    NamePrints(c);
    assert [Name(b), Name(c)][1..] == [Name(c)];
    assert PrintArgs([Name(c)]) == [Ident(c, true), Sym(RParen)];
    assert SoundAll([]) && Sound(Name(c)) && Sound(Name(b));
    assert SoundAll([Name(c)]);
  }

  lemma CallForms(a: string, b: string, c: string, m: string)
    ensures
      var args := [Ident(b, true), Sym(Comma), Ident(c, true), Sym(RParen)];
      && Reads([Ident(a, true)] + ([Sym(LParen)] + args), Post(Name(a), Call([Name(b), Name(c)])))
      && Reads([Ident(a, true)] + ([Sym(Bang), Sym(LParen)] + args), Post(Name(a), Macro([Name(b), Name(c)])))
      && Reads([Ident(a, true)] + ([Sym(Dot), Ident(m, true), Sym(LParen)] + args), Post(Name(a), Method(m, [Name(b), Name(c)])))
      && Reads([Ident(a, true)] + ([Sym(Question), Ident(m, true), Sym(LParen)] + args), Post(Name(a), Ask(m, [Name(b), Name(c)])))
      && Reads([Ident(a, true)] + ([Sym(Bang), Ident(m, true), Sym(LParen)] + args), Post(Name(a), Send(m, [Name(b), Name(c)])))
  {
    var args := [Ident(b, true), Sym(Comma), Ident(c, true), Sym(RParen)];
    ArgsPrint(b, c);
    FormReads(a, Call([Name(b), Name(c)]), [Sym(LParen)] + args);
    FormReads(a, Macro([Name(b), Name(c)]), [Sym(Bang), Sym(LParen)] + args);
    FormReads(a, Method(m, [Name(b), Name(c)]), [Sym(Dot), Ident(m, true), Sym(LParen)] + args);
    FormReads(a, Ask(m, [Name(b), Name(c)]), [Sym(Question), Ident(m, true), Sym(LParen)] + args);
    FormReads(a, Send(m, [Name(b), Name(c)]), [Sym(Bang), Ident(m, true), Sym(LParen)] + args);
  }

  lemma SmallForms(a: string, b: string)
    requires b != ""
    ensures Reads([Ident(a, true)] + [Sym(LBracket), Ident(b, true), Sym(RBracket)], Post(Name(a), Index(Name(b))))
    ensures Reads([Ident(a, true)] + [Sym(Dot), Ident(b, true)], Post(Name(a), Field(b)))
    ensures Reads([Ident(a, true)] + [Sym(Question)], Post(Name(a), Propagate))
    ensures Reads([Ident(a, true)] + [Sym(At), Ident(b, true)], Post(Name(a), Deadline(Name(b))))
  {
    NamePrints(b);
    FormReads(a, Index(Name(b)), [Sym(LBracket), Ident(b, true), Sym(RBracket)]);
    FormReads(a, Field(b), [Sym(Dot), Ident(b, true)]);
    FormReads(a, Propagate, [Sym(Question)]);
    FormReads(a, Deadline(Name(b)), [Sym(At), Ident(b, true)]);
  }

  // ----- what is not printed -----

  /** A trailing comma is allowed among arguments ... */
  lemma TrailingComma(args: seq<Tree>, e: Tree, rest: seq<Token>)
    requires Sound(e)
    ensures ArgList(args, Print(e, 0) + ([Sym(Comma), Sym(RParen)] + rest)) == Done(args + [e], rest)
  {
    PrintStarts(e, 0);
    assert (Print(e, 0) + ([Sym(Comma), Sym(RParen)] + rest))[0] == Print(e, 0)[0];
    RoundTripInContext(e, [Sym(Comma), Sym(RParen)] + rest);
    AfterComma(rest);
    assert ArgList(args + [e], [Sym(RParen)] + rest) == Done(args + [e], rest);
  }

  lemma AfterComma(rest: seq<Token>)
    ensures ([Sym(Comma), Sym(RParen)] + rest)[1..] == [Sym(RParen)] + rest && ([Sym(RParen)] + rest)[1..] == rest
  {
  }

  /** ... and makes a tuple. */
  lemma CommaMakesTuple(args: seq<Tree>, rest: seq<Token>)
    requires args != []
    ensures TupleRest(args, false, [Sym(Comma), Sym(RParen)] + rest) == Done(Tuple(args), rest)
  {
    AfterComma(rest);
  }

  /** A word on a new line is no message: the question mark stands alone ... */
  lemma NewLineEndsAsk(a: string, m: string, rest: seq<Token>)
    ensures ParseExpr([Ident(a, true), Sym(Question), Ident(m, false)] + rest)
         == Done(Post(Name(a), Propagate), [Ident(m, false)] + rest)
  {
    var w := [Ident(m, false)] + rest;
    var q := [Sym(Question)] + w;
    assert [Ident(a, true), Sym(Question), Ident(m, false)] + rest == [Ident(a, true)] + q;
    NameThen(a, q);
    assert q[1..] == w;
    assert ParseForm(w) == Done(None, w) && ParseForm(q) == Done(Some(Propagate), w);
    assert Postfix(Post(Name(a), Propagate), w) == Done(Post(Name(a), Propagate), w);
    Idle(Post(Name(a), Propagate), w);
  }

  /** ... and the exclamation mark does not belong to the expression. */
  lemma NewLineEndsSend(a: string, m: string, rest: seq<Token>)
    ensures ParseExpr([Ident(a, true), Sym(Bang), Ident(m, false)] + rest)
         == Done(Name(a), [Sym(Bang), Ident(m, false)] + rest)
  {
    var w := [Ident(m, false)] + rest;
    var b := [Sym(Bang), Ident(m, false)] + rest;
    assert [Ident(a, true), Sym(Bang), Ident(m, false)] + rest == [Ident(a, true)] + b;
    NameThen(a, b);
    assert b[1..] == w;
    assert ParseForm(b) == Done(None, b);
    Idle(Name(a), b);
  }

  lemma Idle(t: Tree, ts: seq<Token>)
    requires ts != [] && (ts[0].Sym? ==> Power(ts[0].s).None?)
    ensures Climb(0, Done(t, ts)) == Done(t, ts)
  {
  }

  lemma NameThen(a: string, ts: seq<Token>)
    ensures Operand([Ident(a, true)] + ts) == Postfix(Name(a), ts)
  {
    var all := [Ident(a, true)] + ts;
    assert all[1..] == ts;
    assert PrefixOf(all) == None;
    assert ParseAtom(all) == Done(Name(a), ts);
    assert ParseUnary(all) == Done(Name(a), ts);
  }

  /** No expression, an unexpected token, and a bracket that is not closed. */
  lemma Errors(a: string, s: Symbol)
    requires s !in {LParen, Minus, Bang, Star, Amp}
    ensures ParseExpr([]) == Done(Bad, [])
    ensures ParseAtom([Sym(s)]) == Done(Bad, [])
    ensures ArgList([], []).Raised? && TupleRest([Name(a)], false, []).Raised?
    ensures ParseForm([Sym(LBracket), Ident(a, true)]).Raised?
    ensures ParseForm([Sym(Dot)]) == Done(Some(Field("")), [])
  {
    assert [Sym(LBracket), Ident(a, true)][1..] == Print(Name(a), 0) by { NamePrints(a); }
    RoundTrip(Name(a));
  }
}
