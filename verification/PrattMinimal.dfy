/** No token sequence that parses to a tree is shorter than its printed form: the
    printer adds no parenthesis it could leave out. */
module PrattMinimal {
  import opened Wrappers
  import opened Pratt

  /** Tokens consumed. */
  function Used(ts: seq<Token>, rest: seq<Token>): int { |ts| - |rest| }

  /** The length of a tree where any operand may stand. */
  function OperandLength(t: Tree): nat { if t.Binop? then |Print(t, 0)| + 2 else |PrintPost(t)| }

  lemma PrintFits(t: Tree, m: nat)
    ensures |Print(t, m)| <= OperandLength(t) && |PrintUnary(t)| <= |Print(t, 0)| + 2
  {
  }

  // ----- where the parser stops -----

  predicate Halted(ts: seq<Token>, min: nat) {
    ParseForm(ts) == Done(None, ts) && !(ts != [] && ts[0].Sym? && Power(ts[0].s).Some? && Power(ts[0].s).value >= min)
  }

  lemma {:induction false} PostfixHalts(lhs: Tree, ts: seq<Token>)
    requires Postfix(lhs, ts).Done?
    ensures ParseForm(Postfix(lhs, ts).rest) == Done(None, Postfix(lhs, ts).rest)
    decreases |ts|
  {
    match ParseForm(ts)
    case Done(None, _) =>
    case Done(Some(form), rest) => PostfixHalts(Post(lhs, form), rest);
  }

  lemma {:induction false} ClimbHalts(min: nat, l: Tree, ts: seq<Token>)
    requires Climb(min, Done(l, ts)).Done? && ParseForm(ts) == Done(None, ts)
    ensures Halted(Climb(min, Done(l, ts)).rest, min)
    decreases |ts|
  {
    if ts != [] && ts[0].Sym? && Power(ts[0].s).Some? && Power(ts[0].s).value >= min {
      var right := ParseBp(Power(ts[0].s).value + 1, ts[1..]);
      var next := Postfix(Binop(ts[0].s, l, right.value), right.rest);
      PostfixHalts(Binop(ts[0].s, l, right.value), right.rest);
      ClimbHalts(min, next.value, next.rest);
    }
  }

  lemma ParseHalts(min: nat, ts: seq<Token>)
    requires ParseBp(min, ts).Done?
    ensures Halted(ParseBp(min, ts).rest, min)
  {
    var lhs := ParseUnary(ts);
    PostfixHalts(lhs.value, lhs.rest);
    var o := Operand(ts);
    ClimbHalts(min, o.value, o.rest);
  }

  // ----- lengths -----

  lemma {:induction false} ParseFits(min: nat, ts: seq<Token>)
    requires ParseBp(min, ts).Done?
    ensures |Print(ParseBp(min, ts).value, min)| <= Used(ts, ParseBp(min, ts).rest)
    decreases |ts|, 5
  {
    var o := Operand(ts);
    OperandFits(ts);
    PrintFits(o.value, min);
    var lhs := ParseUnary(ts);
    PostfixHalts(lhs.value, lhs.rest);
    ClimbFits(min, o.value, o.rest, Used(ts, o.rest));
  }

  lemma {:induction false} OperandFits(ts: seq<Token>)
    requires Operand(ts).Done?
    ensures OperandLength(Operand(ts).value) <= Used(ts, Operand(ts).rest)
    decreases |ts|, 3
  {
    var lhs := ParseUnary(ts);
    UnaryFits(ts);
    PostfixFits(lhs.value, lhs.rest, Used(ts, lhs.rest));
  }

  /** `l` took `c` tokens so far. */
  lemma {:induction false} ClimbFits(min: nat, l: Tree, ts: seq<Token>, c: nat)
    requires Climb(min, Done(l, ts)).Done? && ParseForm(ts) == Done(None, ts)
    requires |Print(l, min)| <= c
    requires ts != [] && ts[0].Sym? && Power(ts[0].s).Some? && Power(ts[0].s).value >= min ==> |Print(l, Power(ts[0].s).value)| <= c
    ensures |Print(Climb(min, Done(l, ts)).value, min)| <= c + Used(ts, Climb(min, Done(l, ts)).rest)
    decreases |ts|, 4
  {
    if ts != [] && ts[0].Sym? && Power(ts[0].s).Some? && Power(ts[0].s).value >= min {
      var p := Power(ts[0].s).value;
      var right := ParseBp(p + 1, ts[1..]);
      ParseFits(p + 1, ts[1..]);
      ParseHalts(p + 1, ts[1..]);
      var whole := Binop(ts[0].s, l, right.value);
      assert Postfix(whole, right.rest) == Done(whole, right.rest);
      assert |PrintBinop(whole)| == |Print(l, p)| + 1 + |Print(right.value, p + 1)|;
      ClimbFits(min, whole, right.rest, c + Used(ts, right.rest));
    }
  }

  lemma {:induction false} UnaryFits(ts: seq<Token>)
    requires ParseUnary(ts).Done?
    ensures |PrintUnary(ParseUnary(ts).value)| <= Used(ts, ParseUnary(ts).rest)
    decreases |ts|, 1
  {
    match PrefixOf(ts)
    case Some((op, rest)) => UnaryFits(rest);
    case None => AtomFits(ts);
  }

  lemma {:induction false} AtomFits(ts: seq<Token>)
    requires ParseAtom(ts).Done?
    ensures |PrintUnary(ParseAtom(ts).value)| <= Used(ts, ParseAtom(ts).rest)
    decreases |ts|, 0
  {
    if AtSym(ts, LParen) && !AtSym(ts[1..], RParen) {
      var first := ParseBp(0, ts[1..]);
      ParseFits(0, ts[1..]);
      PrintFits(first.value, 0);
      TupleFits([first.value], false, first.rest);
      var r := TupleRest([first.value], false, first.rest);
      if r.value != first.value { TupleLength(first.value, r.value.elems); }
    }
  }

  lemma {:induction false} TupleLength(first: Tree, elems: seq<Tree>)
    requires [first] <= elems
    ensures |PrintUnary(Tuple(elems))| == (if |elems| == 1 then 3 + |Print(first, 0)| else 1 + |PrintArgs(elems)|)
    ensures |PrintArgs([first])| == |Print(first, 0)| + 1
  {
  }

  /** Further elements, each with its comma, and the closing parenthesis. */
  lemma {:induction false} TupleFits(elems: seq<Tree>, comma: bool, ts: seq<Token>)
    requires elems != [] && (comma ==> |elems| > 1) && TupleRest(elems, comma, ts).Done?
    ensures
      var r := TupleRest(elems, comma, ts);
      || (r.value == elems[0] && |elems| == 1 && Used(ts, r.rest) >= 1)
      || (r.value.Tuple? && elems <= r.value.elems
          && Used(ts, r.rest) >= |PrintArgs(r.value.elems)| - |PrintArgs(elems)| + (if |r.value.elems| == 1 then 2 else 1))
    decreases |ts|, 6
  {
    if AtSym(ts, Comma) && !AtSym(ts[1..], RParen) {
      var next := ParseBp(0, ts[1..]);
      ParseFits(0, ts[1..]);
      TupleFits(elems + [next.value], true, next.rest);
      ArgsAppend(elems, next.value);
    }
  }

  lemma {:induction false} ArgsAppend(args: seq<Tree>, e: Tree)
    requires args != []
    ensures |PrintArgs(args + [e])| == |PrintArgs(args)| + |Print(e, 0)| + 1
    decreases |args|
  {
    if |args| == 1 {
      assert (args + [e])[1..] == [e];
    } else {
      ArgsAppend(args[1..], e);
      assert (args + [e])[1..] == args[1..] + [e];
    }
  }

  /** A target that would need parentheses before a call has them in its budget. */
  lemma {:induction false} PostfixFits(lhs: Tree, ts: seq<Token>, c: nat)
    requires Postfix(lhs, ts).Done? && OperandLength(lhs) <= c
    requires lhs.Post? && lhs.form.Field? && AtSym(ts, LParen) ==> OperandLength(lhs) + 2 <= c
    ensures OperandLength(Postfix(lhs, ts).value) <= c + Used(ts, Postfix(lhs, ts).rest)
    decreases |ts|, 2
  {
    match ParseForm(ts)
    case Done(None, _) =>
    case Done(Some(form), rest) =>
      FormFits(ts);
      assert form.Call? ==> AtSym(ts, LParen);
      PostLength(lhs, form);
      PostfixFits(Post(lhs, form), rest, c + Used(ts, rest));
  }

  lemma PostLength(lhs: Tree, form: Form)
    ensures |PrintPost(Post(lhs, form))|
         == |PrintForm(form)| + OperandLength(lhs) + if !lhs.Binop? && TargetNeedsParens(lhs, form) then 2 else 0
  {
    assert PrintPost(Post(lhs, form)) == PrintTarget(Post(lhs, form)) + PrintForm(form);
  }

  lemma {:induction false} FormFits(ts: seq<Token>)
    requires ParseForm(ts).Done? && ParseForm(ts).value.Some?
    ensures
      var r := ParseForm(ts);
      |PrintForm(r.value.value)| <= Used(ts, r.rest) && (r.value.value.Field? ==> !AtSym(r.rest, LParen))
    decreases |ts|, 1
  {
    match ParseForm(ts).value.value
    case Index(_) => ParseFits(0, ts[1..]);
    case Field(_) =>
    case Propagate =>
    case Deadline(_) => UnaryFits(ts[1..]);
    case Ask(_, _) => MessageFits(ts);
    case Send(_, _) => MessageFits(ts);
    case _ => CallFits(ts);
  }

  lemma {:induction false} CallFits(ts: seq<Token>)
    requires ParseForm(ts).Done? && ParseForm(ts).value.Some?
    requires var form := ParseForm(ts).value.value; form.Call? || form.Macro? || form.Method?
    ensures |PrintForm(ParseForm(ts).value.value)| <= Used(ts, ParseForm(ts).rest)
    decreases |ts|, 0
  {
    match ParseForm(ts).value.value
    case Call(_) => ArgsFit([], ts[1..]);
    case Macro(_) => ArgsFit([], ts[2..]);
    case Method(_, _) => ArgsFit([], Eaten(ts[1..])[1..]);
  }

  lemma {:induction false} MessageFits(ts: seq<Token>)
    requires ParseForm(ts).Done? && ParseForm(ts).value.Some?
    requires var form := ParseForm(ts).value.value; form.Ask? || form.Send?
    ensures |PrintForm(ParseForm(ts).value.value)| <= Used(ts, ParseForm(ts).rest)
    decreases |ts|, 0
  {
    ArgsFit([], ts[3..]);
  }

  lemma {:induction false} ArgsFit(acc: seq<Tree>, ts: seq<Token>)
    requires ArgList(acc, ts).Done?
    ensures
      var r := ArgList(acc, ts);
      acc <= r.value && |PrintArgs(r.value[|acc|..])| <= Used(ts, r.rest)
    decreases |ts|, 6
  {
    if !AtSym(ts, RParen) {
      var first := ParseBp(0, ts);
      ParseFits(0, ts);
      var r := ArgList(acc, ts);
      if AtSym(first.rest, Comma) {
        ArgsFit(acc + [first.value], first.rest[1..]);
        assert r.value[|acc|..] == [first.value] + r.value[|acc| + 1..];
        assert r.value[|acc|..][1..] == r.value[|acc| + 1..];
      } else {
        assert r.value[|acc|..] == [first.value];
      }
    }
  }

  /** The printed form of a tree is as short as any text that parses to it. */
  lemma PrintIsShortest(ts: seq<Token>, t: Tree)
    requires ParseExpr(ts) == Done(t, [])
    ensures |Print(t, 0)| <= |ts|
  {
    ParseFits(0, ts);
  }
}
