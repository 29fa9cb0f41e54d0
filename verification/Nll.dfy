/** The last-use pre-pass: a point for every path read, in source order. */
module Nll {
  import opened Hir

  /** The names read, in the order in which points are handed out. */
  function Reads(e: Expr): seq<string>
    decreases e
  {
    match e
    case Path(segs) => if segs == [] then [] else [segs[0]]
    case Literal => []
    case BlockExpr(b) => ReadsBlock(b)
    case Tuple(xs) => ReadsAll(xs)
    case Binary(l, r) => Reads(l) + Reads(r)
    case Assign(_, _, l, r) => Reads(l) + Reads(r)
    case Unary(_, _, r) => Reads(r)
    case Borrow(_, inner) => Reads(inner)
    case Move(inner) => Reads(inner)
    case Call(c, _, args) => Reads(c) + ReadsAll(args)
    case MethodCall(r, args) => Reads(r) + ReadsAll(args)
    case Field(r, _) => Reads(r)
    case Index(r, i) => Reads(r) + Reads(i)
    case If(c, thn, els) => Reads(c) + (ReadsBlock(thn) + (if els.None? then [] else Reads(els.value)))
    case Match(s, arms) => Reads(s) + ReadsArms(arms)
    case For(_, it, body) => Reads(it) + ReadsBlock(body)
    case While(c, body) => Reads(c) + ReadsBlock(body)
    case Loop(body) => ReadsBlock(body)
    case Return(v) => if v.None? then [] else Reads(v.value)
    case Lambda(_, body) => ReadsBlock(body)
  }

  function ReadsAll(es: seq<Expr>): seq<string>
    decreases es
  {
    if es == [] then [] else Reads(es[0]) + ReadsAll(es[1..])
  }

  function ReadsArms(arms: seq<Arm>): seq<string>
    decreases arms
  {
    if arms == [] then [] else ReadsArm(arms[0]) + ReadsArms(arms[1..])
  }

  function ReadsArm(arm: Arm): seq<string>
    decreases arm
  {
    (if arm.guard.None? then [] else Reads(arm.guard.value)) + Reads(arm.body)
  }

  function ReadsBlock(b: Block): seq<string>
    decreases b
  {
    ReadsStmts(b.stmts) + (if b.tail.None? then [] else Reads(b.tail.value))
  }

  function ReadsStmts(ss: seq<Stmt>): seq<string>
    decreases ss
  {
    if ss == [] then [] else ReadsStmt(ss[0]) + ReadsStmts(ss[1..])
  }

  function ReadsStmt(s: Stmt): seq<string>
    decreases s
  {
    match s
    case Let(_, init, _) => if init.None? then [] else Reads(init.value)
    case ExprStmt(e) => Reads(e)
  }

  /** `record`: the highest point wins. */
  function Record(m: map<string, nat>, name: string, point: nat): map<string, nat> {
    if name in m && m[name] >= point then m else m[name := point]
  }

  function RecordAll(m: map<string, nat>, names: seq<string>, point: nat): map<string, nat>
    decreases |names|
  {
    if names == [] then m else RecordAll(Record(m, names[0], point), names[1..], point + 1)
  }

  lemma {:induction false} RecordConcat(m: map<string, nat>, a: seq<string>, b: seq<string>, point: nat)
    ensures RecordAll(m, a + b, point) == RecordAll(RecordAll(m, a, point), b, point + |a|)
    decreases |a|
  {
    if a == [] {
      assert a + b == b;
    } else {
      assert (a + b)[0] == a[0] && (a + b)[1..] == a[1..] + b;
      RecordConcat(Record(m, a[0], point), a[1..], b, point + 1);
    }
  }

  /** The map holds exactly the last occurrence of every name read. */
  lemma {:induction false} LastOccurrence(names: seq<string>, x: string)
    ensures
      var m := RecordAll(map[], names, 0);
      (x in m <==> x in names)
      && (x in m ==> m[x] < |names| && names[m[x]] == x && x !in names[m[x] + 1..])
    decreases |names|
  {
    if names != [] {
      var n := |names| - 1;
      var init := names[..n];
      LastOccurrence(init, x);
      assert names == init + [names[n]];
      RecordConcat(map[], init, [names[n]], 0);
      LastOccurrence(init, names[n]);
      var m0 := RecordAll(map[], init, 0);
      assert RecordAll(m0, [names[n]], n) == Record(m0, names[n], n);
      if x in m0 && x != names[n] {
        assert names[m0[x] + 1..] == init[m0[x] + 1..] + [names[n]];
      }
    }
  }

  class Pre {
    var last: map<string, nat>
    var point: nat

    constructor ()
      ensures last == map[] && point == 0
    {
      last, point := map[], 0;
    }

    method VisitExpr(e: Expr)
      modifies this
      ensures last == RecordAll(old(last), Reads(e), old(point)) && point == old(point) + |Reads(e)|
      decreases e, 1
    {
      match e
      case Path(segs) =>
        if segs != [] {
          last := Record(last, segs[0], point);
          point := point + 1;
        }
      case Literal =>
      case BlockExpr(b) => VisitBlock(b);
      case Tuple(xs) => VisitSeq(xs);
      case Binary(_, _) => VisitPair(e);
      case Assign(_, _, _, _) => VisitPair(e);
      case Index(_, _) => VisitPair(e);
      case Unary(_, _, r) => VisitExpr(r);
      case Borrow(_, inner) => VisitExpr(inner);
      case Move(inner) => VisitExpr(inner);
      case Call(_, _, _) => VisitCall(e);
      case MethodCall(_, _) => VisitCall(e);
      case Field(r, _) => VisitExpr(r);
      case If(_, _, _) => VisitIf(e);
      case Match(_, _) => VisitMatch(e);
      case For(_, _, _) => VisitLoop(e);
      case While(_, _) => VisitLoop(e);
      case Loop(body) => VisitBlock(body);
      case Return(v) => if v.Some? { VisitExpr(v.value); }
      case Lambda(_, body) => VisitBlock(body);
    }

    method VisitPair(e: Expr)
      requires e.Binary? || e.Assign? || e.Index?
      modifies this
      ensures last == RecordAll(old(last), Reads(e), old(point)) && point == old(point) + |Reads(e)|
      decreases e, 0
    {
      var l := if e.Index? then e.receiver else e.lhs;
      var r := if e.Index? then e.idx else e.rhs;
      VisitExpr(l);
      VisitExpr(r);
      RecordConcat(old(last), Reads(l), Reads(r), old(point));
    }

    method VisitCall(e: Expr)
      requires e.Call? || e.MethodCall?
      modifies this
      ensures last == RecordAll(old(last), Reads(e), old(point)) && point == old(point) + |Reads(e)|
      decreases e, 0
    {
      var first := if e.Call? then e.callee else e.receiver;
      VisitExpr(first);
      VisitSeq(e.args);
      RecordConcat(old(last), Reads(first), ReadsAll(e.args), old(point));
    }

    method VisitMatch(e: Expr)
      requires e.Match?
      modifies this
      ensures last == RecordAll(old(last), Reads(e), old(point)) && point == old(point) + |Reads(e)|
      decreases e, 0
    {
      VisitExpr(e.scrutinee);
      VisitArms(e.arms);
      RecordConcat(old(last), Reads(e.scrutinee), ReadsArms(e.arms), old(point));
    }

    method VisitArms(arms: seq<Arm>)
      modifies this
      ensures last == RecordAll(old(last), ReadsArms(arms), old(point)) && point == old(point) + |ReadsArms(arms)|
      decreases arms, 0
    {
      var i := 0;
      while i < |arms|
        invariant 0 <= i <= |arms|
        invariant RecordAll(last, ReadsArms(arms[i..]), point) == RecordAll(old(last), ReadsArms(arms), old(point))
        invariant point + |ReadsArms(arms[i..])| == old(point) + |ReadsArms(arms)|
      {
        assert arms[i..][0] == arms[i] && arms[i..][1..] == arms[i + 1..];
        RecordConcat(last, ReadsArm(arms[i]), ReadsArms(arms[i + 1..]), point);
        VisitArm(arms[i]);
        i := i + 1;
      }
    }

    method VisitLoop(e: Expr)
      requires e.For? || e.While?
      modifies this
      ensures last == RecordAll(old(last), Reads(e), old(point)) && point == old(point) + |Reads(e)|
      decreases e, 0
    {
      var first := if e.For? then e.iter else e.cond;
      VisitExpr(first);
      VisitBlock(e.body);
      RecordConcat(old(last), Reads(first), ReadsBlock(e.body), old(point));
    }

    method VisitIf(e: Expr)
      requires e.If?
      modifies this
      ensures last == RecordAll(old(last), Reads(e), old(point)) && point == old(point) + |Reads(e)|
      decreases e, 0
    {
      VisitExpr(e.cond);
      ghost var m1, p1 := last, point;
      VisitBlock(e.thn);
      ghost var rest := if e.els.None? then [] else Reads(e.els.value);
      if e.els.Some? { VisitExpr(e.els.value); }
      RecordConcat(m1, ReadsBlock(e.thn), rest, p1);
      RecordConcat(old(last), Reads(e.cond), ReadsBlock(e.thn) + rest, old(point));
    }

    method VisitSeq(es: seq<Expr>)
      modifies this
      ensures last == RecordAll(old(last), ReadsAll(es), old(point)) && point == old(point) + |ReadsAll(es)|
      decreases es, 0
    {
      var i := 0;
      while i < |es|
        invariant 0 <= i <= |es|
        invariant RecordAll(last, ReadsAll(es[i..]), point) == RecordAll(old(last), ReadsAll(es), old(point))
        invariant point + |ReadsAll(es[i..])| == old(point) + |ReadsAll(es)|
      {
        assert es[i..][0] == es[i] && es[i..][1..] == es[i + 1..];
        RecordConcat(last, Reads(es[i]), ReadsAll(es[i + 1..]), point);
        VisitExpr(es[i]);
        i := i + 1;
      }
    }

    method VisitArm(arm: Arm)
      modifies this
      ensures last == RecordAll(old(last), ReadsArm(arm), old(point)) && point == old(point) + |ReadsArm(arm)|
      decreases arm, 0
    {
      ghost var g := if arm.guard.None? then [] else Reads(arm.guard.value);
      if arm.guard.Some? { VisitExpr(arm.guard.value); }
      VisitExpr(arm.body);
      RecordConcat(old(last), g, Reads(arm.body), old(point));
    }

    method VisitBlock(b: Block)
      modifies this
      ensures last == RecordAll(old(last), ReadsBlock(b), old(point)) && point == old(point) + |ReadsBlock(b)|
      decreases b, 0
    {
      var i := 0;
      while i < |b.stmts|
        invariant 0 <= i <= |b.stmts|
        invariant RecordAll(last, ReadsStmts(b.stmts[i..]), point) == RecordAll(old(last), ReadsStmts(b.stmts), old(point))
        invariant point + |ReadsStmts(b.stmts[i..])| == old(point) + |ReadsStmts(b.stmts)|
      {
        assert b.stmts[i..][0] == b.stmts[i] && b.stmts[i..][1..] == b.stmts[i + 1..];
        RecordConcat(last, ReadsStmt(b.stmts[i]), ReadsStmts(b.stmts[i + 1..]), point);
        VisitStmt(b.stmts[i]);
        i := i + 1;
      }
      ghost var t := if b.tail.None? then [] else Reads(b.tail.value);
      if b.tail.Some? { VisitExpr(b.tail.value); }
      RecordConcat(old(last), ReadsStmts(b.stmts), t, old(point));
    }

    method VisitStmt(s: Stmt)
      modifies this
      ensures last == RecordAll(old(last), ReadsStmt(s), old(point)) && point == old(point) + |ReadsStmt(s)|
      decreases s, 0
    {
      match s
      case Let(_, init, _) => if init.Some? { VisitExpr(init.value); }
      case ExprStmt(e) => VisitExpr(e);
    }
  }
}
