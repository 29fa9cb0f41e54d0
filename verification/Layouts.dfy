/** Where the fields of tuples, structs and enums lie: offsets as the code generator
    computes them, against the sizes that the layout pass reserves. */
module Layouts {
  import opened Wrappers
  import opened Powers

  datatype Layout = Layout(size: nat, align: nat)

  const TAG := Layout(4, 4)

  /** Alignments are powers of two. */
  ghost predicate Sound(l: Layout) { exists k: nat :: l.align == Pow2(k) }

  ghost predicate AllSound(fields: seq<Layout>) { forall i :: 0 <= i < |fields| ==> Sound(fields[i]) }

  // ----- rounding -----

  /** `x & !(a - 1)`: for a power of two, the low bits of `x` are cleared. */
  function Cleared(x: nat, a: nat): nat
    requires a > 0
  {
    if x < a then 0 else a + Cleared(x - a, a)
  }

  /** `align_up` */
  function AlignUp(v: nat, a: nat): nat
    requires a > 0
  {
    Cleared(v + a - 1, a)
  }

  predicate Multiple(x: nat, a: nat)
    requires a > 0
  {
    x == 0 || (x >= a && Multiple(x - a, a))
  }

  lemma {:induction false} ClearedBelow(x: nat, a: nat)
    requires a > 0
    ensures Multiple(Cleared(x, a), a) && Cleared(x, a) <= x < Cleared(x, a) + a
    decreases x
  {
    if x >= a { ClearedBelow(x - a, a); }
  }

  /** The least multiple that is not below `v`. */
  lemma {:induction false} AlignUpIsLeast(v: nat, a: nat, m: nat)
    requires a > 0
    ensures Multiple(AlignUp(v, a), a) && v <= AlignUp(v, a) < v + a
    ensures Multiple(m, a) && v <= m ==> AlignUp(v, a) <= m
  {
    ClearedBelow(v + a - 1, a);
    if Multiple(m, a) && v <= m < AlignUp(v, a) { Apart(m, AlignUp(v, a), a); }
  }

  lemma {:induction false} Apart(x: nat, y: nat, a: nat)
    requires a > 0 && Multiple(x, a) && Multiple(y, a) && x < y
    ensures x + a <= y
    decreases x
  {
    if x > 0 { Apart(x - a, y - a, a); }
  }

  lemma {:induction false} SumIsMultiple(x: nat, y: nat, a: nat)
    requires a > 0 && Multiple(x, a) && Multiple(y, a)
    ensures Multiple(x + y, a)
    decreases x
  {
    if x > 0 { SumIsMultiple(x - a, y, a); }
  }

  lemma {:induction false} HalvesDivide(x: nat, a: nat)
    requires a > 0 && Multiple(x, 2 * a)
    ensures Multiple(x, a)
    decreases x
  {
    if x > 0 {
      HalvesDivide(x - 2 * a, a);
      assert Multiple(x - a, a);
    }
  }

  /** A multiple of a power of two is one of every smaller power. */
  lemma {:induction false} PowersDivide(x: nat, i: nat, j: nat)
    requires i <= j && Multiple(x, Pow2(j))
    ensures Multiple(x, Pow2(i))
    decreases j
  {
    if i < j {
      HalvesDivide(x, Pow2(j - 1));
      PowersDivide(x, i, j - 1);
    }
  }

  lemma {:induction false} PowersGrow(i: nat, j: nat)
    requires Pow2(i) <= Pow2(j)
    ensures i <= j
  {
    if i > j { Pow2Mono(j + 1, i); }
  }

  lemma SmallerDivides(x: nat, a: Layout, b: Layout)
    requires Sound(a) && Sound(b) && a.align <= b.align && Multiple(x, b.align)
    ensures Multiple(x, a.align)
  {
    var i: nat :| a.align == Pow2(i);
    var j: nat :| b.align == Pow2(j);
    PowersGrow(i, j);
    PowersDivide(x, i, j);
  }

  // ----- offsets -----

  /** Where the first `n` fields end. */
  function End(fields: seq<Layout>, n: nat): nat
    requires n <= |fields| && forall i :: 0 <= i < |fields| ==> fields[i].align > 0
    decreases n, 0
  {
    if n == 0 then 0 else Offset(fields, n - 1) + fields[n - 1].size
  }

  function Offset(fields: seq<Layout>, i: nat): nat
    requires i < |fields| && forall j :: 0 <= j < |fields| ==> fields[j].align > 0
    decreases i, 1
  {
    AlignUp(End(fields, i), fields[i].align)
  }

  /** `tuple_offset`, and the loop of `variant_field_offset`. */
  method TupleOffset(fields: seq<Layout>, idx: nat) returns (r: Option<nat>)
    requires forall i :: 0 <= i < |fields| ==> fields[i].align > 0
    ensures r == if idx < |fields| then Some(Offset(fields, idx)) else None
  {
    if idx >= |fields| { return None; }
    var off := 0;
    for i := 0 to idx
      invariant off == End(fields, i)
    {
      off := AlignUp(off, fields[i].align);
      off := off + fields[i].size;
    }
    return Some(AlignUp(off, fields[idx].align));
  }

  function MaxAlign(fields: seq<Layout>, least: nat): (r: nat)
    ensures r >= least && (forall i :: 0 <= i < |fields| ==> fields[i].align <= r)
    ensures r == least || exists i :: 0 <= i < |fields| && fields[i].align == r
    decreases |fields|
  {
    if fields == [] then least
    else
      var n := |fields| - 1;
      var m := MaxAlign(fields[..n], least);
      if m < fields[n].align then fields[n].align else m
  }

  lemma MaxOneMore(fields: seq<Layout>, i: nat, least: nat)
    requires i < |fields|
    ensures var m := MaxAlign(fields[..i], least); MaxAlign(fields[..i + 1], least) == if m < fields[i].align then fields[i].align else m
  {
    assert fields[..i + 1][..i] == fields[..i];
  }

  /** `layout_struct` */
  function StructLayout(fields: seq<Layout>): Layout
    requires forall i :: 0 <= i < |fields| ==> fields[i].align > 0
  {
    var a := MaxAlign(fields, 1);
    Layout(AlignUp(End(fields, |fields|), a), a)
  }

  method LayoutStruct(fields: seq<Layout>) returns (r: Layout)
    requires forall i :: 0 <= i < |fields| ==> fields[i].align > 0
    ensures r == StructLayout(fields)
  {
    var size, align := 0, 1;
    for i := 0 to |fields|
      invariant size == End(fields, i) && align == MaxAlign(fields[..i], 1)
    {
      MaxOneMore(fields, i, 1);
      if align < fields[i].align { align := fields[i].align; }
      size := AlignUp(size, fields[i].align);
      size := size + fields[i].size;
    }
    assert fields[..|fields|] == fields;
    return Layout(AlignUp(size, align), align);
  }

  // ----- enums -----

  ghost predicate VariantsSound(variants: seq<seq<Layout>>) { forall v :: 0 <= v < |variants| ==> AllSound(variants[v]) }

  predicate Positive(variants: seq<seq<Layout>>) {
    forall v, i :: 0 <= v < |variants| && 0 <= i < |variants[v]| ==> variants[v][i].align > 0
  }

  /** The largest alignment of any field of any variant. */
  function PayloadAlign(variants: seq<seq<Layout>>): (r: nat)
    ensures r >= 1 && forall v, i :: 0 <= v < |variants| && 0 <= i < |variants[v]| ==> variants[v][i].align <= r
    ensures r == 1 || exists v, i :: 0 <= v < |variants| && 0 <= i < |variants[v]| && variants[v][i].align == r
  {
    if variants == [] then 1 else MaxAlign(variants[|variants| - 1], PayloadAlign(variants[..|variants| - 1]))
  }

  lemma PayloadOneMore(variants: seq<seq<Layout>>, v: nat)
    requires v < |variants|
    ensures PayloadAlign(variants[..v + 1]) == MaxAlign(variants[v], PayloadAlign(variants[..v]))
  {
    assert variants[..v + 1][..v] == variants[..v];
  }

  method MaxPayloadAlign(variants: seq<seq<Layout>>) returns (a: nat)
    ensures a == PayloadAlign(variants)
  {
    a := 1;
    for v := 0 to |variants|
      invariant a == PayloadAlign(variants[..v])
    {
      var fields := variants[v];
      ghost var before := a;
      for i := 0 to |fields|
        invariant a == MaxAlign(fields[..i], before)
      {
        MaxOneMore(fields, i, before);
        if a < fields[i].align { a := fields[i].align; }
      }
      assert fields[..|fields|] == fields;
      PayloadOneMore(variants, v);
    }
    assert variants[..|variants|] == variants;
  }

  /** The payload of an enum starts behind its tag; a struct has none. */
  function PayloadStart(variants: seq<seq<Layout>>): nat {
    if |variants| > 1 then AlignUp(TAG.size, PayloadAlign(variants)) else 0
  }

  /** `variant_field_offset`, from the start of the aggregate. */
  method VariantFieldOffset(variants: seq<seq<Layout>>, variant: nat, field: nat) returns (r: Option<nat>)
    requires Positive(variants)
    ensures r == if variant < |variants| && field < |variants[variant]| then Some(FieldAt(variants, variant, field)) else None
  {
    if variant >= |variants| || field >= |variants[variant]| { return None; }
    var start := 0;
    if |variants| > 1 {
      var a := MaxPayloadAlign(variants);
      start := AlignUp(TAG.size, a);
    }
    var off := TupleOffset(variants[variant], field);
    return Some(start + off.value);
  }

  function FieldAt(variants: seq<seq<Layout>>, variant: nat, field: nat): nat
    requires Positive(variants) && variant < |variants| && field < |variants[variant]|
  {
    PayloadStart(variants) + Offset(variants[variant], field)
  }

  /** The size of the largest variant and the alignment of the strictest. */
  function Payload(variants: seq<seq<Layout>>): Layout
    requires Positive(variants)
  {
    if variants == [] then Layout(0, 1)
    else
      var n := |variants| - 1;
      var l, m := StructLayout(variants[n]), Payload(variants[..n]);
      Layout(if m.size < l.size then l.size else m.size, if m.align < l.align then l.align else m.align)
  }

  /** What is reserved for a value: tag and payload, or a single variant. */
  function Reserved(variants: seq<seq<Layout>>): Layout
    requires Positive(variants) && variants != []
  {
    if |variants| == 1 then StructLayout(variants[0]) else
      PayloadIsPositive(variants);
      StructLayout([TAG, Payload(variants)])
  }

  lemma {:induction false} PayloadIsPositive(variants: seq<seq<Layout>>)
    requires Positive(variants)
    ensures Payload(variants).align == PayloadAlign(variants)
    decreases |variants|
  {
    if variants != [] {
      var n := |variants| - 1;
      PayloadIsPositive(variants[..n]);
      MaxOfMax(variants[n], PayloadAlign(variants[..n]));
    }
  }

  lemma {:induction false} PayloadIsLargest(variants: seq<seq<Layout>>, v: nat)
    requires Positive(variants) && v < |variants|
    ensures StructLayout(variants[v]).size <= Payload(variants).size
    decreases |variants|
  {
    var n := |variants| - 1;
    if v < n {
      assert variants[..n][v] == variants[v];
      PayloadIsLargest(variants[..n], v);
    }
  }

  lemma {:induction false} MaxOfMax(fields: seq<Layout>, least: nat)
    requires least >= 1
    ensures MaxAlign(fields, least) == if MaxAlign(fields, 1) < least then least else MaxAlign(fields, 1)
    decreases |fields|
  {
    if fields != [] { MaxOfMax(fields[..|fields| - 1], least); }
  }

  // ----- what the offsets promise -----

  lemma {:induction false} EndsGrow(fields: seq<Layout>, m: nat, n: nat)
    requires m <= n <= |fields| && forall i :: 0 <= i < |fields| ==> fields[i].align > 0
    ensures End(fields, m) <= End(fields, n)
    decreases n
  {
    if m < n {
      EndsGrow(fields, m, n - 1);
      AlignUpIsLeast(End(fields, n - 1), fields[n - 1].align, 0);
    }
  }

  /** Fields lie in order and do not overlap. */
  lemma {:induction false} FieldsAreDisjoint(fields: seq<Layout>, i: nat, j: nat)
    requires i < j < |fields| && forall k :: 0 <= k < |fields| ==> fields[k].align > 0
    ensures Offset(fields, i) + fields[i].size <= Offset(fields, j)
  {
    EndsGrow(fields, i + 1, j);
    AlignUpIsLeast(End(fields, j), fields[j].align, 0);
  }

  /** Every field lies inside what is reserved, whose size keeps arrays aligned. */
  lemma {:induction false} FieldsLieWithin(fields: seq<Layout>, i: nat)
    requires i < |fields| && forall k :: 0 <= k < |fields| ==> fields[k].align > 0
    ensures Offset(fields, i) + fields[i].size <= StructLayout(fields).size
    ensures Multiple(StructLayout(fields).size, StructLayout(fields).align)
  {
    EndsGrow(fields, i + 1, |fields|);
    AlignUpIsLeast(End(fields, |fields|), MaxAlign(fields, 1), 0);
  }

  /** While what is reserved fits 32 bits with room for one rounding, no step of the
      offset computation wraps around. */
  lemma {:induction false} NothingWraps(fields: seq<Layout>, i: nat)
    requires i < |fields| && forall k :: 0 <= k < |fields| ==> fields[k].align > 0
    requires StructLayout(fields).size + StructLayout(fields).align <= 0x1_0000_0000
    ensures End(fields, i) + fields[i].align - 1 < 0x1_0000_0000 && Offset(fields, i) + fields[i].size < 0x1_0000_0000
  {
    FieldsLieWithin(fields, i);
    AlignUpIsLeast(End(fields, i), fields[i].align, 0);
  }

  lemma PayloadIsSound(variants: seq<seq<Layout>>)
    requires VariantsSound(variants)
    ensures Sound(Layout(0, PayloadAlign(variants)))
  {
    assert Pow2(0) == 1;
    if v, i :| 0 <= v < |variants| && 0 <= i < |variants[v]| && variants[v][i].align == PayloadAlign(variants) {
      assert Sound(variants[v][i]);
    }
  }

  ghost predicate Aligned(x: nat, l: Layout) { l.align > 0 && Multiple(x, l.align) }

  lemma SoundIsPositive(variants: seq<seq<Layout>>)
    requires VariantsSound(variants)
    ensures Positive(variants)
  {
    forall v, i | 0 <= v < |variants| && 0 <= i < |variants[v]| ensures variants[v][i].align > 0
    {
      assert Sound(variants[v][i]);
    }
  }

  /** Every field of every variant is aligned from the start of the aggregate, and
      behind the tag of an enum. */
  lemma {:induction false} FieldIsAligned(variants: seq<seq<Layout>>, variant: nat, field: nat)
    requires VariantsSound(variants) && variant < |variants| && field < |variants[variant]|
    ensures Positive(variants)
    ensures Aligned(FieldAt(variants, variant, field), variants[variant][field])
    ensures |variants| > 1 ==> FieldAt(variants, variant, field) >= TAG.size
  {
    SoundIsPositive(variants);
    var f := variants[variant][field];
    assert Sound(f);
    AlignUpIsLeast(End(variants[variant], field), f.align, 0);
    if |variants| > 1 {
      AlignUpIsLeast(TAG.size, PayloadAlign(variants), 0);
      PayloadIsSound(variants);
      SmallerDivides(PayloadStart(variants), f, Layout(0, PayloadAlign(variants)));
    }
    SumIsMultiple(PayloadStart(variants), Offset(variants[variant], field), f.align);
  }

  /** Every field of every variant lies inside what the layout pass reserves: the two
      computations agree on where a payload starts. */
  lemma {:induction false} FieldIsReserved(variants: seq<seq<Layout>>, variant: nat, field: nat)
    requires VariantsSound(variants) && variant < |variants| && field < |variants[variant]|
    ensures Positive(variants)
    ensures FieldAt(variants, variant, field) + variants[variant][field].size <= Reserved(variants).size
  {
    SoundIsPositive(variants);
    FieldsLieWithin(variants[variant], field);
    if |variants| > 1 {
      PayloadIsPositive(variants);
      PayloadIsLargest(variants, variant);
      var parts := [TAG, Payload(variants)];
      FieldsLieWithin(parts, 1);
      TagFirst(parts);
    }
  }

  lemma TagFirst(parts: seq<Layout>)
    requires |parts| == 2 && parts[0] == TAG && parts[1].align > 0
    ensures Offset(parts, 1) == AlignUp(TAG.size, parts[1].align)
  {
    assert End(parts, 0) == 0 && AlignUp(0, 4) == 0;
    assert Offset(parts, 0) == 0 && End(parts, 1) == 4;
  }

  // ----- nothing is wasted -----

  /** The first field lies at the start, and every other one at the first place behind
      the field before it that its alignment allows. */
  lemma FieldsArePacked(fields: seq<Layout>, i: nat, m: nat)
    requires i < |fields| && forall k :: 0 <= k < |fields| ==> fields[k].align > 0
    ensures i == 0 ==> Offset(fields, i) == 0
    ensures i > 0 && Multiple(m, fields[i].align) && Offset(fields, i - 1) + fields[i - 1].size <= m ==> Offset(fields, i) <= m
    ensures Multiple(Offset(fields, i), fields[i].align)
  {
    AlignUpIsLeast(End(fields, i), fields[i].align, m);
    AlignUpIsLeast(0, fields[i].align, 0);
  }

  /** The reserved alignment is that of the strictest field, and the size the least
      multiple of it behind the last field. */
  lemma SizeIsLeast(fields: seq<Layout>, m: nat)
    requires forall k :: 0 <= k < |fields| ==> fields[k].align > 0
    ensures var l := StructLayout(fields);
            && (fields == [] ==> l == Layout(0, 1))
            && (fields != [] && Multiple(m, l.align) && Offset(fields, |fields| - 1) + fields[|fields| - 1].size <= m ==> l.size <= m)
            && (l.align == 1 || exists k :: 0 <= k < |fields| && fields[k].align == l.align)
            && forall k :: 0 <= k < |fields| ==> fields[k].align <= l.align
  {
    AlignUpIsLeast(End(fields, |fields|), MaxAlign(fields, 1), m);
  }

  /** The payload of an enum starts at the first place behind its 4-byte tag that every
      field allows, and that of a struct at once. */
  lemma PayloadStartIsLeast(variants: seq<seq<Layout>>, m: nat)
    ensures |variants| <= 1 ==> PayloadStart(variants) == 0
    ensures |variants| > 1 ==> 4 <= PayloadStart(variants) && Multiple(PayloadStart(variants), PayloadAlign(variants))
    ensures |variants| > 1 && Multiple(m, PayloadAlign(variants)) && 4 <= m ==> PayloadStart(variants) <= m
  {
    AlignUpIsLeast(TAG.size, PayloadAlign(variants), m);
  }
}
