/**
 * Folding a subview of a subview into one subview of the inner source
 * (FoldSubViewOpsPattern in AIRLinalgCodegen.cpp).
 *
 * Offsets are combined dimension by dimension over the shorter of the two
 * static offset lists. Two static offsets are added; a dynamic one keeps
 * its marker and its operand, plus a created constant when the other side
 * is a non-zero static offset; two dynamic ones are added by a created
 * `addi` and keep the inner subview's marker. Each side's dynamic operands
 * are consumed in order, each exactly once.
 */
module SubViewFold {
  import opened Ir
  import opened MemRefOps

  datatype Folded = Folded(statics: seq<int>, dyn: seq<Value>)

  function Min(a: nat, b: nat): nat {
    if a < b then a else b
  }

  /** The static entry of one combined dimension: the sum, or the marker of a dynamic side. */
  function CombineStatic(o: int, s: int): (r: int)
    ensures r < 0 <==> o < 0 || s < 0
    ensures o >= 0 && s >= 0 ==> r == o + s
    ensures r < 0 ==> r == (if s < 0 then s else o)
  {
    if o >= 0 && s >= 0 then o + s
    else if o < 0 && s >= 0 then o
    else s
  }

  /** Dimensions where either side is dynamic, over the common prefix. */
  function CountEither(os: seq<int>, ss: seq<int>): nat
    decreases |os|
  {
    if |os| == 0 || |ss| == 0 then 0
    else (if os[0] < 0 || ss[0] < 0 then 1 else 0) + CountEither(os[1..], ss[1..])
  }

  function Prepend(st: int, d: seq<Value>, rest: Folded): Folded {
    Folded([st] + rest.statics, d + rest.dyn)
  }

  /** The operand one combined dimension contributes (none when both are static). */
  function Pushed(o: int, s: int, od: seq<Value>, sd: seq<Value>): (r: seq<Value>)
    requires o < 0 ==> |od| > 0
    requires s < 0 ==> |sd| > 0
    ensures |r| == Dyn(CombineStatic(o, s)) == (if o < 0 || s < 0 then 1 else 0)
  {
    if o >= 0 && s >= 0 then []
    else if o < 0 && s >= 0 then [if s == 0 then od[0] else AddI(od[0], ConstIndex(s))]
    else if o >= 0 && s < 0 then [if o == 0 then sd[0] else AddI(sd[0], ConstIndex(o))]
    else [AddI(sd[0], od[0])]
  }

  /**
   * The combined offsets of the outer subview (`os`, `od`) over the inner one
   * (`ss`, `sd`).
   */
  function Fold(os: seq<int>, ss: seq<int>, od: seq<Value>, sd: seq<Value>): (r: Folded)
    requires CountDynamic(os) <= |od| && CountDynamic(ss) <= |sd|
    ensures |r.statics| == Min(|os|, |ss|)
    ensures forall i :: 0 <= i < |r.statics| ==> r.statics[i] == CombineStatic(os[i], ss[i])
    ensures |r.dyn| == CountDynamic(r.statics)
    decreases |os|
  {
    if |os| == 0 || |ss| == 0 then Folded([], [])
    else
      var o, s := os[0], ss[0];
      var g := Fold(os[1..], ss[1..], Rest(o, od), Rest(s, sd));
      var r := Prepend(CombineStatic(o, s), Pushed(o, s, od, sd), g);
      assert r.statics[1..] == g.statics;
      r
  }

  /** Every pair of layout maps, over the shorter list, is equal. */
  predicate LayoutsAgree(a: MemRefTy, b: MemRefTy) {
    forall i :: 0 <= i < |a.layout| && i < |b.layout| ==> a.layout[i] == b.layout[i]
  }

  /** The pattern: the folded subview, or None when it does not apply. */
  function FoldSubView(op: SubView, def: Def): (r: Option<SubView>)
    requires WellFormedSubView(op) && (def.SubViewDef? ==> WellFormedSubView(def.sv))
    ensures r.Some? <==> def.SubViewDef? && LayoutsAgree(def.sv.ty, op.ty)
    ensures r.Some? ==> WellFormedSubView(r.value)
    ensures r.Some? ==> r.value.source == def.sv.source && r.value.ty == op.ty
    ensures r.Some? ==> r.value.sizes == op.sizes && r.value.strides == op.strides
    ensures r.Some? ==> r.value.staticSizes == op.staticSizes && r.value.staticStrides == op.staticStrides
  {
    if !def.SubViewDef? || !LayoutsAgree(def.sv.ty, op.ty) then None
    else
      var src := def.sv;
      var f := Fold(op.staticOffsets, src.staticOffsets, op.offsets, src.offsets);
      Some(SubView(src.source, f.dyn, op.sizes, op.strides, f.statics,
                   op.staticSizes, op.staticStrides, op.ty))
  }

  /** Fold over the suffixes from dimension `i`, one dimension unfolded. */
  lemma FoldStep(os: seq<int>, ss: seq<int>, od: seq<Value>, sd: seq<Value>, i: nat, oi: nat, si: nat)
    requires i < |os| && i < |ss| && oi <= |od| && si <= |sd|
    requires CountDynamic(os[i..]) <= |od| - oi && CountDynamic(ss[i..]) <= |sd| - si
    ensures os[i] < 0 ==> oi < |od|
    ensures ss[i] < 0 ==> si < |sd|
    ensures CountDynamic(os[i + 1..]) <= |od| - (oi + Dyn(os[i]))
    ensures CountDynamic(ss[i + 1..]) <= |sd| - (si + Dyn(ss[i]))
    ensures Fold(os[i..], ss[i..], od[oi..], sd[si..]) ==
            Prepend(CombineStatic(os[i], ss[i]), Pushed(os[i], ss[i], od[oi..], sd[si..]),
                    Fold(os[i + 1..], ss[i + 1..], od[oi + Dyn(os[i])..], sd[si + Dyn(ss[i])..]))
  {
    assert os[i..][1..] == os[i + 1..] && ss[i..][1..] == ss[i + 1..];
    assert Rest(os[i], od[oi..]) == od[oi + Dyn(os[i])..];
    assert Rest(ss[i], sd[si..]) == sd[si + Dyn(ss[i])..];
  }

  /**
   * The state of the offset loop after `i` dimensions: the cursors `oi` and
   * `si` into the two operand lists, and the results so far, which with
   * the fold of the remaining dimensions make up the whole fold.
   */
  predicate Progress(os: seq<int>, ss: seq<int>, od: seq<Value>, sd: seq<Value>,
                     i: nat, oi: nat, si: nat, rs: seq<int>, rd: seq<Value>)
    requires CountDynamic(os) <= |od| && CountDynamic(ss) <= |sd|
  {
    i <= |os| && i <= |ss| && oi <= |od| && si <= |sd| &&
    CountDynamic(os[i..]) <= |od| - oi && CountDynamic(ss[i..]) <= |sd| - si &&
    Fold(os, ss, od, sd) == Prepend2(rs, rd, Fold(os[i..], ss[i..], od[oi..], sd[si..]))
  }

  lemma ProgressStart(os: seq<int>, ss: seq<int>, od: seq<Value>, sd: seq<Value>)
    requires CountDynamic(os) <= |od| && CountDynamic(ss) <= |sd|
    ensures Progress(os, ss, od, sd, 0, 0, 0, [], [])
  {
    var f := Fold(os, ss, od, sd);
    assert Prepend2([], [], f) == f by {
      assert [] + f.statics == f.statics && [] + f.dyn == f.dyn;
    }
    assert os[0..] == os && ss[0..] == ss && od[0..] == od && sd[0..] == sd;
  }

  lemma ProgressBounds(os: seq<int>, ss: seq<int>, od: seq<Value>, sd: seq<Value>,
                       i: nat, oi: nat, si: nat, rs: seq<int>, rd: seq<Value>)
    requires CountDynamic(os) <= |od| && CountDynamic(ss) <= |sd|
    requires Progress(os, ss, od, sd, i, oi, si, rs, rd) && i < |os| && i < |ss|
    ensures oi <= |od| && si <= |sd|
    ensures os[i] < 0 ==> oi < |od|
    ensures ss[i] < 0 ==> si < |sd|
  {
    CountDynamicUnfold(os[i..]);
    CountDynamicUnfold(ss[i..]);
  }

  lemma ProgressStep(os: seq<int>, ss: seq<int>, od: seq<Value>, sd: seq<Value>,
                     i: nat, oi: nat, si: nat, rs: seq<int>, rd: seq<Value>,
                     oi': nat, si': nat, rs': seq<int>, rd': seq<Value>)
    requires CountDynamic(os) <= |od| && CountDynamic(ss) <= |sd|
    requires Progress(os, ss, od, sd, i, oi, si, rs, rd) && i < |os| && i < |ss|
    requires os[i] < 0 ==> oi < |od|
    requires ss[i] < 0 ==> si < |sd|
    requires rs' == rs + [CombineStatic(os[i], ss[i])]
    requires rd' == rd + Pushed(os[i], ss[i], od[oi..], sd[si..])
    requires oi' == oi + Dyn(os[i]) && si' == si + Dyn(ss[i])
    ensures Progress(os, ss, od, sd, i + 1, oi', si', rs', rd')
  {
    FoldStep(os, ss, od, sd, i, oi, si);
    var g := Fold(os[i + 1..], ss[i + 1..], od[oi + Dyn(os[i])..], sd[si + Dyn(ss[i])..]);
    Prepend2Step(rs, rd, CombineStatic(os[i], ss[i]), Pushed(os[i], ss[i], od[oi..], sd[si..]), g);
  }

  lemma ProgressEnd(os: seq<int>, ss: seq<int>, od: seq<Value>, sd: seq<Value>,
                    i: nat, oi: nat, si: nat, rs: seq<int>, rd: seq<Value>)
    requires CountDynamic(os) <= |od| && CountDynamic(ss) <= |sd|
    requires Progress(os, ss, od, sd, i, oi, si, rs, rd) && (i == |os| || i == |ss|)
    ensures Folded(rs, rd) == Fold(os, ss, od, sd)
  {
    assert os[i..] == [] || ss[i..] == [];
    assert rs + [] == rs && rd + [] == rd;
  }

  /** The offset loop: two cursors over the dynamic operands, results appended. */
  method FoldOffsets(os: seq<int>, ss: seq<int>, od: seq<Value>, sd: seq<Value>)
    returns (rs: seq<int>, rd: seq<Value>)
    requires CountDynamic(os) <= |od| && CountDynamic(ss) <= |sd|
    ensures Folded(rs, rd) == Fold(os, ss, od, sd)
  {
    rs, rd := [], [];
    var i: nat, oi: nat, si: nat := 0, 0, 0;
    ProgressStart(os, ss, od, sd);
    while i < |os| && i < |ss|
      invariant Progress(os, ss, od, sd, i, oi, si, rs, rd)
    {
      oi, si, rs, rd := FoldDim(os, ss, od, sd, i, oi, si, rs, rd);
      i := i + 1;
    }
    ProgressEnd(os, ss, od, sd, i, oi, si, rs, rd);
  }

  /** The body of the offset loop, for dimension `i`. */
  method FoldDim(os: seq<int>, ss: seq<int>, od: seq<Value>, sd: seq<Value>,
                 i: nat, oi: nat, si: nat, rs: seq<int>, rd: seq<Value>)
    returns (oi': nat, si': nat, rs': seq<int>, rd': seq<Value>)
    requires CountDynamic(os) <= |od| && CountDynamic(ss) <= |sd|
    requires Progress(os, ss, od, sd, i, oi, si, rs, rd) && i < |os| && i < |ss|
    ensures Progress(os, ss, od, sd, i + 1, oi', si', rs', rd')
  {
    ProgressBounds(os, ss, od, sd, i, oi, si, rs, rd);
    var st, pushed;
    st, pushed, oi', si' := CombineDim(os[i], ss[i], od, oi, sd, si);
    rs', rd' := rs + [st], rd + pushed;
    ProgressStep(os, ss, od, sd, i, oi, si, rs, rd, oi', si', rs', rd');
  }

  /**
   * One dimension of the loop: the static entry pushed, the operand pushed
   * if any, and the two cursors advanced past the operands read.
   */
  method CombineDim(o: int, s: int, od: seq<Value>, oi: nat, sd: seq<Value>, si: nat)
    returns (st: int, pushed: seq<Value>, oi': nat, si': nat)
    requires oi <= |od| && si <= |sd|
    requires o < 0 ==> oi < |od|
    requires s < 0 ==> si < |sd|
    ensures st == CombineStatic(o, s) && pushed == Pushed(o, s, od[oi..], sd[si..])
    ensures oi' == oi + Dyn(o) && si' == si + Dyn(s)
  {
    oi', si' := oi, si;
    pushed := [];
    if o >= 0 && s >= 0 {
      st := o + s;
    } else if o < 0 && s >= 0 {
      st := o;
      if s == 0 {
        pushed := [od[oi]];
      } else {
        pushed := [AddI(od[oi], ConstIndex(s))];
      }
      oi' := oi + 1;
    } else if o >= 0 && s < 0 {
      st := s;
      if o == 0 {
        pushed := [sd[si]];
      } else {
        pushed := [AddI(sd[si], ConstIndex(o))];
      }
      si' := si + 1;
    } else {
      pushed := [AddI(sd[si], od[oi])];
      oi', si' := oi + 1, si + 1;
      st := s;
    }
  }

  function Prepend2(rs: seq<int>, rd: seq<Value>, f: Folded): Folded {
    Folded(rs + f.statics, rd + f.dyn)
  }

  lemma Prepend2Step(rs: seq<int>, rd: seq<Value>, st: int, d: seq<Value>, g: Folded)
    ensures Prepend2(rs, rd, Prepend(st, d, g)) == Prepend2(rs + [st], rd + d, g)
  {
    assert rs + ([st] + g.statics) == (rs + [st]) + g.statics;
    assert rd + (d + g.dyn) == (rd + d) + g.dyn;
  }

  /** FoldSubViewOpsPattern::matchAndRewrite. */
  method FoldSubViewOps(op: SubView, def: Def) returns (r: Option<SubView>)
    requires WellFormedSubView(op) && (def.SubViewDef? ==> WellFormedSubView(def.sv))
    ensures r == FoldSubView(op, def)
  {
    if !def.SubViewDef? {
      return None;
    }
    var src := def.sv;
    var i := 0;
    while i < |src.ty.layout| && i < |op.ty.layout|
      invariant 0 <= i
      invariant forall j :: 0 <= j < i && j < |src.ty.layout| && j < |op.ty.layout| ==> src.ty.layout[j] == op.ty.layout[j]
      decreases |op.ty.layout| - i
    {
      if src.ty.layout[i] != op.ty.layout[i] {
        return None;
      }
      i := i + 1;
    }
    var rs, rd := FoldOffsets(op.staticOffsets, src.staticOffsets, op.offsets, src.offsets);
    r := Some(SubView(src.source, rd, op.sizes, op.strides, rs, op.staticSizes, op.staticStrides, op.ty));
  }

  // ---------------------------------------------------------------------
  // Properties

  /** Componentwise sum over the common prefix. */
  function AddSeq(a: seq<int>, b: seq<int>): (r: seq<int>)
    ensures |r| == Min(|a|, |b|)
    ensures forall i :: 0 <= i < |r| ==> r[i] == a[i] + b[i]
    decreases |a|
  {
    if |a| == 0 || |b| == 0 then []
    else
      var r := [a[0] + b[0]] + AddSeq(a[1..], b[1..]);
      assert forall i :: 1 <= i < |r| ==> r[i] == AddSeq(a[1..], b[1..])[i - 1];
      r
  }

  lemma ResolveCons(st: int, g: seq<int>, d: seq<Value>, gd: seq<Value>, env: Value -> int)
    requires |d| == Dyn(st) && CountDynamic(g) <= |gd|
    ensures CountDynamic([st] + g) <= |d + gd|
    ensures Resolve([st] + g, d + gd, env) == [if st >= 0 then st else Eval(d[0], env)] + Resolve(g, gd, env)
  {
    assert ([st] + g)[1..] == g;
    if st < 0 {
      assert (d + gd)[1..] == gd;
    } else {
      assert d + gd == gd;
    }
  }

  lemma AddSeqCons(x: int, a: seq<int>, y: int, b: seq<int>)
    ensures AddSeq([x] + a, [y] + b) == [x + y] + AddSeq(a, b)
  {
    assert ([x] + a)[1..] == a && ([y] + b)[1..] == b;
  }

  /** The meaning of one combined dimension is the sum of the two. */
  lemma PushedMeaning(o: int, s: int, od: seq<Value>, sd: seq<Value>, env: Value -> int)
    requires o < 0 ==> |od| > 0
    requires s < 0 ==> |sd| > 0
    ensures var st := CombineStatic(o, s);
            var p := Pushed(o, s, od, sd);
            (if st >= 0 then st else Eval(p[0], env)) ==
            (if o >= 0 then o else Eval(od[0], env)) + (if s >= 0 then s else Eval(sd[0], env))
  {
  }

  /**
   * The folded offsets are the sums of the two offsets: in every dimension
   * the folded offset evaluates to the outer offset plus the inner offset.
   * This is the address the pair meant only when the inner strides are 1.
   */
  lemma {:induction false} FoldMeaning(os: seq<int>, ss: seq<int>, od: seq<Value>, sd: seq<Value>, env: Value -> int)
    requires CountDynamic(os) <= |od| && CountDynamic(ss) <= |sd|
    ensures var f := Fold(os, ss, od, sd);
            Resolve(f.statics, f.dyn, env) == AddSeq(Resolve(os, od, env), Resolve(ss, sd, env))
    decreases |os|
  {
    if |os| > 0 && |ss| > 0 {
      CountDynamicUnfold(os);
      CountDynamicUnfold(ss);
      FoldMeaning(os[1..], ss[1..], Rest(os[0], od), Rest(ss[0], sd), env);
      FoldMeaningStep(os, ss, od, sd, env);
    }
  }

  predicate MeaningKept(os: seq<int>, ss: seq<int>, od: seq<Value>, sd: seq<Value>, env: Value -> int)
    requires CountDynamic(os) <= |od| && CountDynamic(ss) <= |sd|
  {
    var f := Fold(os, ss, od, sd);
    Resolve(f.statics, f.dyn, env) == AddSeq(Resolve(os, od, env), Resolve(ss, sd, env))
  }

  lemma FoldMeaningStep(os: seq<int>, ss: seq<int>, od: seq<Value>, sd: seq<Value>, env: Value -> int)
    requires CountDynamic(os) <= |od| && CountDynamic(ss) <= |sd|
    requires |os| > 0 && |ss| > 0
    requires CountDynamic(os[1..]) <= |Rest(os[0], od)| && CountDynamic(ss[1..]) <= |Rest(ss[0], sd)|
    requires MeaningKept(os[1..], ss[1..], Rest(os[0], od), Rest(ss[0], sd), env)
    ensures MeaningKept(os, ss, od, sd, env)
  {
    CountDynamicUnfold(os);
    CountDynamicUnfold(ss);
    var o, s := os[0], ss[0];
    var g := Fold(os[1..], ss[1..], Rest(o, od), Rest(s, sd));
    var st, p := CombineStatic(o, s), Pushed(o, s, od, sd);
    FoldUnfold(os, ss, od, sd);
    ResolveCons(st, g.statics, p, g.dyn, env);
    ResolveUnfold(os, od, env);
    ResolveUnfold(ss, sd, env);
    PushedMeaning(o, s, od, sd, env);
    var ho := if o >= 0 then o else Eval(od[0], env);
    var hs := if s >= 0 then s else Eval(sd[0], env);
    AddSeqCons(ho, Resolve(os[1..], Rest(o, od), env), hs, Resolve(ss[1..], Rest(s, sd), env));
  }

  lemma FoldUnfold(os: seq<int>, ss: seq<int>, od: seq<Value>, sd: seq<Value>)
    requires CountDynamic(os) <= |od| && CountDynamic(ss) <= |sd|
    requires |os| > 0 && |ss| > 0
    ensures Fold(os, ss, od, sd) ==
            Prepend(CombineStatic(os[0], ss[0]), Pushed(os[0], ss[0], od, sd),
                    Fold(os[1..], ss[1..], Rest(os[0], od), Rest(ss[0], sd)))
  {
  }

  /**
   * In the all-static case folding is componentwise addition and needs no
   * operand.
   */
  lemma AllStaticFold(os: seq<int>, ss: seq<int>, od: seq<Value>, sd: seq<Value>)
    requires forall i :: 0 <= i < |os| ==> os[i] >= 0
    requires forall i :: 0 <= i < |ss| ==> ss[i] >= 0
    ensures CountDynamic(os) == 0 && CountDynamic(ss) == 0
    ensures Fold(os, ss, od, sd) == Folded(AddSeq(os, ss), [])
  {
    CountDynamicZero(os);
    CountDynamicZero(ss);
    var f := Fold(os, ss, od, sd);
    assert f.statics == AddSeq(os, ss);
    CountDynamicZero(f.statics);
  }

  lemma CombineStaticAssoc(c: int, b: int, a: int)
    ensures CombineStatic(CombineStatic(c, b), a) == CombineStatic(c, CombineStatic(b, a))
  {
  }

  lemma AddSeqAssoc(a: seq<int>, b: seq<int>, c: seq<int>)
    ensures AddSeq(AddSeq(a, b), c) == AddSeq(a, AddSeq(b, c))
  {
    var l, r := AddSeq(AddSeq(a, b), c), AddSeq(a, AddSeq(b, c));
    assert forall i :: 0 <= i < |l| ==> l[i] == r[i];
  }

  /** The static offsets of a chain of three subviews do not depend on the order of folding. */
  predicate StaticsAssociate(cs: seq<int>, bs: seq<int>, as_: seq<int>,
                             cd: seq<Value>, bd: seq<Value>, ad: seq<Value>)
    requires CountDynamic(cs) <= |cd| && CountDynamic(bs) <= |bd| && CountDynamic(as_) <= |ad|
  {
    var cb := Fold(cs, bs, cd, bd);
    var ba := Fold(bs, as_, bd, ad);
    Fold(cb.statics, as_, cb.dyn, ad).statics == Fold(cs, ba.statics, cd, ba.dyn).statics
  }

  lemma FoldStaticsAssociative(cs: seq<int>, bs: seq<int>, as_: seq<int>,
                               cd: seq<Value>, bd: seq<Value>, ad: seq<Value>)
    requires CountDynamic(cs) <= |cd| && CountDynamic(bs) <= |bd| && CountDynamic(as_) <= |ad|
    ensures StaticsAssociate(cs, bs, as_, cd, bd, ad)
  {
    var cb := Fold(cs, bs, cd, bd);
    var ba := Fold(bs, as_, bd, ad);
    var left := Fold(cb.statics, as_, cb.dyn, ad);
    var right := Fold(cs, ba.statics, cd, ba.dyn);
    forall i | 0 <= i < |left.statics| ensures left.statics[i] == right.statics[i] {
      CombineStaticAssoc(cs[i], bs[i], as_[i]);
    }
  }

  /**
   * Folding a chain of three subviews either way gives the same static
   * offsets, and dynamic offsets with the same meaning.
   */
  lemma FoldAssociative(cs: seq<int>, bs: seq<int>, as_: seq<int>,
                        cd: seq<Value>, bd: seq<Value>, ad: seq<Value>, env: Value -> int)
    requires CountDynamic(cs) <= |cd| && CountDynamic(bs) <= |bd| && CountDynamic(as_) <= |ad|
    ensures var cb := Fold(cs, bs, cd, bd);
            var ba := Fold(bs, as_, bd, ad);
            var left := Fold(cb.statics, as_, cb.dyn, ad);
            var right := Fold(cs, ba.statics, cd, ba.dyn);
            left.statics == right.statics &&
            Resolve(left.statics, left.dyn, env) == Resolve(right.statics, right.dyn, env)
  {
    var cb := Fold(cs, bs, cd, bd);
    var ba := Fold(bs, as_, bd, ad);
    FoldStaticsAssociative(cs, bs, as_, cd, bd, ad);
    FoldMeaning(cs, bs, cd, bd, env);
    FoldMeaning(bs, as_, bd, ad, env);
    FoldMeaning(cb.statics, as_, cb.dyn, ad, env);
    FoldMeaning(cs, ba.statics, cd, ba.dyn, env);
    AddSeqAssoc(Resolve(cs, cd, env), Resolve(bs, bd, env), Resolve(as_, ad, env));
  }

  /**
   * The folded subview has one dynamic offset operand per dimension where
   * either subview has a dynamic offset.
   */
  lemma {:induction false} FoldOperandCount(os: seq<int>, ss: seq<int>, od: seq<Value>, sd: seq<Value>)
    requires CountDynamic(os) <= |od| && CountDynamic(ss) <= |sd|
    ensures |Fold(os, ss, od, sd).dyn| == CountEither(os, ss)
    decreases |os|
  {
    if |os| > 0 && |ss| > 0 {
      CountDynamicUnfold(os);
      CountDynamicUnfold(ss);
      FoldOperandCount(os[1..], ss[1..], Rest(os[0], od), Rest(ss[0], sd));
      FoldUnfold(os, ss, od, sd);
    }
  }

  /** A dimension of the fold is dynamic exactly when one of its two dimensions is. */
  lemma FoldDynamicWhereEither(os: seq<int>, ss: seq<int>, od: seq<Value>, sd: seq<Value>, i: nat)
    requires CountDynamic(os) <= |od| && CountDynamic(ss) <= |sd|
    requires i < |os| && i < |ss|
    ensures Fold(os, ss, od, sd).statics[i] < 0 <==> os[i] < 0 || ss[i] < 0
  {
  }
}
