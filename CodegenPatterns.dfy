/**
 * The rewrite patterns of AIRLinalgCodegen.cpp besides the subview fold:
 * RemoveSubViewOpsPattern (a subview of a view of an alloc becomes a fresh
 * alloc in fast memory), MemrefsPattern (a dynamically shaped alloc takes
 * the constants among its size operands into its type) and
 * RemoveAllocLinalgOpCopyPattern (an alloc that a linalg op fills and that
 * is then copied out is replaced by the copy's target).
 */
module CodegenPatterns {
  import opened Ir
  import opened MemRefOps

  // ---------------------------------------------------------------------
  // RemoveSubViewOpsPattern

  /** The memory space the pattern allocates in when none is given. */
  const DefaultFastSpace: nat := 1

  /** The alloc behind a subview, when its source is a view whose source is an alloc. */
  function ViewedAlloc(sv: SubView, defs: map<Value, Def>): (r: Option<Alloc>)
    ensures r.Some? <==>
              sv.source in defs && defs[sv.source].ViewDef? &&
              defs[sv.source].viewSource in defs && defs[defs[sv.source].viewSource].AllocDef?
    ensures r.Some? ==> AllocDef(r.value) == defs[defs[sv.source].viewSource]
  {
    if sv.source !in defs then None
    else match defs[sv.source]
      case ViewDef(v) =>
        if v in defs && defs[v].AllocDef? then Some(defs[v].alloc) else None
      case _ => None
  }

  /** SSA: an alloc is recorded under its own result, and the subview's result, if recorded, under the subview. */
  predicate DefsAgree(defs: map<Value, Def>, sv: SubView, res: Value) {
    && (forall k :: k in defs && defs[k].AllocDef? ==> defs[k].alloc.res == k)
    && (res in defs ==> defs[res] == SubViewDef(sv))
  }

  /**
   * Replacing the subview by a new alloc (`replaceOpWithNewOp`) and then
   * the old alloc by the same new alloc (`replaceAllUsesWith`).
   */
  function RedirectUses(ops: seq<Op>, res: Value, prev: Value, newRes: Value): seq<Op> {
    ReplaceAllUses(ReplaceAllUses(ops, res, newRes), prev, newRes)
  }

  /** A def with the values it reads replaced through `m`. */
  function RedirectDef(m: map<Value, Value>, d: Def): Def {
    match d
    case SubViewDef(sv) =>
      SubViewDef(sv.(source := SubstValue(m, sv.source), offsets := SubstValues(m, sv.offsets),
                     sizes := SubstValues(m, sv.sizes), strides := SubstValues(m, sv.strides)))
    case ViewDef(v) => ViewDef(SubstValue(m, v))
    case AllocDef(a) => AllocDef(a.(sizes := SubstValues(m, a.sizes)))
    case OtherDef => OtherDef
  }

  /**
   * The defining ops after the rewrite: the subview is gone, the new alloc
   * defines its result, and every other op reads through `m`.
   */
  function RedirectDefs(defs: map<Value, Def>, m: map<Value, Value>, res: Value, a: Alloc): map<Value, Def> {
    (map k | k in defs && k != res :: RedirectDef(m, defs[k]))[a.res := AllocDef(a)]
  }

  /** The alloc that replaces the subview. */
  function NewAlloc(sv: SubView, newRes: Value, fastSpace: nat): Alloc {
    Alloc(newRes, MemRef(sv.ty.shape, sv.ty.elem, [], fastSpace), sv.sizes)
  }

  /** The function after the rewrite: the new alloc, the other ops and the defining ops. */
  datatype Removed = Removed(alloc: Alloc, ops: seq<Op>, defs: map<Value, Def>)

  /**
   * The pattern on the subview `sv` with result `res`, in a function whose
   * other ops are `ops` and whose memref values are defined as `defs` says:
   * the new alloc has the subview's shape and element type, no layout, the
   * fast memory space, and the subview's size operands. Both replacements
   * reach every use, before the subview as well as after it, so the view the
   * match went through now reads the new alloc.
   */
  function RemoveSubView(sv: SubView, res: Value, defs: map<Value, Def>, ops: seq<Op>,
                         newRes: Value, fastSpace: nat): (r: Option<Removed>)
    ensures r.Some? <==> ViewedAlloc(sv, defs).Some?
    ensures r.Some? ==>
              r.value.alloc.res == newRes && r.value.alloc.sizes == sv.sizes &&
              r.value.alloc.ty == MemRef(sv.ty.shape, sv.ty.elem, [], fastSpace)
    ensures r.Some? ==> newRes in r.value.defs && r.value.defs[newRes] == AllocDef(r.value.alloc)
  {
    var a := ViewedAlloc(sv, defs);
    if a.None? then None
    else
      var n := NewAlloc(sv, newRes, fastSpace);
      Some(Removed(n, RedirectUses(ops, res, a.value.res, newRes),
                   RedirectDefs(defs, map[res := newRes, a.value.res := newRes], res, n)))
  }

  /**
   * The two replacements amount to one simultaneous substitution, after
   * which nothing uses the subview or the old alloc.
   */
  lemma RedirectUsesRemoves(ops: seq<Op>, res: Value, prev: Value, newRes: Value)
    requires res.Ssa? && prev.Ssa? && res != prev
    requires newRes.Ssa? && newRes != res && newRes != prev
    ensures RedirectUses(ops, res, prev, newRes) == SubstOps(map[res := newRes, prev := newRes], ops)
    ensures !OpsUse(RedirectUses(ops, res, prev, newRes), res)
    ensures !OpsUse(RedirectUses(ops, res, prev, newRes), prev)
  {
    var m := map[res := newRes, prev := newRes];
    OccursSelf(prev, newRes);
    SubstOpsThenReplace(map[res := newRes], prev, newRes, ops);
    assert map[res := newRes][prev := newRes] == m;
    assert forall k :: k in m ==> !Occurs(res, m[k]) && !Occurs(prev, m[k]) by {
      OccursSelf(res, newRes);
      OccursSelf(prev, newRes);
    }
    SubstOpsRemoves(m, res, ops);
    SubstOpsRemoves(m, prev, ops);
  }

  /** An SSA value occurs in another SSA value only when they are the same. */
  lemma OccursSelf(a: Value, v: Value)
    requires a.Ssa? && v.Ssa?
    ensures Occurs(a, v) <==> a == v
  {
  }

  /**
   * After the pattern nothing uses the subview or the alloc behind it any
   * more: no op, and no view, whether it came before the subview or after.
   */
  lemma RemoveSubViewRedirects(sv: SubView, res: Value, defs: map<Value, Def>, ops: seq<Op>,
                               newRes: Value, fastSpace: nat)
    requires ViewedAlloc(sv, defs).Some?
    requires res.Ssa? && ViewedAlloc(sv, defs).value.res.Ssa? && res != ViewedAlloc(sv, defs).value.res
    requires newRes.Ssa? && newRes != res && newRes != ViewedAlloc(sv, defs).value.res
    ensures var r := RemoveSubView(sv, res, defs, ops, newRes, fastSpace).value;
            !OpsUse(r.ops, res) && !OpsUse(r.ops, ViewedAlloc(sv, defs).value.res) &&
            r.ops == SubstOps(map[res := newRes, ViewedAlloc(sv, defs).value.res := newRes], ops)
    ensures var r := RemoveSubView(sv, res, defs, ops, newRes, fastSpace).value;
            && res !in r.defs
            && forall k :: k in r.defs && r.defs[k].ViewDef? ==>
                 r.defs[k].viewSource != res && r.defs[k].viewSource != ViewedAlloc(sv, defs).value.res
  {
    var prev := ViewedAlloc(sv, defs).value.res;
    var m := map[res := newRes, prev := newRes];
    RedirectUsesRemoves(ops, res, prev, newRes);
    var r := RemoveSubView(sv, res, defs, ops, newRes, fastSpace).value;
    forall k | k in r.defs && r.defs[k].ViewDef?
      ensures r.defs[k].viewSource != res && r.defs[k].viewSource != prev
    {
      var v := defs[k].viewSource;
      assert r.defs[k] == ViewDef(SubstValue(m, v));
      if v.Ssa? && v in m {
        assert SubstValue(m, v) == newRes;
      }
    }
  }

  /**
   * The view now reads the new alloc, so a second subview of the same view
   * matches again, this time with the first new alloc as its viewed alloc.
   */
  lemma RemoveSubViewRematches(sv: SubView, res: Value, defs: map<Value, Def>, ops: seq<Op>,
                               newRes: Value, fastSpace: nat, sv2: SubView)
    requires ViewedAlloc(sv, defs).Some? && DefsAgree(defs, sv, res) && ViewedAlloc(sv, defs).value.res.Ssa?
    requires newRes.Ssa? && newRes !in defs && sv2.source == sv.source
    ensures var r := RemoveSubView(sv, res, defs, ops, newRes, fastSpace).value;
            ViewedAlloc(sv2, r.defs) == Some(r.alloc)
  {
    var v := defs[sv.source].viewSource;
    var prev := ViewedAlloc(sv, defs).value.res;
    assert prev == v;
    var m := map[res := newRes, prev := newRes];
    var r := RemoveSubView(sv, res, defs, ops, newRes, fastSpace).value;
    assert sv.source != res && sv.source != newRes;
    assert r.defs == RedirectDefs(defs, m, res, r.alloc);
    assert sv.source in r.defs && r.defs[sv.source] == RedirectDef(m, defs[sv.source]);
    assert SubstValue(m, v) == newRes;
    assert r.defs[sv.source] == ViewDef(newRes);
  }

  /**
   * The pattern with the view left reading the old alloc: the ops are
   * redirected as before, but among the defining ops only the subview is
   * replaced, so the view still reads the alloc it was made from.
   */
  function RemoveSubViewKeepingView(sv: SubView, res: Value, defs: map<Value, Def>, ops: seq<Op>,
                                    newRes: Value, fastSpace: nat): (r: Option<Removed>)
    ensures r.Some? <==> ViewedAlloc(sv, defs).Some?
    ensures r.Some? ==>
              && r.value.alloc == RemoveSubView(sv, res, defs, ops, newRes, fastSpace).value.alloc
              && r.value.ops == RemoveSubView(sv, res, defs, ops, newRes, fastSpace).value.ops
  {
    var a := ViewedAlloc(sv, defs);
    if a.None? then None
    else
      var n := NewAlloc(sv, newRes, fastSpace);
      Some(Removed(n, RedirectUses(ops, res, a.value.res, newRes),
                   RedirectDefs(defs, map[res := newRes], res, n)))
  }

  /** With the view left alone, a second subview of it still finds the original alloc. */
  lemma KeepingViewMatchesOldAlloc(sv: SubView, res: Value, defs: map<Value, Def>, ops: seq<Op>,
                                   newRes: Value, fastSpace: nat, sv2: SubView)
    requires ViewedAlloc(sv, defs).Some? && DefsAgree(defs, sv, res) && ViewedAlloc(sv, defs).value.res.Ssa?
    requires newRes.Ssa? && newRes !in defs && sv2.source == sv.source
    ensures var r := RemoveSubViewKeepingView(sv, res, defs, ops, newRes, fastSpace).value;
            ViewedAlloc(sv2, r.defs).Some? && ViewedAlloc(sv2, r.defs).value.res == ViewedAlloc(sv, defs).value.res
  {
    var v := defs[sv.source].viewSource;
    var m := map[res := newRes];
    var r := RemoveSubViewKeepingView(sv, res, defs, ops, newRes, fastSpace).value;
    assert ViewedAlloc(sv, defs).value.res == v;
    assert sv.source != res && sv.source != newRes;
    assert v != res && v != newRes;
    assert r.defs == RedirectDefs(defs, m, res, r.alloc);
    assert sv.source in r.defs && r.defs[sv.source] == RedirectDef(m, defs[sv.source]);
    assert SubstValue(m, v) == v;
    assert v in r.defs && r.defs[v] == RedirectDef(m, defs[v]);
    assert r.defs[v].AllocDef? && r.defs[v].alloc.res == defs[v].alloc.res;
  }

  // Two subviews %s1 and %s2 of one view %v of an alloc %a, each used by one op.
  const ExBuf: MemRefTy := MemRef([4], Float(32), [], 0)
  const ExAlloc: Value := Ssa(1, ExBuf)
  const ExView: Value := Ssa(2, ExBuf)
  const ExSub1: Value := Ssa(3, ExBuf)
  const ExSub2: Value := Ssa(4, ExBuf)
  const ExNew1: Value := Ssa(5, ExBuf)
  const ExNew2: Value := Ssa(6, ExBuf)
  const ExSv: SubView := SubView(ExView, [], [], [], [0], [4], [1], ExBuf)
  const ExDefs: map<Value, Def> :=
    map[ExAlloc := AllocDef(Alloc(ExAlloc, ExBuf, [])), ExView := ViewDef(ExAlloc),
        ExSub1 := SubViewDef(ExSv), ExSub2 := SubViewDef(ExSv)]
  const ExOps: seq<Op> := [Generic("use", [ExSub1], []), Generic("use", [ExSub2], [])]

  /** A single-operand use after substitution. */
  lemma SubstUse(m: map<Value, Value>, x: Value)
    ensures SubstOp(m, Generic("use", [x], [])) == Generic("use", [SubstValue(m, x)], [])
  {
    assert SubstValues(m, [x]) == [SubstValue(m, x)];
    var b: seq<Op> := [];
    assert seq(|b|, i requires 0 <= i < |b| => SubstOp(m, b[i])) == [];
  }

  /**
   * As written, rewriting both subviews leaves the users of both on the
   * second new alloc: the two windows have become one buffer.
   */
  lemma RemoveSubViewMergesBuffers()
    ensures RemoveSubView(ExSv, ExSub1, ExDefs, ExOps, ExNew1, 2).Some?
    ensures var r1 := RemoveSubView(ExSv, ExSub1, ExDefs, ExOps, ExNew1, 2).value;
            && ViewedAlloc(ExSv, r1.defs) == Some(r1.alloc)
            && RemoveSubView(ExSv, ExSub2, r1.defs, r1.ops, ExNew2, 2).Some?
            && RemoveSubView(ExSv, ExSub2, r1.defs, r1.ops, ExNew2, 2).value.ops
               == [Generic("use", [ExNew2], []), Generic("use", [ExNew2], [])]
  {
    var m1 := map[ExSub1 := ExNew1, ExAlloc := ExNew1];
    var r1 := RemoveSubView(ExSv, ExSub1, ExDefs, ExOps, ExNew1, 2).value;
    RedirectUsesRemoves(ExOps, ExSub1, ExAlloc, ExNew1);
    SubstUse(m1, ExSub1);
    SubstUse(m1, ExSub2);
    assert r1.ops == [Generic("use", [ExNew1], []), Generic("use", [ExSub2], [])];
    assert r1.defs == RedirectDefs(ExDefs, m1, ExSub1, r1.alloc);
    assert r1.defs[ExView] == ViewDef(ExNew1);
    var m2 := map[ExSub2 := ExNew2, ExNew1 := ExNew2];
    RedirectUsesRemoves(r1.ops, ExSub2, ExNew1, ExNew2);
    SubstUse(m2, ExNew1);
    SubstUse(m2, ExSub2);
  }

  /** With the view left alone, each subview gets a buffer of its own. */
  lemma KeepingViewSeparateBuffers()
    ensures RemoveSubViewKeepingView(ExSv, ExSub1, ExDefs, ExOps, ExNew1, 2).Some?
    ensures var r1 := RemoveSubViewKeepingView(ExSv, ExSub1, ExDefs, ExOps, ExNew1, 2).value;
            && RemoveSubViewKeepingView(ExSv, ExSub2, r1.defs, r1.ops, ExNew2, 2).Some?
            && RemoveSubViewKeepingView(ExSv, ExSub2, r1.defs, r1.ops, ExNew2, 2).value.ops
               == [Generic("use", [ExNew1], []), Generic("use", [ExNew2], [])]
  {
    var m1 := map[ExSub1 := ExNew1, ExAlloc := ExNew1];
    var r1 := RemoveSubViewKeepingView(ExSv, ExSub1, ExDefs, ExOps, ExNew1, 2).value;
    RedirectUsesRemoves(ExOps, ExSub1, ExAlloc, ExNew1);
    SubstUse(m1, ExSub1);
    SubstUse(m1, ExSub2);
    assert r1.ops == [Generic("use", [ExNew1], []), Generic("use", [ExSub2], [])];
    var k1 := map[ExSub1 := ExNew1];
    assert r1.defs == RedirectDefs(ExDefs, k1, ExSub1, r1.alloc);
    assert r1.defs[ExView] == ViewDef(ExAlloc);
    assert SubstValues(k1, []) == [];
    assert r1.defs[ExAlloc] == AllocDef(Alloc(ExAlloc, ExBuf, []));
    var m2 := map[ExSub2 := ExNew2, ExAlloc := ExNew2];
    RedirectUsesRemoves(r1.ops, ExSub2, ExAlloc, ExNew2);
    SubstUse(m2, ExNew1);
    SubstUse(m2, ExSub2);
  }

  // ---------------------------------------------------------------------
  // MemrefsPattern

  /** `hasStaticShape`: no dimension is dynamic. */
  predicate HasStaticShape(ty: MemRefTy) {
    CountDynamic(ty.shape) == 0
  }

  /** The shape with every dimension whose size operand is a constant index set to that constant. */
  function Refine(shape: seq<int>, sizes: seq<Value>): (r: seq<int>)
    requires |sizes| == |shape|
    ensures |r| == |shape|
    ensures forall i :: 0 <= i < |r| ==> r[i] == (if sizes[i].ConstIndex? then sizes[i].c else shape[i])
  {
    if |shape| == 0 then []
    else
      var r := [if sizes[0].ConstIndex? then sizes[0].c else shape[0]] + Refine(shape[1..], sizes[1..]);
      assert forall i :: 1 <= i < |r| ==> r[i] == Refine(shape[1..], sizes[1..])[i - 1];
      r
  }

  /** The loop that overwrites `shape[dim]` for each constant operand. */
  method RefineShape(shape: seq<int>, sizes: seq<Value>) returns (r: seq<int>)
    requires |sizes| == |shape|
    ensures r == Refine(shape, sizes)
  {
    r := shape;
    var dim := 0;
    while dim < |sizes|
      invariant 0 <= dim <= |sizes| && |r| == |shape|
      invariant forall i :: 0 <= i < dim ==> r[i] == Refine(shape, sizes)[i]
      invariant forall i :: dim <= i < |r| ==> r[i] == shape[i]
    {
      if sizes[dim].ConstIndex? {
        r := r[dim := sizes[dim].c];
      }
      dim := dim + 1;
    }
  }

  /** The size operands of the dimensions that are still dynamic, in order. */
  function KeptSizes(refined: seq<int>, sizes: seq<Value>): (r: seq<Value>)
    requires |sizes| == |refined|
    ensures |r| == CountDynamic(refined)
  {
    if |refined| == 0 then []
    else (if refined[0] < 0 then [sizes[0]] else []) + KeptSizes(refined[1..], sizes[1..])
  }

  /** The refined type: same element type and memory space, no layout. */
  function RefinedType(ty: MemRefTy, sizes: seq<Value>): MemRefTy
    requires |sizes| == |ty.shape|
  {
    MemRef(Refine(ty.shape, sizes), ty.elem, [], ty.space)
  }

  /** MemrefsPattern as written: the new alloc gets no size operands at all. */
  function MemrefsAsWritten(a: Alloc, newRes: Value): (r: Option<Alloc>)
    ensures r.Some? <==> !HasStaticShape(a.ty) && |a.sizes| == |a.ty.shape|
    ensures r.Some? ==> r.value.sizes == [] && r.value.ty == RefinedType(a.ty, a.sizes)
  {
    if HasStaticShape(a.ty) || |a.sizes| != |a.ty.shape| then None
    else Some(Alloc(newRes, RefinedType(a.ty, a.sizes), []))
  }

  /** MemrefsPattern with the operands of the dimensions that stay dynamic kept. */
  function Memrefs(a: Alloc, newRes: Value): (r: Option<Alloc>)
    ensures r.Some? <==> !HasStaticShape(a.ty) && |a.sizes| == |a.ty.shape|
    ensures r.Some? ==> WellFormedAlloc(r.value) && r.value.ty == RefinedType(a.ty, a.sizes)
  {
    if HasStaticShape(a.ty) || |a.sizes| != |a.ty.shape| then None
    else
      var ty := RefinedType(a.ty, a.sizes);
      Some(Alloc(newRes, ty, KeptSizes(ty.shape, a.sizes)))
  }

  /**
   * On a well-formed alloc the pattern applies exactly when the alloc has
   * at least one dimension and every dimension is dynamic.
   */
  lemma MemrefsApplies(a: Alloc, newRes: Value)
    requires WellFormedAlloc(a)
    ensures Memrefs(a, newRes).Some? <==>
              |a.ty.shape| > 0 && forall i :: 0 <= i < |a.ty.shape| ==> a.ty.shape[i] < 0
  {
    CountDynamicAll(a.ty.shape);
  }

  /**
   * The alloc the pattern builds as written is well formed exactly when
   * every size operand was a constant that is a valid static size.
   */
  lemma MemrefsAsWrittenWellFormed(a: Alloc, newRes: Value)
    requires WellFormedAlloc(a) && MemrefsAsWritten(a, newRes).Some?
    ensures WellFormedAlloc(MemrefsAsWritten(a, newRes).value) <==>
              forall i :: 0 <= i < |a.sizes| ==> a.sizes[i].ConstIndex? && a.sizes[i].c >= 0
  {
    CountDynamicAll(a.ty.shape);
    CountDynamicZero(Refine(a.ty.shape, a.sizes));
  }

  /** An alloc with one constant and one non-constant size operand. */
  lemma MemrefsAsWrittenCounterexample()
    ensures var a := Alloc(Ssa(0, MemRef([-1, -1], Float(32), [], L2)),
                           MemRef([-1, -1], Float(32), [], L2),
                           [ConstIndex(4), Ssa(1, Index)]);
            WellFormedAlloc(a) && MemrefsAsWritten(a, Ssa(2, Index)).Some? &&
            !WellFormedAlloc(MemrefsAsWritten(a, Ssa(2, Index)).value) &&
            MemrefsAsWritten(a, Ssa(2, Index)).value.ty.shape == [4, -1]
  {
    var a := Alloc(Ssa(0, MemRef([-1, -1], Float(32), [], L2)),
                   MemRef([-1, -1], Float(32), [], L2),
                   [ConstIndex(4), Ssa(1, Index)]);
    MemrefsAsWrittenWellFormed(a, Ssa(2, Index));
    assert Refine([-1, -1], a.sizes) == [4, -1];
  }

  lemma RefineUnfold(shape: seq<int>, sizes: seq<Value>)
    requires |sizes| == |shape| && |shape| > 0
    ensures Refine(shape, sizes)[1..] == Refine(shape[1..], sizes[1..])
    ensures KeptSizes(Refine(shape, sizes), sizes) ==
            (if Refine(shape, sizes)[0] < 0 then [sizes[0]] else []) +
            KeptSizes(Refine(shape[1..], sizes[1..]), sizes[1..])
  {
  }

  /** The refined alloc allocates the same extents as before. */
  predicate SameExtents(shape: seq<int>, sizes: seq<Value>, env: Value -> int)
    requires |sizes| == |shape| && CountDynamic(shape) <= |sizes|
  {
    var refined := Refine(shape, sizes);
    Resolve(refined, KeptSizes(refined, sizes), env) == Resolve(shape, sizes, env)
  }

  lemma {:induction false} RefineKeepsExtents(shape: seq<int>, sizes: seq<Value>, env: Value -> int)
    requires |sizes| == |shape| && CountDynamic(shape) == |shape|
    ensures SameExtents(shape, sizes, env)
    decreases |shape|
  {
    if |shape| > 0 {
      CountDynamicUnfold(shape);
      RefineKeepsExtents(shape[1..], sizes[1..], env);
      RefineStep(shape, sizes, env);
    }
  }

  lemma RefineStep(shape: seq<int>, sizes: seq<Value>, env: Value -> int)
    requires |sizes| == |shape| && |shape| > 0 && CountDynamic(shape) == |shape|
    requires CountDynamic(shape[1..]) == |shape| - 1
    requires SameExtents(shape[1..], sizes[1..], env)
    ensures SameExtents(shape, sizes, env)
  {
    var refined := Refine(shape, sizes);
    var tail := Refine(shape[1..], sizes[1..]);
    CountDynamicUnfold(shape);
    RefineUnfold(shape, sizes);
    ResolveUnfold(refined, KeptSizes(refined, sizes), env);
    ResolveUnfold(shape, sizes, env);
    assert Rest(refined[0], KeptSizes(refined, sizes)) == KeptSizes(tail, sizes[1..]);
  }

  /**
   * The alloc the corrected pattern builds allocates the same extents as the
   * original: each dimension is either the constant it was given or still
   * read from its size operand.
   */
  lemma MemrefsKeepsExtents(a: Alloc, newRes: Value, env: Value -> int)
    requires WellFormedAlloc(a) && Memrefs(a, newRes).Some?
    ensures var r := Memrefs(a, newRes).value;
            Resolve(r.ty.shape, r.sizes, env) == Resolve(a.ty.shape, a.sizes, env)
  {
    RefineKeepsExtents(a.ty.shape, a.sizes, env);
  }

  // ---------------------------------------------------------------------
  // RemoveAllocLinalgOpCopyPattern

  /** Who uses a value of a cast of the alloc. */
  datatype CastUser = CopyUser(source: Value, target: Value) | OtherCastUser

  /** A use of the alloc. */
  datatype Use =
    | CastUse(cast: Value, castUsers: seq<CastUser>)
    | LinalgUse(init: bool)
    | OtherUse

  datatype CopyElim =
    | Erased
    | Failed
    /** The alloc becomes a cast of `target` to `ty`; the cast `cast` and its copy are erased. */
    | Replaced(target: Value, ty: MemRefTy, cast: Value)

  predicate InitUse(u: Use) {
    u.LinalgUse? && u.init
  }

  predicate HasInitUse(uses: seq<Use>) {
    exists i :: 0 <= i < |uses| && InitUse(uses[i])
  }

  predicate HasLinalgUse(uses: seq<Use>) {
    exists i :: 0 <= i < |uses| && uses[i].LinalgUse?
  }

  /** The position of the last cast among the uses: the loop keeps overwriting `castOp`. */
  function LastCast(uses: seq<Use>): (r: Option<nat>)
    ensures r.None? <==> forall i :: 0 <= i < |uses| ==> !uses[i].CastUse?
    ensures r.Some? ==> r.value < |uses| && uses[r.value].CastUse? &&
                        forall j :: r.value < j < |uses| ==> !uses[j].CastUse?
  {
    if |uses| == 0 then None
    else if uses[|uses| - 1].CastUse? then Some(|uses| - 1)
    else
      var r := LastCast(uses[..|uses| - 1]);
      assert forall j :: 0 <= j < |uses| - 1 ==> uses[..|uses| - 1][j] == uses[j];
      r
  }

  /** The cast's only user is a copy. */
  predicate CopiedOnce(u: Use) {
    u.CastUse? && |u.castUsers| == 1 && u.castUsers[0].CopyUser?
  }

  /**
   * The pattern on an alloc of type `ty` with the given uses: an unused
   * alloc is erased; otherwise it is replaced exactly when no linalg op
   * reads it, some linalg op uses it, and the last cast of it has one user,
   * a copy, whose target then stands in for the alloc.
   */
  function AllocCopy(uses: seq<Use>, ty: MemRefTy): (r: CopyElim)
    ensures r.Erased? <==> |uses| == 0
    ensures r.Replaced? <==>
              |uses| > 0 && !HasInitUse(uses) && HasLinalgUse(uses) &&
              LastCast(uses).Some? && CopiedOnce(uses[LastCast(uses).value])
    ensures r.Replaced? ==>
              var c := uses[LastCast(uses).value];
              r == Replaced(c.castUsers[0].target, ty, c.cast)
  {
    if |uses| == 0 then Erased
    else if HasInitUse(uses) then Failed
    else
      var k := LastCast(uses);
      if k.None? || !HasLinalgUse(uses) then Failed
      else
        var c := uses[k.value];
        if |c.castUsers| != 1 || !c.castUsers[0].CopyUser? then Failed
        else Replaced(c.castUsers[0].target, ty, c.cast)
  }

  /** The pattern's scan over the uses, failing as soon as a linalg op reads the alloc. */
  method RemoveAllocLinalgOpCopy(uses: seq<Use>, ty: MemRefTy) returns (r: CopyElim)
    ensures r == AllocCopy(uses, ty)
  {
    if |uses| == 0 {
      return Erased;
    }
    var castOp: Option<nat> := None;
    var linalgOp := false;
    var i := 0;
    while i < |uses|
      invariant 0 <= i <= |uses|
      invariant castOp == LastCast(uses[..i])
      invariant linalgOp <==> HasLinalgUse(uses[..i])
      invariant !HasInitUse(uses[..i])
    {
      assert uses[..i + 1][..i] == uses[..i];
      assert forall j :: 0 <= j < i ==> uses[..i + 1][j] == uses[..i][j];
      match uses[i] {
        case CastUse(_, _) =>
          castOp := Some(i);
        case LinalgUse(init) =>
          linalgOp := true;
          if init {
            assert InitUse(uses[i]);
            return Failed;
          }
        case OtherUse =>
      }
      i := i + 1;
    }
    assert uses[..i] == uses;
    if castOp.None? || !linalgOp {
      return Failed;
    }
    var c := uses[castOp.value];
    if |c.castUsers| != 1 {
      return Failed;
    }
    match c.castUsers[0]
    case CopyUser(_, target) =>
      r := Replaced(target, ty, c.cast);
    case OtherCastUser =>
      r := Failed;
  }
}
