/**
 * The AIR lowering pass as a whole (AIRLoweringPass.cpp, the L2
 * alloc/dealloc patterns and AIRLoweringPass::runOnOperation).
 *
 * The module is seen as a list of the ops the pass's patterns match, each
 * DMA copy together with its enclosing ops. The conversion visits a launch
 * before the ops nested in it and splices the launch body into the `inner`
 * loop, so a copy's chain is the one it has when it is converted: below the
 * lowered loop nest, not below its launch. The pass registers the DMA
 * patterns of one mode, the herd pattern, and the L2 memory patterns only
 * in runtime mode, then runs a partial conversion: an op the target does
 * not mention is left as it is when no pattern rewrites it, while an
 * L2 alloc or dealloc, which the target marks illegal, must be rewritten or
 * the pass fails.
 */
module LoweringPass {
  import opened Ir
  import opened Coordinates
  import opened HerdLowering
  import opened DmaLowering

  datatype Pattern =
    | HerdLaunchConversion
    | DmaToMemcpyFn(kind: DmaKind)
    | DmaToAirRt(kind: DmaKind)
    | L2AllocToAirRt
    | L2DeallocToAirRt

  /** The patterns the pass inserts for the `lower-to-cpu` option. */
  function Patterns(lowerToCpu: bool): (r: set<Pattern>)
    ensures HerdLaunchConversion in r
    ensures L2AllocToAirRt in r <==> !lowerToCpu
    ensures L2DeallocToAirRt in r <==> !lowerToCpu
  {
    var dma := if lowerToCpu then {DmaToMemcpyFn(Memcpy1d), DmaToMemcpyFn(Memcpy2d), DmaToMemcpyFn(Memcpy4d)}
               else {DmaToAirRt(Memcpy1d), DmaToAirRt(Memcpy2d), DmaToAirRt(Memcpy4d),
                     L2AllocToAirRt, L2DeallocToAirRt};
    dma + {HerdLaunchConversion}
  }

  /** Each DMA copy kind gets the pattern of the chosen mode and never the other. */
  lemma DmaPatternsRegistered(lowerToCpu: bool, k: DmaKind)
    ensures DmaToMemcpyFn(k) in Patterns(lowerToCpu) <==> lowerToCpu
    ensures DmaToAirRt(k) in Patterns(lowerToCpu) <==> !lowerToCpu
  {
    match k
    case Memcpy1d =>
    case Memcpy2d =>
    case Memcpy4d =>
  }

  /** An op of the input the patterns are about. */
  datatype Item =
    | HerdItem(herd: Herd, outerIv: Value, innerIv: Value)
    | DmaItem(dma: DmaOp, chain: seq<Ancestor>)
    | AllocItem(ty: MemRefTy)
    | DeallocItem(ty: MemRefTy, buffer: Value)

  /** What an item becomes. */
  datatype Out =
    | Kept(item: Item)
    | HerdLowered(ops: seq<Op>)
    | DmaLowered(call: Lowered)
    | RtAlloc(ty: MemRefTy)
    | RtDealloc(operands: seq<Value>)

  /** What the IR guarantees of the ops the patterns rewrite. */
  predicate ItemOk(it: Item) {
    match it
    case HerdItem(h, _, _) => Lowerable(h)
    case DmaItem(d, _) => WellFormed(d)
    case _ => true
  }

  /** The legality callbacks: an alloc or dealloc is legal unless its buffer is in L2. */
  predicate AllocLegal(ty: MemRefTy)
    ensures ty.space == L2 ==> !AllocLegal(ty)
    ensures ty.space == L1 || ty.space == L3 ==> AllocLegal(ty)
  {
    ty.space != L2
  }

  /** L2AllocToAIRRtConversion: succeeds on an L2 buffer only. */
  function L2Alloc(ty: MemRefTy): (r: Option<Out>)
    ensures r.Some? <==> !AllocLegal(ty)
    ensures r.Some? ==> r.value == RtAlloc(ty)
  {
    if ty.space == L2 then Some(RtAlloc(ty)) else None
  }

  /** L2DeallocToAIRRtConversion: succeeds on an L2 buffer only, keeping the operands. */
  function L2Dealloc(ty: MemRefTy, buffer: Value): (r: Option<Out>)
    ensures r.Some? <==> !AllocLegal(ty)
    ensures r.Some? ==> r.value == RtDealloc([buffer])
  {
    if ty.space == L2 then Some(RtDealloc([buffer])) else None
  }

  /** The one pattern that can match the item in the given mode. */
  function PatternOf(it: Item, lowerToCpu: bool): Pattern {
    match it
    case HerdItem(_, _, _) => HerdLaunchConversion
    case DmaItem(d, _) => if lowerToCpu then DmaToMemcpyFn(d.kind) else DmaToAirRt(d.kind)
    case AllocItem(_) => L2AllocToAirRt
    case DeallocItem(_, _) => L2DeallocToAirRt
  }

  /**
   * An item after the one registered pattern for its kind has been tried: a
   * launch is always lowered, a copy is lowered when its conversion finds a
   * coordinate (and, for the runtime, a direction), an alloc or dealloc is
   * rewritten exactly when the runtime mode sees an L2 buffer; anything not
   * rewritten is kept as it is.
   */
  function LowerItem(it: Item, lowerToCpu: bool): (r: Out)
    requires ItemOk(it)
    ensures it.HerdItem? ==> r.HerdLowered?
    ensures it.DmaItem? ==>
              (r.DmaLowered? <==> TileCoordsAsWritten(it.chain).Some? &&
                                  (lowerToCpu || Classify(it.dma.srcSpace, it.dma.dstSpace).Some?))
    ensures it.DmaItem? && r.DmaLowered? && lowerToCpu ==> r.call.Call? && r.call.callee == FnName(it.dma.kind)
    ensures it.DmaItem? && r.DmaLowered? && !lowerToCpu ==> r.call.RtDma? && r.call.kind == it.dma.kind
    ensures (it.AllocItem? || it.DeallocItem?) ==> (r == Kept(it) <==> lowerToCpu || AllocLegal(it.ty))
    ensures it.AllocItem? && r != Kept(it) ==> r == RtAlloc(it.ty)
    ensures it.DeallocItem? && r != Kept(it) ==> r == RtDealloc([it.buffer])
    ensures !it.HerdItem? && !r.Kept? ==> r != Kept(it) && PatternOf(it, lowerToCpu) in Patterns(lowerToCpu)
  {
    match it
    case HerdItem(h, o, i) => HerdLowered(LoweredHerd(h, o, i))
    case DmaItem(d, chain) =>
      var xy := TileCoordsAsWritten(chain);
      var r := if lowerToCpu then MemcpyFnCall(d, xy) else AirRtMemcpy(d, xy);
      if r.Some? then DmaLowered(r.value) else Kept(it)
    case AllocItem(ty) =>
      if lowerToCpu then Kept(it) else
      var r := L2Alloc(ty);
      if r.Some? then r.value else Kept(it)
    case DeallocItem(ty, b) =>
      if lowerToCpu then Kept(it) else
      var r := L2Dealloc(ty, b);
      if r.Some? then r.value else Kept(it)
  }

  /** The conversion target: only L2 memory ops must not remain. */
  predicate OutLegal(o: Out) {
    match o
    case Kept(AllocItem(ty)) => AllocLegal(ty)
    case Kept(DeallocItem(ty, _)) => AllocLegal(ty)
    case _ => true
  }

  /** An L2 alloc or dealloc. */
  predicate IsL2Memory(it: Item) {
    (it.AllocItem? || it.DeallocItem?) && it.ty.space == L2
  }

  /** The partial conversion: the lowered items, or None when an illegal op remains. */
  function LowerModule(items: seq<Item>, lowerToCpu: bool): (r: Option<seq<Out>>)
    requires forall i :: 0 <= i < |items| ==> ItemOk(items[i])
    ensures r.None? <==> exists i :: 0 <= i < |items| && !OutLegal(LowerItem(items[i], lowerToCpu))
    ensures r.Some? ==> |r.value| == |items|
    ensures r.Some? ==> forall i :: 0 <= i < |items| ==> r.value[i] == LowerItem(items[i], lowerToCpu)
  {
    var outs := seq(|items|, i requires 0 <= i < |items| => LowerItem(items[i], lowerToCpu));
    assert forall i :: 0 <= i < |items| ==> outs[i] == LowerItem(items[i], lowerToCpu);
    if forall i :: 0 <= i < |outs| ==> OutLegal(outs[i]) then Some(outs) else None
  }

  // ---------------------------------------------------------------------
  // Properties

  /** An item is left illegal exactly when it is L2 memory and the mode has no pattern for it. */
  lemma LowerItemLegal(it: Item, lowerToCpu: bool)
    requires ItemOk(it)
    ensures !OutLegal(LowerItem(it, lowerToCpu)) <==> lowerToCpu && IsL2Memory(it)
  {
    match it
    case HerdItem(_, _, _) =>
    case DmaItem(d, chain) =>
    case AllocItem(ty) =>
    case DeallocItem(ty, b) =>
  }

  /** Lowering for the runtime never fails, and no L2 alloc or dealloc survives it. */
  lemma RuntimeModeSucceeds(items: seq<Item>)
    requires forall i :: 0 <= i < |items| ==> ItemOk(items[i])
    ensures LowerModule(items, false).Some?
    ensures forall i :: 0 <= i < |items| && IsL2Memory(items[i]) ==>
              LowerModule(items, false).value[i] ==
                (if items[i].AllocItem? then RtAlloc(items[i].ty) else RtDealloc([items[i].buffer]))
  {
    forall i | 0 <= i < |items| ensures OutLegal(LowerItem(items[i], false)) {
      LowerItemLegal(items[i], false);
    }
  }

  /** Lowering for the CPU fails exactly when the module holds an L2 alloc or dealloc. */
  lemma CpuModeFailsOnL2(items: seq<Item>)
    requires forall i :: 0 <= i < |items| ==> ItemOk(items[i])
    ensures LowerModule(items, true).None? <==> exists i :: 0 <= i < |items| && IsL2Memory(items[i])
  {
    var outs := seq(|items|, i requires 0 <= i < |items| => LowerItem(items[i], true));
    forall i | 0 <= i < |items| ensures !OutLegal(outs[i]) <==> IsL2Memory(items[i]) {
      LowerItemLegal(items[i], true);
    }
  }

  /** Memory outside L2 is left alone in both modes. */
  lemma OtherMemoryKept(it: Item, lowerToCpu: bool)
    requires (it.AllocItem? || it.DeallocItem?) && it.ty.space != L2
    ensures LowerItem(it, lowerToCpu) == Kept(it)
  {
  }

  /** A DMA copy whose conversion fails is left in place; it does not fail the pass. */
  lemma FailedCopyKept(d: DmaOp, chain: seq<Ancestor>, lowerToCpu: bool)
    requires WellFormed(d)
    requires lowerToCpu ==> MemcpyFnCall(d, TileCoordsAsWritten(chain)).None?
    requires !lowerToCpu ==> AirRtMemcpy(d, TileCoordsAsWritten(chain)).None?
    ensures LowerItem(DmaItem(d, chain), lowerToCpu) == Kept(DmaItem(d, chain))
    ensures OutLegal(LowerItem(DmaItem(d, chain), lowerToCpu))
  {
  }
}
