/**
 * Lowering of the AIR DMA copies (AIRLoweringPass.cpp,
 * convertDmaMemcpyToMemcpyFn and convertDmaMemcpyToAirRt).
 *
 * For CPU emulation a copy becomes a call to `air_memcpy`, `air_memcpy2d`
 * or `air_memcpy4d` taking an i32 id, the tile coordinate and the copy's
 * operands. For the runtime a copy between tile memory (L1) and L2/L3
 * becomes an AIR-RT copy: the same list, minus the tile-side buffer and its
 * offsets, with every index-typed operand cast to i64.
 *
 * The operand layout the lemmas assume for a copy with `n` dimensions is
 * (destination, source, n destination offsets, n source offsets, rest).
 */
module DmaLowering {
  import opened Ir
  import opened Coordinates

  datatype Direction = FromTile | ToTile

  /** What a copy lowers to: an AIR-RT copy of the same rank, or a call. */
  datatype Lowered =
    | RtDma(kind: DmaKind, operands: seq<Value>)
    | Call(callee: string, operands: seq<Value>)

  /** The copy's direction relative to tile memory; None for any other pair of spaces. */
  function Classify(srcSpace: int, dstSpace: int): (r: Option<Direction>)
    ensures r == Some(FromTile) <==> srcSpace == L1 && (dstSpace == L3 || dstSpace == L2)
    ensures r == Some(ToTile) <==> dstSpace == L1 && (srcSpace == L3 || srcSpace == L2)
  {
    if srcSpace == L1 && dstSpace == L3 then Some(FromTile)
    else if dstSpace == L1 && srcSpace == L3 then Some(ToTile)
    else if srcSpace == L1 && dstSpace == L2 then Some(FromTile)
    else if dstSpace == L1 && srcSpace == L2 then Some(ToTile)
    else None
  }

  /** The i32 constant holding the copy's "id" attribute, 0 when absent. */
  function IdConstant(id: Option<int>): (r: Value)
    ensures TypeOf(r) == Integer(32)
    ensures r.ConstInt? && (id.Some? ==> r.c == id.value) && (id.None? ==> r.c == 0)
  {
    ConstInt(if id.Some? then id.value else 0, 32)
  }

  /** `v.erase(v.begin() + i)` */
  function Erase(s: seq<Value>, i: nat): (r: seq<Value>)
    requires i < |s|
    ensures |r| == |s| - 1
    ensures forall j :: 0 <= j < i ==> r[j] == s[j]
    ensures forall j :: i <= j < |r| ==> r[j] == s[j + 1]
  {
    s[..i] + s[i + 1..]
  }

  /** The number of entries the erase loops need, in the list headed by id, x, y. */
  function MinLength(dir: Direction, n: nat): nat {
    if dir == FromTile then 2 * n + 5 else n + 5
  }

  /** The list the runtime receives, before widening. */
  function Dropped(opers: seq<Value>, dir: Direction, n: nat): (r: seq<Value>)
    requires |opers| >= MinLength(dir, n)
    ensures |r| == |opers| - (n + 1)
    ensures r[..3] == opers[..3]
    ensures dir == FromTile ==> r[3] == opers[3] && r[4 + n..] == opers[2 * n + 5..]
    ensures dir == ToTile ==> r[3] == opers[4] && r[4..] == opers[n + 5..]
  {
    match dir
    case FromTile => opers[..4] + opers[5..n + 5] + opers[2 * n + 5..]
    case ToTile => opers[..3] + [opers[4]] + opers[n + 5..]
  }

  /** The erase loops of convertDmaMemcpyToAirRt. */
  method DropTileOperands(opers: seq<Value>, dir: Direction, n: nat) returns (r: seq<Value>)
    requires |opers| >= MinLength(dir, n)
    ensures r == Dropped(opers, dir, n)
  {
    r := opers;
    if dir == FromTile {
      r := Erase(r, 4);
      var d := 0;
      while d < n
        invariant 0 <= d <= n
        invariant r == opers[..4] + opers[5..n + 5] + opers[n + 5 + d..]
      {
        r := Erase(r, n + 4);
        d := d + 1;
      }
    } else {
      r := Erase(r, 3);
      var d := 0;
      while d < n
        invariant 0 <= d <= n
        invariant r == opers[..3] + [opers[4]] + opers[5 + d..]
      {
        r := Erase(r, 4);
        d := d + 1;
      }
    }
  }

  /** An index-typed value cast to i64; other values unchanged. */
  function Widen(v: Value): (r: Value)
    ensures TypeOf(r) != Index
    ensures TypeOf(v) != Index ==> r == v
    ensures forall env :: Eval(r, env) == Eval(v, env)
  {
    if TypeOf(v) == Index then IndexCast(v, 64) else v
  }

  function Widened(vs: seq<Value>): (r: seq<Value>)
    ensures |r| == |vs|
    ensures forall i :: 0 <= i < |vs| ==> r[i] == Widen(vs[i])
  {
    seq(|vs|, i requires 0 <= i < |vs| => Widen(vs[i]))
  }

  /** The index_cast loop: each index operand is replaced in place. */
  method WidenIndexOperands(opers: seq<Value>) returns (r: seq<Value>)
    ensures r == Widened(opers)
  {
    r := opers;
    var i := 0;
    while i < |r|
      invariant 0 <= i <= |r| == |opers|
      invariant forall j :: 0 <= j < i ==> r[j] == Widen(opers[j])
      invariant forall j :: i <= j < |r| ==> r[j] == opers[j]
    {
      if TypeOf(r[i]) == Index {
        r := r[i := IndexCast(r[i], 64)];
      }
      i := i + 1;
    }
  }

  /** What the IR verifier guarantees of a copy: both buffers and both offset lists. */
  predicate WellFormed(d: DmaOp) {
    |d.operands| >= 2 + 2 * NumDims(d.kind)
  }

  /**
   * The AIR-RT copy a DMA copy lowers to, given the tile coordinate recovered
   * for it (None when none was found).
   */
  function AirRtMemcpy(d: DmaOp, coords: Option<(Value, Value)>): (r: Option<Lowered>)
    requires WellFormed(d)
    ensures r.None? <==> Classify(d.srcSpace, d.dstSpace).None? || coords.None?
    ensures r.Some? ==> r.value.RtDma? && r.value.kind == d.kind
    ensures r.Some? ==> |r.value.operands| == |d.operands| + 3 - (NumDims(d.kind) + 1)
    ensures r.Some? ==> forall i :: 0 <= i < |r.value.operands| ==> TypeOf(r.value.operands[i]) != Index
  {
    match Classify(d.srcSpace, d.dstSpace)
    case None => None
    case Some(dir) =>
      match coords
      case None => None
      case Some(xy) =>
        var opers := [IdConstant(d.id), xy.0, xy.1] + d.operands;
        Some(RtDma(d.kind, Widened(Dropped(opers, dir, NumDims(d.kind)))))
  }

  /** The call a DMA copy lowers to for CPU emulation, given its recovered tile coordinate. */
  function MemcpyFnCall(d: DmaOp, coords: Option<(Value, Value)>): (r: Option<Lowered>)
    ensures r.None? <==> coords.None?
    ensures r.Some? ==> r.value.Call? && |r.value.operands| == |d.operands| + 3
    ensures r.Some? ==> r.value.operands[3..] == d.operands && TypeOf(r.value.operands[0]) == Integer(32)
    ensures r.Some? ==> (r.value.operands[1], r.value.operands[2]) == coords.value
  {
    match coords
    case None => None
    case Some(xy) => Some(Call(FnName(d.kind), [IdConstant(d.id), xy.0, xy.1] + d.operands))
  }

  /** The callee each copy pattern passes. */
  function FnName(k: DmaKind): string {
    match k
    case Memcpy1d => "air_memcpy"
    case Memcpy2d => "air_memcpy2d"
    case Memcpy4d => "air_memcpy4d"
  }

  /** Appends the copy's operands one at a time. */
  method PushOperands(opers: seq<Value>, operands: seq<Value>) returns (r: seq<Value>)
    ensures r == opers + operands
  {
    r := opers;
    var i := 0;
    while i < |operands|
      invariant 0 <= i <= |operands|
      invariant r == opers + operands[..i]
    {
      r := r + [operands[i]];
      i := i + 1;
    }
    assert operands[..i] == operands;
  }

  /**
   * The AIR-RT op created for a copy of `n` dimensions: there is one for
   * one, two and four dimensions and none otherwise.
   */
  function RtOpFor(n: nat): (r: Option<DmaKind>)
    ensures r.Some? <==> n == 1 || n == 2 || n == 4
    ensures r.Some? ==> NumDims(r.value) == n
  {
    if n == 1 then Some(Memcpy1d)
    else if n == 2 then Some(Memcpy2d)
    else if n == 4 then Some(Memcpy4d)
    else None
  }

  /** Selecting the AIR-RT op by dimension count gives back the copy's own kind. */
  lemma RtOpForKind(k: DmaKind)
    ensures RtOpFor(NumDims(k)) == Some(k)
  {
    match k
    case Memcpy1d =>
    case Memcpy2d =>
    case Memcpy4d =>
  }

  method ConvertDmaMemcpyToAirRt(d: DmaOp, chain: seq<Ancestor>) returns (r: Option<Lowered>)
    requires WellFormed(d)
    ensures r == AirRtMemcpy(d, TileCoordsAsWritten(chain))
  {
    var dir: Direction;
    if d.srcSpace == L1 && d.dstSpace == L3 {
      dir := FromTile;
    } else if d.dstSpace == L1 && d.srcSpace == L3 {
      dir := ToTile;
    } else if d.srcSpace == L1 && d.dstSpace == L2 {
      dir := FromTile;
    } else if d.dstSpace == L1 && d.srcSpace == L2 {
      dir := ToTile;
    } else {
      return None;
    }
    var opers := [IdConstant(d.id)];
    var xy := RecoverTileCoords(chain);
    if xy.None? {
      return None;
    }
    opers := opers + [xy.value.0, xy.value.1];
    assert opers == [IdConstant(d.id), xy.value.0, xy.value.1];
    opers := PushOperands(opers, d.operands);
    opers := DropTileOperands(opers, dir, NumDims(d.kind));
    opers := WidenIndexOperands(opers);
    RtOpForKind(d.kind);
    var k := RtOpFor(NumDims(d.kind));
    r := Some(RtDma(k.value, opers));
  }

  method ConvertDmaMemcpyToMemcpyFn(d: DmaOp, chain: seq<Ancestor>) returns (r: Option<Lowered>)
    ensures r == MemcpyFnCall(d, TileCoordsAsWritten(chain))
  {
    var callops := [IdConstant(d.id)];
    var xy := RecoverTileCoords(chain);
    if xy.None? {
      return None;
    }
    callops := callops + [xy.value.0, xy.value.1];
    assert callops == [IdConstant(d.id), xy.value.0, xy.value.1];
    callops := PushOperands(callops, d.operands);
    r := Some(Call(FnName(d.kind), callops));
  }

  // ---------------------------------------------------------------------
  // Properties

  /** Swapping source and destination reverses the direction. */
  lemma ClassifySwap(s: int, t: int)
    ensures Classify(s, t) == Some(FromTile) <==> Classify(t, s) == Some(ToTile)
    ensures Classify(s, t).None? <==> Classify(t, s).None?
  {
  }

  /**
   * The operands that survive: the buffer outside tile memory and its
   * offsets, then everything after the two offset lists.
   */
  lemma {:induction false} DroppedKeepsExternalSide(hd: seq<Value>, dst: Value, src: Value,
                                                    dOff: seq<Value>, sOff: seq<Value>,
                                                    rest: seq<Value>, dir: Direction)
    requires |hd| == 3 && |dOff| == |sOff|
    ensures var opers := hd + [dst, src] + dOff + sOff + rest;
            var n := |dOff|;
            |opers| >= MinLength(dir, n) &&
            Dropped(opers, dir, n) ==
              (if dir == FromTile then hd + [dst] + dOff + rest else hd + [src] + sOff + rest)
  {
    var opers := hd + [dst, src] + dOff + sOff + rest;
    var n := |dOff|;
    assert opers[..3] == hd;
    assert opers[3] == dst && opers[4] == src;
    assert opers[5..n + 5] == dOff;
    assert opers[n + 5..2 * n + 5] == sOff;
    assert opers[2 * n + 5..] == rest;
    assert opers[n + 5..] == sOff + rest;
    assert opers[..4] == hd + [dst];
    assert opers[..3] + [opers[4]] == hd + [src];
  }

  /**
   * The two lowerings agree: the runtime copy's operands are the CPU call's
   * operands with the tile-side ones dropped and index values widened, and
   * both carry the id first, then the coordinate.
   */
  lemma CpuAndRuntimeAgree(d: DmaOp, coords: Option<(Value, Value)>)
    requires WellFormed(d) && AirRtMemcpy(d, coords).Some?
    ensures MemcpyFnCall(d, coords).Some?
    ensures var call := MemcpyFnCall(d, coords).value;
            var dir := Classify(d.srcSpace, d.dstSpace).value;
            && call.callee == FnName(d.kind)
            && |call.operands| >= MinLength(dir, NumDims(d.kind))
            && AirRtMemcpy(d, coords).value.operands == Widened(Dropped(call.operands, dir, NumDims(d.kind)))
  {
  }

  /**
   * Converted after the herd lowering, a copy with no other herd context
   * below the nest receives (inner, outer) induction variable as its
   * coordinate from the code as written, where the intended coordinate,
   * tile x on the outer loop, gives (outer, inner).
   */
  lemma CallCoordinatesInLoweredNest(d: DmaOp, inside: seq<Ancestor>, innerIv: Value, outerIv: Value,
                                     ctx: seq<Ancestor>)
    requires NoHerdContext(inside) && NoLaunch(ctx)
    ensures var chain := inside + [ForAnc(innerIv, Some("inner")), ForAnc(outerIv, Some("outer"))] + ctx;
            MemcpyFnCall(d, TileCoordsAsWritten(chain))
              == Some(Call(FnName(d.kind), [IdConstant(d.id), innerIv, outerIv] + d.operands))
    ensures var chain := inside + [ForAnc(innerIv, Some("inner")), ForAnc(outerIv, Some("outer"))] + ctx;
            MemcpyFnCall(d, TileCoords(chain))
              == Some(Call(FnName(d.kind), [IdConstant(d.id), outerIv, innerIv] + d.operands))
  {
    LoweredNest(inside, innerIv, "inner", outerIv, "outer", ctx);
  }

  /** No operand of a runtime copy is index-typed, and each keeps its integer meaning. */
  lemma RuntimeOperandsWidened(d: DmaOp, coords: Option<(Value, Value)>, env: Value -> int)
    requires WellFormed(d) && AirRtMemcpy(d, coords).Some?
    ensures var ops := AirRtMemcpy(d, coords).value.operands;
            var dir := Classify(d.srcSpace, d.dstSpace).value;
            var opers := MemcpyFnCall(d, coords).value.operands;
            forall i :: 0 <= i < |ops| ==>
              TypeOf(ops[i]) != Index && Eval(ops[i], env) == Eval(Dropped(opers, dir, NumDims(d.kind))[i], env)
  {
    CpuAndRuntimeAgree(d, coords);
  }
}
