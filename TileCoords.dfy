/**
 * Recovering the (x, y) tile coordinate of a DMA copy from its enclosing ops
 * (AIRLoweringPass.cpp, the two identical blocks in convertDmaMemcpyToMemcpyFn
 * and convertDmaMemcpyToAirRt).
 *
 * Inside an unlowered herd launch the launch's tile ids are used. Otherwise
 * the copy walks outward to the nearest affine loop carrying an
 * `air.herd_launch` attribute and then on to the next one. The code as
 * written hands the nearest loop's induction variable over as x; since the
 * herd lowering puts tile x on the outer loop, that transposes the pair.
 * `TileCoordsAsWritten` is the code as written, and the conversions use it;
 * `TileCoords` is the intended coordinate, compared with it in the lemmas.
 */
module Coordinates {
  import opened Ir

  /** An affine loop carrying the `air.herd_launch` attribute, whatever its value. */
  predicate IsTaggedFor(a: Ancestor) {
    a.ForAnc? && a.tag.Some?
  }

  /** The nearest enclosing herd-launch loop at position `from` or further out. */
  function NearestTaggedFor(chain: seq<Ancestor>, from: nat): (r: Option<nat>)
    requires from <= |chain|
    ensures r.Some? ==> from <= r.value < |chain| && IsTaggedFor(chain[r.value])
    ensures r.Some? ==> forall j :: from <= j < r.value ==> !IsTaggedFor(chain[j])
    ensures r.None? ==> forall j :: from <= j < |chain| ==> !IsTaggedFor(chain[j])
    decreases |chain| - from
  {
    if from == |chain| then None
    else if IsTaggedFor(chain[from]) then Some(from)
    else NearestTaggedFor(chain, from + 1)
  }

  /** The tile ids of the nearest enclosing herd launch (getParentOfType<HerdLaunchOp>). */
  function EnclosingLaunch(chain: seq<Ancestor>): (r: Option<(Value, Value)>)
    ensures r.None? <==> forall j :: 0 <= j < |chain| ==> !chain[j].LaunchAnc?
    ensures r.Some? ==> exists j :: 0 <= j < |chain| && chain[j] == LaunchAnc(r.value.0, r.value.1)
  {
    if |chain| == 0 then None
    else if chain[0].LaunchAnc? then Some((chain[0].tileX, chain[0].tileY))
    else
      var r := EnclosingLaunch(chain[1..]);
      assert forall j :: 1 <= j < |chain| ==> chain[j] == chain[1..][j - 1];
      r
  }

  /** i and j are the nearest and the next nearest herd-launch loops of the chain. */
  predicate TwoNearestTagged(chain: seq<Ancestor>, i: int, j: int) {
    && 0 <= i < j < |chain| && IsTaggedFor(chain[i]) && IsTaggedFor(chain[j])
    && (forall k :: 0 <= k < j && k != i ==> !IsTaggedFor(chain[k]))
  }

  /** The pair the conversions push: nearest tagged loop first. */
  function TileCoordsAsWritten(chain: seq<Ancestor>): (r: Option<(Value, Value)>)
    ensures EnclosingLaunch(chain).Some? ==> r == EnclosingLaunch(chain)
    ensures forall i, j :: EnclosingLaunch(chain).None? && TwoNearestTagged(chain, i, j) ==>
              r == Some((chain[i].iv, chain[j].iv))
    ensures r.None? <==> EnclosingLaunch(chain).None? && forall i, j :: !TwoNearestTagged(chain, i, j)
  {
    TwoNearestTaggedSearch(chain);
    match EnclosingLaunch(chain)
    case Some(ids) => Some(ids)
    case None =>
      match NearestTaggedFor(chain, 0)
      case None => None
      case Some(i) =>
        match NearestTaggedFor(chain, i + 1)
        case None => None
        case Some(j) => Some((chain[i].iv, chain[j].iv))
  }

  /** The intended pair: x from the outer ("outer") loop, y from the inner ("inner") one. */
  function TileCoords(chain: seq<Ancestor>): (r: Option<(Value, Value)>)
    ensures EnclosingLaunch(chain).Some? ==> r == EnclosingLaunch(chain)
    ensures forall i, j :: EnclosingLaunch(chain).None? && TwoNearestTagged(chain, i, j) ==>
              r == Some((chain[j].iv, chain[i].iv))
    ensures r.None? <==> EnclosingLaunch(chain).None? && forall i, j :: !TwoNearestTagged(chain, i, j)
  {
    TwoNearestTaggedSearch(chain);
    match EnclosingLaunch(chain)
    case Some(ids) => Some(ids)
    case None =>
      match NearestTaggedFor(chain, 0)
      case None => None
      case Some(i) =>
        match NearestTaggedFor(chain, i + 1)
        case None => None
        case Some(j) => Some((chain[j].iv, chain[i].iv))
  }

  /** The two outward searches find exactly the two nearest herd-launch loops. */
  lemma TwoNearestTaggedSearch(chain: seq<Ancestor>)
    ensures forall i, j :: TwoNearestTagged(chain, i, j) ==>
              NearestTaggedFor(chain, 0) == Some(i) && NearestTaggedFor(chain, i + 1) == Some(j)
    ensures forall i :: NearestTaggedFor(chain, 0) == Some(i) && NearestTaggedFor(chain, i + 1).Some? ==>
              TwoNearestTagged(chain, i, NearestTaggedFor(chain, i + 1).value)
  {
  }

  /** The outward walk `while (afo && !afo->getAttr("air.herd_launch")) afo = parent`. */
  method FindTaggedLoop(chain: seq<Ancestor>, from: nat) returns (k: Option<nat>)
    requires from <= |chain|
    ensures k == NearestTaggedFor(chain, from)
  {
    var i := from;
    while i < |chain| && !IsTaggedFor(chain[i])
      invariant from <= i <= |chain|
      invariant NearestTaggedFor(chain, i) == NearestTaggedFor(chain, from)
      decreases |chain| - i
    {
      i := i + 1;
    }
    k := if i < |chain| then Some(i) else None;
  }

  /** Coordinate recovery as both conversions perform it: nearest tagged loop first. */
  method RecoverTileCoords(chain: seq<Ancestor>) returns (r: Option<(Value, Value)>)
    ensures r == TileCoordsAsWritten(chain)
  {
    var launch := EnclosingLaunch(chain);
    if launch.Some? {
      return launch;
    }
    var first := FindTaggedLoop(chain, 0);
    if first.None? {
      return None;
    }
    var second := FindTaggedLoop(chain, first.value + 1);
    if second.None? {
      return None;
    }
    r := Some((chain[first.value].iv, chain[second.value].iv));
  }

  /** No herd launch and no tagged loop among these ancestors. */
  predicate NoHerdContext(chain: seq<Ancestor>) {
    forall j :: 0 <= j < |chain| ==> !chain[j].LaunchAnc? && !IsTaggedFor(chain[j])
  }

  predicate NoLaunch(chain: seq<Ancestor>) {
    forall j :: 0 <= j < |chain| ==> !chain[j].LaunchAnc?
  }

  /** Inside a launch, both versions read the launch's tile ids. */
  lemma InsideLaunch(inner: seq<Ancestor>, x: Value, y: Value, outer: seq<Ancestor>)
    requires NoLaunch(inner)
    ensures TileCoords(inner + [LaunchAnc(x, y)] + outer) == Some((x, y))
    ensures TileCoordsAsWritten(inner + [LaunchAnc(x, y)] + outer) == Some((x, y))
  {
    var chain := inner + [LaunchAnc(x, y)] + outer;
    EnclosingLaunchPrefix(inner, LaunchAnc(x, y), outer);
  }

  lemma {:induction false} EnclosingLaunchPrefix(inner: seq<Ancestor>, l: Ancestor, outer: seq<Ancestor>)
    requires NoLaunch(inner) && l.LaunchAnc?
    ensures EnclosingLaunch(inner + [l] + outer) == Some((l.tileX, l.tileY))
    decreases |inner|
  {
    var chain := inner + [l] + outer;
    if |inner| == 0 {
      assert chain[0] == l;
    } else {
      assert chain[1..] == inner[1..] + [l] + outer;
      EnclosingLaunchPrefix(inner[1..], l, outer);
    }
  }

  /**
   * Below a lowered herd (a loop nest tagged "outer" then "inner"), with no
   * other herd context in between, the intended coordinate is (outer
   * induction variable, inner induction variable); the code as written
   * yields the transposed pair.
   */
  lemma LoweredNest(inside: seq<Ancestor>, innerIv: Value, t1: string,
                    outerIv: Value, t2: string, ctx: seq<Ancestor>)
    requires NoHerdContext(inside) && NoLaunch(ctx)
    ensures TileCoords(inside + [ForAnc(innerIv, Some(t1)), ForAnc(outerIv, Some(t2))] + ctx)
            == Some((outerIv, innerIv))
    ensures TileCoordsAsWritten(inside + [ForAnc(innerIv, Some(t1)), ForAnc(outerIv, Some(t2))] + ctx)
            == Some((innerIv, outerIv))
  {
    var chain := inside + [ForAnc(innerIv, Some(t1)), ForAnc(outerIv, Some(t2))] + ctx;
    var n := |inside|;
    assert chain[n] == ForAnc(innerIv, Some(t1));
    assert chain[n + 1] == ForAnc(outerIv, Some(t2));
    forall j | 0 <= j < |chain| ensures !chain[j].LaunchAnc? {
      if j < n { assert chain[j] == inside[j]; }
      else if j >= n + 2 { assert chain[j] == ctx[j - n - 2]; }
    }
    forall j | 0 <= j < n ensures !IsTaggedFor(chain[j]) {
      assert chain[j] == inside[j];
    }
    var i := NearestTaggedFor(chain, 0);
    assert i == Some(n);
    assert NearestTaggedFor(chain, n + 1) == Some(n + 1);
  }

  /** Changing the value of a loop's `air.herd_launch` attribute. */
  function Retag(chain: seq<Ancestor>, k: nat, t: string): seq<Ancestor>
    requires k < |chain| && IsTaggedFor(chain[k])
  {
    chain[k := ForAnc(chain[k].iv, Some(t))]
  }

  /** Only the presence of the attribute is tested, never its value. */
  lemma {:induction false} TagValueIgnoredSearch(chain: seq<Ancestor>, k: nat, t: string, from: nat)
    requires k < |chain| && IsTaggedFor(chain[k]) && from <= |chain|
    ensures NearestTaggedFor(Retag(chain, k, t), from) == NearestTaggedFor(chain, from)
    decreases |chain| - from
  {
    var c := Retag(chain, k, t);
    if from < |chain| {
      assert IsTaggedFor(c[from]) == IsTaggedFor(chain[from]);
      TagValueIgnoredSearch(chain, k, t, from + 1);
    }
  }

  lemma TagValueIgnored(chain: seq<Ancestor>, k: nat, t: string)
    requires k < |chain| && IsTaggedFor(chain[k])
    ensures TileCoords(Retag(chain, k, t)) == TileCoords(chain)
    ensures TileCoordsAsWritten(Retag(chain, k, t)) == TileCoordsAsWritten(chain)
  {
    var c := Retag(chain, k, t);
    TagValueIgnoredSearch(chain, k, t, 0);
    assert forall j :: 0 <= j < |chain| ==> c[j].LaunchAnc? == chain[j].LaunchAnc?;
    assert forall j :: 0 <= j < |chain| && chain[j].LaunchAnc? ==> c[j] == chain[j];
    EnclosingLaunchSame(c, chain);
    match NearestTaggedFor(chain, 0)
    case None =>
    case Some(i) =>
      TagValueIgnoredSearch(chain, k, t, i + 1);
  }

  lemma {:induction false} EnclosingLaunchSame(c: seq<Ancestor>, d: seq<Ancestor>)
    requires |c| == |d|
    requires forall j :: 0 <= j < |c| ==> c[j].LaunchAnc? == d[j].LaunchAnc?
    requires forall j :: 0 <= j < |c| && d[j].LaunchAnc? ==> c[j] == d[j]
    ensures EnclosingLaunch(c) == EnclosingLaunch(d)
    decreases |c|
  {
    if |c| > 0 && !c[0].LaunchAnc? {
      EnclosingLaunchSame(c[1..], d[1..]);
    }
  }

  /** The two versions differ exactly by the order of the pair when the loops are used. */
  lemma AsWrittenTransposed(chain: seq<Ancestor>)
    requires EnclosingLaunch(chain).None?
    ensures TileCoords(chain).Some? <==> TileCoordsAsWritten(chain).Some?
    ensures TileCoords(chain).Some? ==>
            TileCoordsAsWritten(chain).value == (TileCoords(chain).value.1, TileCoords(chain).value.0)
  {
  }
}
