/**
 * Lowering of an `air.launch_herd` into an affine loop nest
 * (AIRHerdLaunchConversion in AIRLoweringPass.cpp).
 *
 * The launch becomes an outer loop over [0, X) tagged "outer" holding an
 * inner loop over [0, Y) tagged "inner"; the block arguments of the launch
 * are replaced by the values they stand for, and the body (all but its
 * terminator) is spliced into the inner loop. The two loops' induction
 * variables are fresh values, passed in as `outerIv` and `innerIv`.
 */
module HerdLowering {
  import opened Ir
  import opened Coordinates

  /** What the source relies on: constant extents, a terminated body, one argument per kernel operand. */
  predicate Lowerable(h: Herd) {
    h.sizeX.ConstIndex? && h.sizeY.ConstIndex? && |h.body| > 0 &&
    |h.kernelArgs| == |h.kernelOperands|
  }

  /** The block arguments, in the order the source replaces their uses. */
  function Placeholders(h: Herd): seq<Value> {
    [h.sizeArgX, h.sizeArgY, h.tileX, h.tileY] + h.kernelArgs
  }

  /** What each block argument is replaced by, position for position. */
  function Replacements(h: Herd, outerIv: Value, innerIv: Value): seq<Value> {
    [h.sizeX, h.sizeY, outerIv, innerIv] + h.kernelOperands
  }

  /**
   * IR well-formedness the rewrite can count on: block arguments are
   * distinct SSA values, and neither the launch's operands nor the fresh
   * induction variables use any of them.
   */
  predicate DistinctPlaceholders(h: Herd, outerIv: Value, innerIv: Value) {
    DistinctArgs(Placeholders(h), Replacements(h, outerIv, innerIv))
  }

  predicate DistinctArgs(ps: seq<Value>, rs: seq<Value>) {
    |ps| == |rs| &&
    (forall j :: 0 <= j < |ps| ==> ps[j].Ssa?) &&
    (forall j, k :: 0 <= j < k < |ps| ==> ps[j] != ps[k]) &&
    (forall j, k :: 0 <= j < |ps| && 0 <= k < |rs| ==> !Occurs(ps[j], rs[k]))
  }

  /** The substitution made by the first `k` replaceAllUsesWith calls. */
  function PrefixMap(ps: seq<Value>, rs: seq<Value>, k: nat): map<Value, Value>
    requires k <= |ps| && |ps| == |rs|
    decreases k
  {
    if k == 0 then map[] else PrefixMap(ps, rs, k - 1)[ps[k - 1] := rs[k - 1]]
  }

  function PlaceholderMap(h: Herd, outerIv: Value, innerIv: Value): map<Value, Value>
    requires Lowerable(h)
  {
    PrefixMap(Placeholders(h), Replacements(h, outerIv, innerIv), |Placeholders(h)|)
  }

  /**
   * The loop nest holding a (substituted) launch body: the body's own
   * terminator gives way to the inner loop's.
   */
  function Nest(outerIv: Value, innerIv: Value, x: int, y: int, body: seq<Op>): Op
    requires |body| > 0
  {
    var inner := AffineFor(innerIv, 0, y, Some("inner"), body[..|body| - 1] + [Terminator]);
    AffineFor(outerIv, 0, x, Some("outer"), [inner, Terminator])
  }

  /** The ops that replace the launch, in order. */
  function LoweredHerd(h: Herd, outerIv: Value, innerIv: Value): (r: seq<Op>)
    requires Lowerable(h)
    ensures |r| == OuterPos(h) + 1
    ensures h.sym.Some? ==> r[0] == HerdLoad(h.sym.value)
    ensures r[OuterPos(h)].AffineFor? && r[OuterPos(h)].iv == outerIv && r[OuterPos(h)].ub == h.sizeX.c
  {
    var body := SubstOps(PlaceholderMap(h, outerIv, innerIv), h.body);
    (if h.sym.Some? then [HerdLoad(h.sym.value)] else []) + [Nest(outerIv, innerIv, h.sizeX.c, h.sizeY.c, body)]
  }

  /** Position of the outer loop among the replacing ops. */
  function OuterPos(h: Herd): nat {
    if h.sym.Some? then 1 else 0
  }

  method LowerHerdLaunch(h: Herd, outerIv: Value, innerIv: Value) returns (ops: seq<Op>)
    requires Lowerable(h) && DistinctPlaceholders(h, outerIv, innerIv)
    ensures ops == LoweredHerd(h, outerIv, innerIv)
  {
    ghost var ps := Placeholders(h);
    ghost var rs := Replacements(h, outerIv, innerIv);
    ops := [];
    if h.sym.Some? {
      ops := ops + [HerdLoad(h.sym.value)];
    }
    var x := h.sizeX.c;
    var y := h.sizeY.c;

    var body := h.body;
    SubstOpsEmpty(h.body);
    ReplaceStep(ps, rs, 0, h.body);
    body := ReplaceAllUses(body, h.sizeArgX, h.sizeX);
    ReplaceStep(ps, rs, 1, h.body);
    body := ReplaceAllUses(body, h.sizeArgY, h.sizeY);
    ReplaceStep(ps, rs, 2, h.body);
    body := ReplaceAllUses(body, h.tileX, outerIv);
    ReplaceStep(ps, rs, 3, h.body);
    body := ReplaceAllUses(body, h.tileY, innerIv);

    var i := 0;
    while i < |h.kernelArgs|
      invariant 0 <= i <= |h.kernelArgs|
      invariant body == SubstOps(PrefixMap(ps, rs, 4 + i), h.body)
    {
      assert ps[4 + i] == h.kernelArgs[i] && rs[4 + i] == h.kernelOperands[i];
      ReplaceStep(ps, rs, 4 + i, h.body);
      body := ReplaceAllUses(body, h.kernelArgs[i], h.kernelOperands[i]);
      i := i + 1;
    }

    var inner := AffineFor(innerIv, 0, y, Some("inner"), body[..|body| - 1] + [Terminator]);
    var outer := AffineFor(outerIv, 0, x, Some("outer"), [inner, Terminator]);
    assert outer == Nest(outerIv, innerIv, x, y, body);
    ops := ops + [outer];
  }

  /** Every entry of a prefix map is one of the pairs it was built from. */
  lemma {:induction false} PrefixMapEntries(ps: seq<Value>, rs: seq<Value>, k: nat)
    requires k <= |ps| && |ps| == |rs|
    ensures forall key :: key in PrefixMap(ps, rs, k) ==>
              exists j :: 0 <= j < k && key == ps[j] && PrefixMap(ps, rs, k)[key] == rs[j]
    decreases k
  {
    if k > 0 {
      PrefixMapEntries(ps, rs, k - 1);
      var m := PrefixMap(ps, rs, k);
      forall key | key in m
        ensures exists j :: 0 <= j < k && key == ps[j] && m[key] == rs[j]
      {
        if key == ps[k - 1] {
          assert m[key] == rs[k - 1];
        } else {
          var m0 := PrefixMap(ps, rs, k - 1);
          assert key in m0 && m[key] == m0[key];
        }
      }
    }
  }

  /** With distinct placeholders, the prefix map sends each of them to its replacement. */
  lemma {:induction false} PrefixMapLookup(ps: seq<Value>, rs: seq<Value>, k: nat)
    requires k <= |ps| && |ps| == |rs|
    requires forall j, l :: 0 <= j < l < |ps| ==> ps[j] != ps[l]
    ensures forall j :: 0 <= j < k ==> ps[j] in PrefixMap(ps, rs, k) && PrefixMap(ps, rs, k)[ps[j]] == rs[j]
    decreases k
  {
    if k > 0 {
      PrefixMapLookup(ps, rs, k - 1);
    }
  }

  /** One replaceAllUsesWith call extends the prefix map by one entry. */
  lemma ReplaceStep(ps: seq<Value>, rs: seq<Value>, k: nat, body: seq<Op>)
    requires DistinctArgs(ps, rs) && k < |ps|
    ensures ReplaceAllUses(SubstOps(PrefixMap(ps, rs, k), body), ps[k], rs[k])
            == SubstOps(PrefixMap(ps, rs, k + 1), body)
  {
    var m := PrefixMap(ps, rs, k);
    PrefixMapEntries(ps, rs, k);
    SubstOpsThenReplace(m, ps[k], rs[k], body);
  }

  /** Each block argument stands for its replacement in the lowered code. */
  lemma PlaceholdersReplaced(h: Herd, outerIv: Value, innerIv: Value)
    requires Lowerable(h) && DistinctPlaceholders(h, outerIv, innerIv)
    ensures var m := PlaceholderMap(h, outerIv, innerIv);
            && h.tileX in m && m[h.tileX] == outerIv && h.tileY in m && m[h.tileY] == innerIv
            && h.sizeArgX in m && m[h.sizeArgX] == h.sizeX && h.sizeArgY in m && m[h.sizeArgY] == h.sizeY
            && SubstValue(m, h.tileX) == outerIv && SubstValue(m, h.tileY) == innerIv
            && forall j :: 0 <= j < |h.kernelArgs| ==>
                 h.kernelArgs[j] in m && m[h.kernelArgs[j]] == h.kernelOperands[j]
  {
    var ps := Placeholders(h);
    assert ps[2].Ssa? && ps[3].Ssa?;
    PrefixMapLookup(ps, Replacements(h, outerIv, innerIv), |ps|);
    assert ps[0] == h.sizeArgX && ps[1] == h.sizeArgY && ps[2] == h.tileX && ps[3] == h.tileY;
    assert forall j :: 0 <= j < |h.kernelArgs| ==> ps[4 + j] == h.kernelArgs[j];
  }

  /**
   * The lowered code: a herd-load op exactly when the launch is named, then
   * the outer loop over [0, X) tagged "outer", whose body is the inner loop
   * over [0, Y) tagged "inner" followed by the loop terminator.
   */
  lemma LoweredNestShape(h: Herd, outerIv: Value, innerIv: Value)
    requires Lowerable(h)
    ensures var r := LoweredHerd(h, outerIv, innerIv);
            && |r| == OuterPos(h) + 1
            && (h.sym.Some? <==> r[0].HerdLoad?)
            && (h.sym.Some? ==> r[0] == HerdLoad(h.sym.value))
            && r[OuterPos(h)].AffineFor?
            && r[OuterPos(h)].iv == outerIv && r[OuterPos(h)].tag == Some("outer")
            && r[OuterPos(h)].lb == 0 && r[OuterPos(h)].ub == h.sizeX.c
            && |r[OuterPos(h)].body| == 2 && r[OuterPos(h)].body[1] == Terminator
            && r[OuterPos(h)].body[0].AffineFor?
            && r[OuterPos(h)].body[0].iv == innerIv && r[OuterPos(h)].body[0].tag == Some("inner")
            && r[OuterPos(h)].body[0].lb == 0 && r[OuterPos(h)].body[0].ub == h.sizeY.c
            && |r[OuterPos(h)].body[0].body| == |h.body|
  {
  }

  lemma {:induction false} PathHeadOnly(ops1: seq<Op>, ops2: seq<Op>, path: seq<nat>)
    requires |path| > 0 && path[0] < |ops1| && path[0] < |ops2| && ops1[path[0]] == ops2[path[0]]
    ensures AncestorsAt(ops1, path) == AncestorsAt(ops2, path)
    ensures OpAt(ops1, path) == OpAt(ops2, path)
  {
  }

  /**
   * Every op of the launch body other than its terminator is, after
   * lowering, at the same position inside the inner loop, with its uses
   * replaced, and enclosed by the ops that enclosed it in the launch and
   * then by the "inner" and "outer" loops.
   */
  lemma BodyMovesIntoInnerLoop(h: Herd, outerIv: Value, innerIv: Value, path: seq<nat>)
    requires Lowerable(h)
    requires |path| > 0 && path[0] < |h.body| - 1 && AncestorsAt(h.body, path).Some?
    ensures var r := LoweredHerd(h, outerIv, innerIv);
            var p := [OuterPos(h), 0] + path;
            && AncestorsAt(r, p) == Some(AncestorsAt(h.body, path).value +
                                         [ForAnc(innerIv, Some("inner")), ForAnc(outerIv, Some("outer"))])
            && OpAt(r, p) == (match OpAt(h.body, path)
                              case None => None
                              case Some(op) => Some(SubstOp(PlaceholderMap(h, outerIv, innerIv), op)))
  {
    var m := PlaceholderMap(h, outerIv, innerIv);
    var sb := SubstOps(m, h.body);
    var r := LoweredHerd(h, outerIv, innerIv);
    assert r[OuterPos(h)] == Nest(outerIv, innerIv, h.sizeX.c, h.sizeY.c, sb);
    SubstKeepsPaths(m, h.body, path);
    NestPaths(r, OuterPos(h), outerIv, innerIv, h.sizeX.c, h.sizeY.c, sb, path);
  }

  /** Paths into a nest: the body keeps its paths, below the two loops. */
  lemma NestPaths(r: seq<Op>, k: nat, outerIv: Value, innerIv: Value, x: int, y: int,
                  body: seq<Op>, path: seq<nat>)
    requires |body| > 0 && k < |r| && r[k] == Nest(outerIv, innerIv, x, y, body)
    requires |path| > 0 && path[0] < |body| - 1 && AncestorsAt(body, path).Some?
    ensures AncestorsAt(r, [k, 0] + path) == Some(AncestorsAt(body, path).value +
                                                  [ForAnc(innerIv, Some("inner")), ForAnc(outerIv, Some("outer"))])
    ensures OpAt(r, [k, 0] + path) == OpAt(body, path)
  {
    var ib := body[..|body| - 1] + [Terminator];
    var inner := AffineFor(innerIv, 0, y, Some("inner"), ib);
    var outer := AffineFor(outerIv, 0, x, Some("outer"), [inner, Terminator]);
    var a := AncestorsAt(body, path).value;
    assert ib[path[0]] == body[path[0]];
    PathHeadOnly(ib, body, path);
    assert AncestorsAt(inner.body, path) == Some(a);
    LoopLevel([inner, Terminator], 0, path);
    var a1 := a + [ForAnc(innerIv, Some("inner"))];
    assert AncestorsAt(outer.body, [0] + path) == Some(a1);
    assert r[k] == outer;
    LoopLevel(r, k, [0] + path);
    assert AncestorsAt(r, [k] + ([0] + path)) == Some(a1 + [ForAnc(outerIv, Some("outer"))]);
    assert [k, 0] + path == [k] + ([0] + path);
    assert a1 + [ForAnc(outerIv, Some("outer"))] == a + [ForAnc(innerIv, Some("inner")), ForAnc(outerIv, Some("outer"))];
  }

  /** A path entering the loop at position `i`. */
  lemma LoopLevel(ops: seq<Op>, i: nat, rest: seq<nat>)
    requires i < |ops| && ops[i].AffineFor? && |rest| > 0 && AncestorsAt(ops[i].body, rest).Some?
    ensures AncestorsAt(ops, [i] + rest) ==
            Some(AncestorsAt(ops[i].body, rest).value + [ForAnc(ops[i].iv, ops[i].tag)])
    ensures OpAt(ops, [i] + rest) == OpAt(ops[i].body, rest)
  {
    PathStep(ops, i, rest);
  }

  /** After lowering no op uses a block argument of the launch. */
  lemma NoPlaceholderUses(h: Herd, outerIv: Value, innerIv: Value, j: nat)
    requires Lowerable(h) && DistinctPlaceholders(h, outerIv, innerIv)
    requires j < |Placeholders(h)|
    ensures !OpsUse(LoweredHerd(h, outerIv, innerIv), Placeholders(h)[j])
  {
    var ps := Placeholders(h);
    var rs := Replacements(h, outerIv, innerIv);
    var a := ps[j];
    var m := PlaceholderMap(h, outerIv, innerIv);
    PrefixMapEntries(ps, rs, |ps|);
    PrefixMapLookup(ps, rs, |ps|);
    SubstOpsRemoves(m, a, h.body);
    var r := LoweredHerd(h, outerIv, innerIv);
    var sb := SubstOps(m, h.body);
    var outer := r[OuterPos(h)];
    var inner := outer.body[0];
    forall i | 0 <= i < |inner.body| ensures !OpUses(inner.body[i], a) {
      if i < |sb| - 1 { assert inner.body[i] == sb[i]; }
    }
    assert !OpUses(inner, a);
    assert !OpUses(Terminator, a);
    assert !OpUses(outer, a);
    forall i | 0 <= i < |r| ensures !OpUses(r[i], a) {
      if i < OuterPos(h) { assert r[i].HerdLoad?; }
    }
  }

  /**
   * A DMA copy inside the launch body reads the same coordinate whether it
   * is converted before the herd lowering (tile ids of the launch, whose
   * uses the lowering then replaces) or after it (the intended walk over
   * the tagged loops); `inside` are the ops between the copy and the
   * launch, `ctx` those around the launch.
   */
  lemma CoordinatesAgreeAcrossLowering(h: Herd, outerIv: Value, innerIv: Value,
                                       path: seq<nat>, ctx: seq<Ancestor>)
    requires Lowerable(h) && DistinctPlaceholders(h, outerIv, innerIv)
    requires |path| > 0 && path[0] < |h.body| - 1
    requires AncestorsAt(h.body, path).Some? && NoHerdContext(AncestorsAt(h.body, path).value)
    requires NoLaunch(ctx)
    ensures var inside := AncestorsAt(h.body, path).value;
            AncestorsAt(LoweredHerd(h, outerIv, innerIv), [OuterPos(h), 0] + path)
            == Some(inside + [ForAnc(innerIv, Some("inner")), ForAnc(outerIv, Some("outer"))])
    ensures var m := PlaceholderMap(h, outerIv, innerIv);
            var inside := AncestorsAt(h.body, path).value;
            var before := inside + [LaunchAnc(h.tileX, h.tileY)] + ctx;
            var after := inside + [ForAnc(innerIv, Some("inner")), ForAnc(outerIv, Some("outer"))] + ctx;
            && TileCoords(before) == Some((h.tileX, h.tileY))
            && TileCoords(after) == Some((SubstValue(m, h.tileX), SubstValue(m, h.tileY)))
            && TileCoords(after) == Some((outerIv, innerIv))
  {
    var inside := AncestorsAt(h.body, path).value;
    assert NoLaunch(inside);
    InsideLaunch(inside, h.tileX, h.tileY, ctx);
    BodyMovesIntoInnerLoop(h, outerIv, innerIv, path);
    PlaceholdersReplaced(h, outerIv, innerIv);
    LoweredNest(inside, innerIv, "inner", outerIv, "outer", ctx);
  }

  /**
   * The code as written disagrees: converted after the lowering, the copy
   * receives the pair transposed whenever the two induction variables differ.
   */
  lemma AsWrittenDisagreesAcrossLowering(h: Herd, outerIv: Value, innerIv: Value,
                                         path: seq<nat>, ctx: seq<Ancestor>)
    requires Lowerable(h) && DistinctPlaceholders(h, outerIv, innerIv) && outerIv != innerIv
    requires |path| > 0 && path[0] < |h.body| - 1
    requires AncestorsAt(h.body, path).Some? && NoHerdContext(AncestorsAt(h.body, path).value)
    requires NoLaunch(ctx)
    ensures var inside := AncestorsAt(h.body, path).value;
            AncestorsAt(LoweredHerd(h, outerIv, innerIv), [OuterPos(h), 0] + path)
            == Some(inside + [ForAnc(innerIv, Some("inner")), ForAnc(outerIv, Some("outer"))])
    ensures var m := PlaceholderMap(h, outerIv, innerIv);
            var inside := AncestorsAt(h.body, path).value;
            var before := inside + [LaunchAnc(h.tileX, h.tileY)] + ctx;
            var after := inside + [ForAnc(innerIv, Some("inner")), ForAnc(outerIv, Some("outer"))] + ctx;
            && TileCoordsAsWritten(before) == Some((h.tileX, h.tileY))
            && TileCoordsAsWritten(after) == Some((innerIv, outerIv))
            && TileCoordsAsWritten(after) != Some((SubstValue(m, h.tileX), SubstValue(m, h.tileY)))
  {
    var inside := AncestorsAt(h.body, path).value;
    InsideLaunch(inside, h.tileX, h.tileY, ctx);
    BodyMovesIntoInnerLoop(h, outerIv, innerIv, path);
    PlaceholdersReplaced(h, outerIv, innerIv);
    LoweredNest(inside, innerIv, "inner", outerIv, "outer", ctx);
  }
}
