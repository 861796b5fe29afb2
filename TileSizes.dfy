/**
 * The tile sizes, herd sizes and loop interchanges the codegen pass hands to
 * linalg's tiling patterns (AIRLinalgCodegen.cpp, runGenericPatterns,
 * runMatmulPatterns and runConv2dPatterns).
 *
 * Sizes are `int64_t` in the source; here they are unbounded integers, and a
 * dynamic dimension of a shaped type reads as -1.
 */
module TileSizes {
  import opened Ir

  // ---------------------------------------------------------------------
  // The herd-size option

  /** The herd size of the generic patterns before the option is applied. */
  const GenericHerdDefault: seq<int> := [2, 2]

  /** The herd size of the matmul patterns before the option is applied. */
  const MatmulHerdDefault: seq<int> := [2, 2, 2]

  /**
   * The herd size once the `herd-size` option has been applied as written:
   * entry i of the option overwrites entry i of the defaults, for every
   * entry of the option. An option longer than the defaults writes past the
   * end of the vector, which is undefined; that outcome is None.
   */
  function OverrideAsWritten(defaults: seq<int>, option: seq<nat>): (r: Option<seq<int>>)
    ensures r.None? <==> |option| > |defaults|
    ensures r.Some? ==>
              && |r.value| == |defaults|
              && (forall i :: 0 <= i < |option| ==> r.value[i] == option[i])
              && (forall i :: |option| <= i < |defaults| ==> r.value[i] == defaults[i])
  {
    if |option| > |defaults| then None else Some(option + defaults[|option|..])
  }

  /**
   * The herd size with the option applied to the entries the vector has:
   * each dimension takes the option's entry when there is one and keeps its
   * default otherwise; extra entries of the option are ignored.
   */
  function OverrideHerdSize(defaults: seq<int>, option: seq<nat>): (r: seq<int>)
    ensures |r| == |defaults|
  {
    seq(|defaults|, i requires 0 <= i < |defaults| => if i < |option| then option[i] else defaults[i])
  }

  /** The loop over the option entries, bounded by the vector's length. */
  method ApplyHerdSizeOption(herd: array<int>, option: seq<nat>)
    modifies herd
    ensures herd[..] == OverrideHerdSize(old(herd[..]), option)
  {
    var i := 0;
    while i < |option| && i < herd.Length
      invariant 0 <= i <= herd.Length && i <= |option|
      invariant forall k :: 0 <= k < i ==> herd[k] == option[k]
      invariant forall k :: i <= k < herd.Length ==> herd[k] == old(herd[k])
    {
      herd[i] := option[i];
      i := i + 1;
    }
  }

  /** Dimension i of the herd is the option's entry when present, else the default. */
  lemma OverrideHerdSizeEntries(defaults: seq<int>, option: seq<nat>, i: nat)
    requires i < |defaults|
    ensures OverrideHerdSize(defaults, option)[i] == if i < |option| then option[i] else defaults[i]
  {
  }

  /** Whenever the option fits, the corrected override is what the source computes. */
  lemma OverrideAgreesWhenFits(defaults: seq<int>, option: seq<nat>)
    requires |option| <= |defaults|
    ensures OverrideAsWritten(defaults, option) == Some(OverrideHerdSize(defaults, option))
  {
    var a := OverrideAsWritten(defaults, option).value;
    var b := OverrideHerdSize(defaults, option);
    assert forall i :: 0 <= i < |defaults| ==> a[i] == b[i];
    assert a == b;
  }

  /** A three-entry option, as a matmul herd needs, overruns the generic herd-size vector. */
  lemma GenericOverrunsOnMatmulOption()
    ensures OverrideAsWritten(GenericHerdDefault, [2, 2, 2]).None?
    ensures OverrideAsWritten(MatmulHerdDefault, [2, 2, 2]) == Some([2, 2, 2])
    ensures OverrideHerdSize(GenericHerdDefault, [4, 4, 4]) == [4, 4]
  {
    var g := OverrideHerdSize(GenericHerdDefault, [4, 4, 4]);
    assert g[0] == 4 && g[1] == 4;
    assert g == [4, 4];
    OverrideAgreesWhenFits(MatmulHerdDefault, [2, 2, 2]);
    var m := OverrideHerdSize(MatmulHerdDefault, [2, 2, 2]);
    assert m[0] == 2 && m[1] == 2 && m[2] == 2;
    assert m == [2, 2, 2];
  }

  /**
   * The matmul pipeline's copy of the loop has the same missing bound: a
   * fourth entry is written past its three-entry vector.
   */
  lemma MatmulOverrunsOnFourEntries()
    ensures OverrideAsWritten(MatmulHerdDefault, [4, 4, 4, 4]).None?
    ensures OverrideHerdSize(MatmulHerdDefault, [4, 4, 4, 4]) == [4, 4, 4]
  {
    var m := OverrideHerdSize(MatmulHerdDefault, [4, 4, 4, 4]);
    assert m[0] == 4 && m[1] == 4 && m[2] == 4;
  }

  /** Applying the option a second time changes nothing. */
  lemma OverrideIdempotent(defaults: seq<int>, option: seq<nat>)
    ensures OverrideHerdSize(OverrideHerdSize(defaults, option), option) == OverrideHerdSize(defaults, option)
  {
  }

  /** Without the option the defaults stand. */
  lemma OverrideEmpty(defaults: seq<int>)
    ensures OverrideHerdSize(defaults, []) == defaults
  {
  }

  // ---------------------------------------------------------------------
  // Tile sizes

  /** The generic op's outer tile sizes. */
  const GenericTile: seq<int> := [128, 128]

  /** The generic op's per-core tile sizes. */
  const GenericL1Tile: seq<int> := [32, 32]

  /** The matmul's per-core tile sizes. */
  const MatmulL1Tile: seq<int> := [32, 32, 32]

  /** The matmul's L2 tile: one L1 tile per core of the herd in every dimension. */
  function MatmulL2Tile(herd: seq<int>): (r: seq<int>)
    requires |herd| == 3
    ensures |r| == 3
  {
    [MatmulL1Tile[0] * herd[0], MatmulL1Tile[1] * herd[1], MatmulL1Tile[2] * herd[2]]
  }

  /**
   * Each dimension of the L2 tile is a whole number of L1 tiles, as many as
   * the herd has cores in that dimension.
   */
  lemma MatmulL2TileHoldsHerd(herd: seq<int>, i: nat)
    requires |herd| == 3 && i < 3
    ensures MatmulL2Tile(herd)[i] % MatmulL1Tile[i] == 0
    ensures MatmulL2Tile(herd)[i] / MatmulL1Tile[i] == herd[i]
  {
    var r := MatmulL2Tile(herd);
    assert r[i] == 32 * herd[i];
  }

  /** With the default herd the L2 tile is 64 in every dimension. */
  lemma MatmulL2TileDefault()
    ensures MatmulL2Tile(MatmulHerdDefault) == [64, 64, 64]
    ensures MatmulL2Tile(OverrideHerdSize(MatmulHerdDefault, [4])) == [128, 64, 64]
  {
  }

  /** C's `/` on `int64_t`: the quotient is truncated toward zero. */
  function TruncDiv(a: int, b: int): (r: int)
    requires b > 0
    ensures a >= 0 ==> 0 <= a - r * b < b
    ensures a < 0 ==> -b < a - r * b <= 0
  {
    if a >= 0 then a / b else -((-a) / b)
  }

  /** A quotient is unique once its remainder's sign and size are fixed. */
  lemma TruncDivUnique(a: int, b: int, q: int)
    requires b > 0
    requires a >= 0 ==> 0 <= a - q * b < b
    requires a < 0 ==> -b < a - q * b <= 0
    ensures q == TruncDiv(a, b)
  {
    var r := TruncDiv(a, b);
    assert (q - r) * b == q * b - r * b;
    OnlyZeroIsSmall(q - r, b);
  }

  /** A multiple of `b` strictly between `-b` and `b` is zero. */
  lemma OnlyZeroIsSmall(d: int, b: int)
    requires b > 0 && -b < d * b < b
    ensures d == 0
  {
  }

  /** The dimensions of a 2-d NCHW/FCHW convolution that the tile sizes read. */
  datatype Conv2dDims = Conv2dDims(ifmChannels: int, ifmHeight: int, ifmWidth: int,
                                   ofmChannels: int, kernelH: int, kernelW: int)

  /** The dims read from the input (n, c, h, w), weight (f, c, kh, kw) and result (n, f, h, w) shapes. */
  function DimsOf(input: seq<int>, weight: seq<int>, result: seq<int>): (d: Conv2dDims)
    requires |input| == 4 && |weight| == 4 && |result| == 4
    ensures d.ifmChannels == input[1] && d.ofmChannels == result[1]
    ensures d.ifmHeight == input[2] && d.ifmWidth == input[3]
    ensures d.kernelH == weight[2] && d.kernelW == weight[3]
  {
    Conv2dDims(input[1], input[2], input[3], result[1], weight[2], weight[3])
  }

  /** The batch tile: one image per herd. */
  const BatchHw: int := 1

  /** Stage one: the whole of the output channels, a quarter of the input rows. */
  function Conv2dStage1(d: Conv2dDims): (r: seq<int>)
    ensures |r| == 7 && r[0] == BatchHw && r[1] == d.ofmChannels
    ensures r[2] == TruncDiv(d.ifmHeight, 4)
    ensures r[3..] == [d.ifmWidth, d.kernelH, d.kernelW, d.ifmChannels]
  {
    [BatchHw, d.ofmChannels, TruncDiv(d.ifmHeight, 4), d.ifmWidth, d.kernelH, d.kernelW, d.ifmChannels]
  }

  /** Stage two: as stage one, with a quarter of the output channels. */
  function Conv2dStage2(d: Conv2dDims): (r: seq<int>)
    ensures r == Conv2dStage1(d)[1 := TruncDiv(d.ofmChannels, 4)]
  {
    [BatchHw, TruncDiv(d.ofmChannels, 4), TruncDiv(d.ifmHeight, 4), d.ifmWidth, d.kernelH, d.kernelW, d.ifmChannels]
  }

  /**
   * Stage two cuts stage one's tile along the output channels only, by a
   * factor of four: four stage-two tiles cover a stage-one tile up to the
   * remainder.
   */
  lemma Conv2dStage2SplitsChannels(d: Conv2dDims)
    requires d.ofmChannels >= 0
    ensures forall i :: 0 <= i < 7 && i != 1 ==> Conv2dStage2(d)[i] == Conv2dStage1(d)[i]
    ensures 0 <= Conv2dStage1(d)[1] - 4 * Conv2dStage2(d)[1] < 4
  {
  }

  /**
   * A dynamic input height (-1) gives a row tile of 0, which linalg reads as
   * "do not tile this loop"; floor division would have given -1.
   */
  lemma Conv2dDynamicHeight(d: Conv2dDims)
    requires d.ifmHeight == -1
    ensures Conv2dStage1(d)[2] == 0 && Conv2dStage2(d)[2] == 0
    ensures (-1) / 4 == -1
  {
  }

  // ---------------------------------------------------------------------
  // Interchanges

  /** The matmul's L2 tiling visits the loops (i, j, k) as (k, j, i). */
  const MatmulInterchange: seq<nat> := [2, 1, 0]

  /** Stage one of conv2d swaps the output-channel and input-row loops. */
  const Conv2dStage1Interchange: seq<nat> := [0, 2, 1, 3, 4, 5, 6]

  /** Stage two of conv2d swaps the batch and output-channel loops. */
  const Conv2dStage2Interchange: seq<nat> := [1, 0, 2, 3, 4, 5, 6]

  /** A permutation of 0 .. n-1. */
  predicate IsPermutation(p: seq<nat>, n: nat) {
    |p| == n &&
    (forall i :: 0 <= i < n ==> p[i] < n) &&
    (forall i, j :: 0 <= i < j < n ==> p[i] != p[j])
  }

  /** Each interchange is a permutation of the op's loops. */
  lemma InterchangesArePermutations()
    ensures IsPermutation(MatmulInterchange, 3)
    ensures IsPermutation(Conv2dStage1Interchange, 7)
    ensures IsPermutation(Conv2dStage2Interchange, 7)
  {
  }
}
