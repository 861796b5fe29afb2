/**
 * The AIR linalg codegen pass as a whole (AIRLinalgCodegen.cpp,
 * AIRLinalgCodegen): which patterns each stage registers, how the
 * transformation filters chain the tiling and promotion patterns of each
 * linalg op class through their markers, and in which order runOnFunction
 * runs the phases.
 *
 * The tiling and promotion engines, the greedy rewrite driver, the outliner
 * and the inliner are MLIR library code; a linalg op is followed here through
 * its marker, and each pattern applied to it is recorded as a transform.
 */
module CodegenPass {
  import opened Ir
  import opened TileSizes
  import CodegenPatterns

  /** The `__internal_linalg_transform__` markers the filters read and write. */
  datatype Marker =
    | TagL1 | TagL2 | TagHerd | TagPromote | TagL1Promoted | TagL2Promoted
    | TagXtenConv2d | TagPromoteL2 | TagPromoteHerd

  datatype LinalgKind = GenericKind | MatmulKind | Conv2dKind | OtherLinalgKind

  datatype LoopType = Loops | ParallelLoops

  /** What a linalg pattern does to the op it matches. */
  datatype Transform =
    | Tile(sizes: seq<int>, interchange: seq<nat>, loops: LoopType)
    /** Promotes the listed operands; the empty list stands for the default, all of them. */
    | PromoteOperands(operands: seq<nat>)

  /** A linalg tiling or promotion pattern with its transformation filter. */
  datatype Rule = Rule(kind: LinalgKind, transform: Transform, matches: seq<Marker>, replacement: Marker)

  /** A pattern other than linalg's tiling and promotion patterns. */
  datatype Pattern =
    | RemoveSubView(fastSpace: nat)
    | FoldSubView
    | Memrefs
    | AllocCopy
    | ForLoopCanonicalization
    | TilingCanonicalization

  /** One greedy rewrite run: the linalg rules and the other patterns it registers. */
  datatype Stage = Stage(rules: seq<Rule>, patterns: seq<Pattern>)

  /**
   * A filter with no markers to match accepts only an op without a marker;
   * otherwise the op's marker must be one of them.
   */
  predicate FilterMatches(matches: seq<Marker>, m: Option<Marker>)
    ensures m.None? ==> (FilterMatches(matches, m) <==> |matches| == 0)
    ensures m.Some? ==> (FilterMatches(matches, m) <==> m.value in matches)
  {
    if |matches| == 0 then m.None? else m.Some? && m.value in matches
  }

  /** A rule rewrites an op of its own kind whose marker its filter accepts. */
  predicate Applies(r: Rule, kind: LinalgKind, m: Option<Marker>)
    ensures Applies(r, kind, m) ==> r.kind == kind && (m.Some? <==> |r.matches| > 0)
    ensures m.Some? ==> (Applies(r, kind, m) <==> r.kind == kind && m.value in r.matches)
  {
    r.kind == kind && FilterMatches(r.matches, m)
  }

  /** The first rule that matches an op of kind `kind` carrying marker `m`. */
  function FirstApplicable(rules: seq<Rule>, kind: LinalgKind, m: Option<Marker>): (r: Option<nat>)
    ensures r.None? <==> forall i :: 0 <= i < |rules| ==> !Applies(rules[i], kind, m)
    ensures r.Some? ==>
              && r.value < |rules|
              && Applies(rules[r.value], kind, m)
              && forall j :: 0 <= j < r.value ==> !Applies(rules[j], kind, m)
  {
    if |rules| == 0 then None
    else if Applies(rules[0], kind, m) then Some(0)
    else
      var t := FirstApplicable(rules[1..], kind, m);
      assert forall i :: 1 <= i < |rules| ==> rules[i] == rules[1..][i - 1];
      if t.None? then None else Some(t.value + 1)
  }

  /** No marker state satisfies both filters. */
  predicate FiltersDisjoint(a: seq<Marker>, b: seq<Marker>) {
    (|a| > 0 || |b| > 0) && forall x :: x in a ==> x !in b
  }

  /** Any two rules for the same kind of op have disjoint filters. */
  predicate DisjointRules(rules: seq<Rule>) {
    forall i, j :: 0 <= i < j < |rules| && rules[i].kind == rules[j].kind ==>
      FiltersDisjoint(rules[i].matches, rules[j].matches)
  }

  /**
   * Where the filters are disjoint, the one rule that applies is the one
   * the driver picks, whatever the order the patterns were registered in.
   */
  lemma UniqueApplicable(rules: seq<Rule>, kind: LinalgKind, m: Option<Marker>, i: nat)
    requires DisjointRules(rules) && i < |rules| && Applies(rules[i], kind, m)
    ensures FirstApplicable(rules, kind, m) == Some(i)
  {
  }

  /** The transforms applied to one op, the marker it ends with, and whether no rule matches that marker. */
  datatype Trace = Trace(applied: seq<Transform>, final: Option<Marker>, settled: bool)

  /**
   * The greedy driver on one op: apply the matching rule, move to its
   * replacement marker, and go on until no rule matches, at most `fuel`
   * times.
   */
  function Drive(rules: seq<Rule>, kind: LinalgKind, m: Option<Marker>, fuel: nat): (t: Trace)
    ensures |t.applied| <= fuel
    ensures t.settled <==> FirstApplicable(rules, kind, t.final).None?
    ensures |t.applied| == 0 ==> t.final == m
    decreases fuel
  {
    var f := FirstApplicable(rules, kind, m);
    if f.None? then Trace([], m, true)
    else if fuel == 0 then Trace([], m, false)
    else
      var r := rules[f.value];
      var t := Drive(rules, kind, Some(r.replacement), fuel - 1);
      Trace([r.transform] + t.applied, t.final, t.settled)
  }

  /** One step of the driver: the rule that matches is applied, and the op goes on from its new marker. */
  lemma DriveStep(rules: seq<Rule>, kind: LinalgKind, m: Option<Marker>, fuel: nat, i: nat)
    requires DisjointRules(rules) && i < |rules| && Applies(rules[i], kind, m) && fuel > 0
    ensures var t := Drive(rules, kind, Some(rules[i].replacement), fuel - 1);
            Drive(rules, kind, m, fuel) == Trace([rules[i].transform] + t.applied, t.final, t.settled)
  {
    UniqueApplicable(rules, kind, m, i);
  }

  /** The transforms of a list of rules, in order. */
  function Transforms(rules: seq<Rule>): (r: seq<Transform>)
    ensures |r| == |rules|
  {
    if |rules| == 0 then [] else [rules[0].transform] + Transforms(rules[1..])
  }

  /**
   * The rules form a chain for an op of kind `kind` starting at marker `m`:
   * the first matches `m`, each next one matches the marker the one before
   * sets, and none matches the marker the last one sets.
   */
  predicate ChainsThrough(rules: seq<Rule>, kind: LinalgKind, m: Option<Marker>) {
    && |rules| > 0
    && Applies(rules[0], kind, m)
    && (forall i :: 0 < i < |rules| ==> Applies(rules[i], kind, Some(rules[i - 1].replacement)))
    && FirstApplicable(rules, kind, Some(rules[|rules| - 1].replacement)).None?
  }

  /** The marker an op carries once the first `i` rules of a chain have been applied. */
  function MarkerAfter(rules: seq<Rule>, m: Option<Marker>, i: nat): Option<Marker>
    requires i <= |rules|
  {
    if i == 0 then m else Some(rules[i - 1].replacement)
  }

  /** Along a chain of disjoint rules the driver applies every rule once, in order, and settles. */
  lemma DriveChain(rules: seq<Rule>, kind: LinalgKind, m: Option<Marker>)
    requires DisjointRules(rules) && ChainsThrough(rules, kind, m)
    ensures Drive(rules, kind, m, |rules|) == Trace(Transforms(rules), Some(rules[|rules| - 1].replacement), true)
  {
    DriveChainFrom(rules, kind, m, 0);
    assert rules[0..] == rules;
  }

  /** From the `i`-th rule of the chain on, the driver applies the remaining rules and settles. */
  predicate DrivenFrom(rules: seq<Rule>, kind: LinalgKind, m: Option<Marker>, i: nat)
    requires 0 < |rules| && i <= |rules|
  {
    Drive(rules, kind, MarkerAfter(rules, m, i), |rules| - i) ==
    Trace(Transforms(rules[i..]), Some(rules[|rules| - 1].replacement), true)
  }

  lemma {:induction false} DriveChainFrom(rules: seq<Rule>, kind: LinalgKind, m: Option<Marker>, i: nat)
    requires DisjointRules(rules) && ChainsThrough(rules, kind, m) && i <= |rules|
    ensures DrivenFrom(rules, kind, m, i)
    decreases |rules| - i
  {
    if i < |rules| {
      DriveChainFrom(rules, kind, m, i + 1);
      assert Applies(rules[i], kind, MarkerAfter(rules, m, i));
      DriveChainStep(rules, kind, m, i);
    } else {
      DriveChainEnd(rules, kind, m);
    }
  }

  lemma DriveChainEnd(rules: seq<Rule>, kind: LinalgKind, m: Option<Marker>)
    requires ChainsThrough(rules, kind, m)
    ensures DrivenFrom(rules, kind, m, |rules|)
  {
    var last := Some(rules[|rules| - 1].replacement);
    assert MarkerAfter(rules, m, |rules|) == last;
    assert FirstApplicable(rules, kind, last).None?;
    assert Drive(rules, kind, last, 0) == Trace([], last, true);
    assert rules[|rules|..] == [];
  }

  lemma DriveChainStep(rules: seq<Rule>, kind: LinalgKind, m: Option<Marker>, i: nat)
    requires DisjointRules(rules) && i < |rules|
    requires Applies(rules[i], kind, MarkerAfter(rules, m, i))
    requires DrivenFrom(rules, kind, m, i + 1)
    ensures DrivenFrom(rules, kind, m, i)
  {
    DriveStep(rules, kind, MarkerAfter(rules, m, i), |rules| - i, i);
    assert MarkerAfter(rules, m, i + 1) == Some(rules[i].replacement);
    assert rules[i..][1..] == rules[i + 1..];
  }

  /** Each stage run on its own, the op carrying its marker from one stage to the next. */
  function RunStages(stages: seq<Stage>, kind: LinalgKind, m: Option<Marker>): (t: Trace)
    ensures |stages| > 0 && t.settled ==> FirstApplicable(stages[|stages| - 1].rules, kind, t.final).None?
    ensures |stages| == 0 ==> t == Trace([], m, true)
    decreases |stages|
  {
    if |stages| == 0 then Trace([], m, true)
    else
      var rules := stages[0].rules;
      var first := Drive(rules, kind, m, |rules|);
      var rest := RunStages(stages[1..], kind, first.final);
      assert |stages| > 1 ==> stages[1..][|stages[1..]| - 1] == stages[|stages| - 1];
      Trace(first.applied + rest.applied, rest.final, first.settled && rest.settled)
  }

  // ---------------------------------------------------------------------
  // The stages of each op class

  /** The fast memory space of the stage-three subview removal: tile-local memory. */
  const StageThreeSpace: nat := L1

  /** runGenericPatterns: tile by 128, tile by 32 over parallel loops, promote. The herd size is not used. */
  function GenericStages(): (r: seq<Stage>)
    ensures |r| == 3
  {
    [ Stage([ Rule(GenericKind, Tile(GenericTile, [], Loops), [], TagL1),
              Rule(GenericKind, Tile(GenericL1Tile, [], ParallelLoops), [TagL1], TagHerd),
              Rule(GenericKind, PromoteOperands([]), [TagHerd], TagPromote) ], []),
      Stage([], [ForLoopCanonicalization]),
      Stage([], [RemoveSubView(StageThreeSpace), FoldSubView]) ]
  }

  /** runMatmulPatterns: an L2 stage, an L1 stage and the clean-up stage. */
  function MatmulStages(herd: seq<int>, tileForL2: bool): (r: seq<Stage>)
    requires |herd| == 3
    ensures |r| == 3
  {
    var l2Tile := Rule(MatmulKind, Tile(MatmulL2Tile(herd), MatmulInterchange, Loops), [], TagL2);
    var l2 := if tileForL2 then
                Stage([l2Tile, Rule(MatmulKind, PromoteOperands([]), [TagL2], TagL2Promoted)],
                      [RemoveSubView(CodegenPatterns.DefaultFastSpace), FoldSubView, Memrefs, ForLoopCanonicalization])
              else Stage([l2Tile], []);
    var l1 := Stage([ Rule(MatmulKind, Tile(MatmulL1Tile, [], ParallelLoops),
                           [if tileForL2 then TagL2Promoted else TagL2], TagL1),
                      Rule(MatmulKind, PromoteOperands([]), [TagL1], TagL1Promoted) ], []);
    [ l2, l1, Stage([], [RemoveSubView(StageThreeSpace), FoldSubView, ForLoopCanonicalization]) ]
  }

  /** runConv2dPatterns: tile and promote to L2, tile and promote to the herd. */
  function Conv2dStages(d: Conv2dDims): (r: seq<Stage>)
    ensures |r| == 3
  {
    [ Stage([ Rule(Conv2dKind, Tile(Conv2dStage1(d), Conv2dStage1Interchange, Loops), [TagXtenConv2d], TagPromoteL2),
              Rule(Conv2dKind, PromoteOperands([0, 1, 2]), [TagPromoteL2], TagL2),
              Rule(Conv2dKind, Tile(Conv2dStage2(d), Conv2dStage2Interchange, Loops), [TagL2], TagPromoteHerd),
              Rule(Conv2dKind, PromoteOperands([0, 1, 2]), [TagPromoteHerd], TagHerd) ], []),
      Stage([], [TilingCanonicalization, ForLoopCanonicalization]),
      Stage([], [RemoveSubView(StageThreeSpace), FoldSubView]) ]
  }

  /**
   * The matmul's herd size for a `herd-size` option: each of the three
   * dimensions takes the option's entry when there is one and 2 otherwise.
   * Entries past the third are ignored, where the pass writes them past the
   * end of its vector.
   */
  function MatmulHerd(option: seq<nat>): (r: seq<int>)
    ensures |r| == 3
    ensures forall i :: 0 <= i < 3 ==> r[i] == if i < |option| then option[i] else 2
    ensures |option| <= 3 ==> OverrideAsWritten(MatmulHerdDefault, option) == Some(r)
  {
    if |option| <= 3 then
      OverrideAgreesWhenFits(MatmulHerdDefault, option);
      OverrideHerdSize(MatmulHerdDefault, option)
    else
      OverrideHerdSize(MatmulHerdDefault, option)
  }

  /** The generic op's stages have disjoint filters. */
  lemma GenericStagesDisjoint()
    ensures forall s :: 0 <= s < 3 ==> DisjointRules(GenericStages()[s].rules)
  {
    var r := GenericStages()[0].rules;
    assert FiltersDisjoint(r[0].matches, r[1].matches);
    assert FiltersDisjoint(r[0].matches, r[2].matches);
    assert FiltersDisjoint(r[1].matches, r[2].matches);
  }

  /** The matmul's stages have disjoint filters. */
  lemma MatmulStagesDisjoint(herd: seq<int>, tileForL2: bool)
    requires |herd| == 3
    ensures forall s :: 0 <= s < 3 ==> DisjointRules(MatmulStages(herd, tileForL2)[s].rules)
  {
    var st := MatmulStages(herd, tileForL2);
    if tileForL2 {
      assert FiltersDisjoint(st[0].rules[0].matches, st[0].rules[1].matches);
    }
    assert FiltersDisjoint(st[1].rules[0].matches, st[1].rules[1].matches);
  }

  /** The conv2d's stages have disjoint filters. */
  lemma Conv2dStagesDisjoint(d: Conv2dDims)
    ensures forall s :: 0 <= s < 3 ==> DisjointRules(Conv2dStages(d)[s].rules)
  {
    var r := Conv2dStages(d)[0].rules;
    forall i, j | 0 <= i < j < 4 ensures FiltersDisjoint(r[i].matches, r[j].matches) {
      assert |r[i].matches| == 1 && |r[j].matches| == 1 && r[i].matches[0] != r[j].matches[0];
    }
  }

  // ---------------------------------------------------------------------
  // The marker chains

  /** Three stages run one after the other. */
  lemma RunThree(stages: seq<Stage>, kind: LinalgKind, m: Option<Marker>)
    requires |stages| == 3
    ensures var t0 := Drive(stages[0].rules, kind, m, |stages[0].rules|);
            var t1 := Drive(stages[1].rules, kind, t0.final, |stages[1].rules|);
            var t2 := Drive(stages[2].rules, kind, t1.final, |stages[2].rules|);
            RunStages(stages, kind, m) ==
              Trace(t0.applied + t1.applied + t2.applied, t2.final, t0.settled && t1.settled && t2.settled)
  {
    var t0 := Drive(stages[0].rules, kind, m, |stages[0].rules|);
    var t1 := Drive(stages[1].rules, kind, t0.final, |stages[1].rules|);
    var t2 := Drive(stages[2].rules, kind, t1.final, |stages[2].rules|);
    assert stages[1..][1..][1..] == [];
    assert RunStages(stages[1..][1..], kind, t1.final) == Trace(t2.applied, t2.final, t2.settled);
    assert t0.applied + t1.applied + t2.applied == t0.applied + (t1.applied + t2.applied);
  }

  /** A stage without linalg rules leaves the op as it is. */
  lemma NoRules(kind: LinalgKind, m: Option<Marker>)
    ensures Drive([], kind, m, 0) == Trace([], m, true)
  {
  }

  /** An untagged generic op is tiled for L1, tiled across the herd, then promoted. */
  lemma GenericChain()
    ensures RunStages(GenericStages(), GenericKind, None) ==
            Trace([Tile(GenericTile, [], Loops), Tile(GenericL1Tile, [], ParallelLoops), PromoteOperands([])],
                  Some(TagPromote), true)
  {
    var st := GenericStages();
    GenericStageOne();
    NoRules(GenericKind, Some(TagPromote));
    RunThree(st, GenericKind, None);
  }

  lemma GenericStageOne()
    ensures Drive(GenericStages()[0].rules, GenericKind, None, 3) ==
            Trace([Tile(GenericTile, [], Loops), Tile(GenericL1Tile, [], ParallelLoops), PromoteOperands([])],
                  Some(TagPromote), true)
  {
    var r := GenericStages()[0].rules;
    GenericStagesDisjoint();
    assert ChainsThrough(r, GenericKind, None);
    DriveChain(r, GenericKind, None);
  }

  /** An untagged matmul is tiled for L2 with the interchange, then tiled for L1 and promoted. */
  lemma MatmulChain(herd: seq<int>)
    requires |herd| == 3
    ensures RunStages(MatmulStages(herd, false), MatmulKind, None) ==
            Trace([Tile(MatmulL2Tile(herd), MatmulInterchange, Loops),
                   Tile(MatmulL1Tile, [], ParallelLoops), PromoteOperands([])],
                  Some(TagL1Promoted), true)
  {
    var st := MatmulStages(herd, false);
    MatmulStageL2(herd);
    MatmulStageL1(herd);
    NoRules(MatmulKind, Some(TagL1Promoted));
    RunThree(st, MatmulKind, None);
  }

  lemma MatmulStageL2(herd: seq<int>)
    requires |herd| == 3
    ensures Drive(MatmulStages(herd, false)[0].rules, MatmulKind, None, 1) ==
            Trace([Tile(MatmulL2Tile(herd), MatmulInterchange, Loops)], Some(TagL2), true)
  {
    var r := MatmulStages(herd, false)[0].rules;
    MatmulStagesDisjoint(herd, false);
    assert ChainsThrough(r, MatmulKind, None);
    DriveChain(r, MatmulKind, None);
  }

  lemma MatmulStageL1(herd: seq<int>)
    requires |herd| == 3
    ensures Drive(MatmulStages(herd, false)[1].rules, MatmulKind, Some(TagL2), 2) ==
            Trace([Tile(MatmulL1Tile, [], ParallelLoops), PromoteOperands([])], Some(TagL1Promoted), true)
  {
    var r := MatmulStages(herd, false)[1].rules;
    MatmulStagesDisjoint(herd, false);
    assert ChainsThrough(r, MatmulKind, Some(TagL2));
    DriveChain(r, MatmulKind, Some(TagL2));
  }

  /** With L2 tiling on, the L2 tile is promoted before the L1 tiling picks it up. */
  lemma MatmulChainForL2(herd: seq<int>)
    requires |herd| == 3
    ensures RunStages(MatmulStages(herd, true), MatmulKind, None) ==
            Trace([Tile(MatmulL2Tile(herd), MatmulInterchange, Loops), PromoteOperands([]),
                   Tile(MatmulL1Tile, [], ParallelLoops), PromoteOperands([])],
                  Some(TagL1Promoted), true)
  {
    var st := MatmulStages(herd, true);
    MatmulStagesForL2(herd);
    NoRules(MatmulKind, Some(TagL1Promoted));
    RunThree(st, MatmulKind, None);
  }

  lemma MatmulStagesForL2(herd: seq<int>)
    requires |herd| == 3
    ensures Drive(MatmulStages(herd, true)[0].rules, MatmulKind, None, 2) ==
            Trace([Tile(MatmulL2Tile(herd), MatmulInterchange, Loops), PromoteOperands([])], Some(TagL2Promoted), true)
    ensures Drive(MatmulStages(herd, true)[1].rules, MatmulKind, Some(TagL2Promoted), 2) ==
            Trace([Tile(MatmulL1Tile, [], ParallelLoops), PromoteOperands([])], Some(TagL1Promoted), true)
  {
    var st := MatmulStages(herd, true);
    MatmulStagesDisjoint(herd, true);
    DriveChain(st[0].rules, MatmulKind, None);
    DriveChain(st[1].rules, MatmulKind, Some(TagL2Promoted));
  }

  /** A conv2d tagged for the pass is tiled for L2, promoted, tiled for the herd and promoted. */
  lemma Conv2dChain(d: Conv2dDims)
    ensures RunStages(Conv2dStages(d), Conv2dKind, Some(TagXtenConv2d)) ==
            Trace([Tile(Conv2dStage1(d), Conv2dStage1Interchange, Loops), PromoteOperands([0, 1, 2]),
                   Tile(Conv2dStage2(d), Conv2dStage2Interchange, Loops), PromoteOperands([0, 1, 2])],
                  Some(TagHerd), true)
  {
    var st := Conv2dStages(d);
    Conv2dStageOne(d);
    NoRules(Conv2dKind, Some(TagHerd));
    RunThree(st, Conv2dKind, Some(TagXtenConv2d));
  }

  lemma Conv2dStageOne(d: Conv2dDims)
    ensures Drive(Conv2dStages(d)[0].rules, Conv2dKind, Some(TagXtenConv2d), 4) ==
            Trace([Tile(Conv2dStage1(d), Conv2dStage1Interchange, Loops), PromoteOperands([0, 1, 2]),
                   Tile(Conv2dStage2(d), Conv2dStage2Interchange, Loops), PromoteOperands([0, 1, 2])],
                  Some(TagHerd), true)
  {
    var r := Conv2dStages(d)[0].rules;
    Conv2dStagesDisjoint(d);
    Conv2dStageOneChains(d);
    Conv2dStageOneTransforms(d);
    DriveChain(r, Conv2dKind, Some(TagXtenConv2d));
  }

  lemma Conv2dStageOneChains(d: Conv2dDims)
    ensures ChainsThrough(Conv2dStages(d)[0].rules, Conv2dKind, Some(TagXtenConv2d))
  {
    var r := Conv2dStages(d)[0].rules;
    assert forall i :: 0 < i < 4 ==> Applies(r[i], Conv2dKind, Some(r[i - 1].replacement));
  }

  lemma Conv2dStageOneTransforms(d: Conv2dDims)
    ensures Transforms(Conv2dStages(d)[0].rules) ==
            [Tile(Conv2dStage1(d), Conv2dStage1Interchange, Loops), PromoteOperands([0, 1, 2]),
             Tile(Conv2dStage2(d), Conv2dStage2Interchange, Loops), PromoteOperands([0, 1, 2])]
  {
    var r := Conv2dStages(d)[0].rules;
    assert Transforms(r[3..]) == [r[3].transform];
    assert Transforms(r[2..]) == [r[2].transform, r[3].transform] by {
      assert r[2..][1..] == r[3..];
    }
    assert Transforms(r[1..]) == [r[1].transform, r[2].transform, r[3].transform] by {
      assert r[1..][1..] == r[2..];
    }
  }

  /** A conv2d without the tag is left untiled. */
  lemma Conv2dUntaggedUntouched(d: Conv2dDims)
    ensures RunStages(Conv2dStages(d), Conv2dKind, None) == Trace([], None, true)
  {
    var st := Conv2dStages(d);
    assert FirstApplicable(st[0].rules, Conv2dKind, None).None?;
    NoRules(Conv2dKind, None);
    RunThree(st, Conv2dKind, None);
  }

  // ---------------------------------------------------------------------
  // runOnFunction

  /** What runOnFunction runs, in order. */
  datatype Phase = PrePatterns | MatmulPhase | Conv2dPhase | GenericPhase | TestPhase

  /** The pre-pattern first, then the three op classes, or only the subview patterns under `test-patterns`. */
  function Phases(testPatterns: bool): (r: seq<Phase>)
    ensures |r| > 0 && r[0] == PrePatterns
    ensures forall i :: 0 < i < |r| ==> r[i] != PrePatterns
    ensures TestPhase in r <==> testPatterns
    ensures testPatterns ==> GenericPhase !in r && MatmulPhase !in r && Conv2dPhase !in r
  {
    if testPatterns then [PrePatterns, TestPhase]
    else [PrePatterns, MatmulPhase, Conv2dPhase, GenericPhase]
  }

  /** The stages of a phase. */
  function PhaseStages(p: Phase, option: seq<nat>, d: Conv2dDims): (r: seq<Stage>)
    ensures |r| == if p == PrePatterns || p == TestPhase then 1 else 3
    ensures forall s, i :: 0 <= s < |r| && 0 <= i < |r[s].rules| ==> PhaseOf(r[s].rules[i].kind) == Some(p)
  {
    match p
    case PrePatterns => [Stage([], [AllocCopy])]
    case MatmulPhase => MatmulStages(MatmulHerd(option), false)
    case Conv2dPhase => Conv2dStages(d)
    case GenericPhase => GenericStages()
    case TestPhase => [Stage([], [RemoveSubView(CodegenPatterns.DefaultFastSpace), FoldSubView])]
  }

  /**
   * MemrefsPattern is registered by no stage of the pass: only the L2 stage
   * of the matmul registers it, and only when L2 tiling is on, which it is not.
   */
  lemma MemrefsNeverRegistered(testPatterns: bool, option: seq<nat>, d: Conv2dDims)
    ensures forall p, s :: p in Phases(testPatterns) && s in PhaseStages(p, option, d) ==> Memrefs !in s.patterns
  {
    forall p, s | p in Phases(testPatterns) && s in PhaseStages(p, option, d) ensures Memrefs !in s.patterns {
      var st := PhaseStages(p, option, d);
      if p == MatmulPhase {
        assert s == st[0] || s == st[1] || s == st[2];
      }
    }
  }

  /**
   * The subview removal allocates in tile-local memory when it follows the
   * tiling, and in the default space, L2, under `test-patterns`.
   */
  lemma RemoveSubViewSpaces(testPatterns: bool, option: seq<nat>, d: Conv2dDims)
    ensures forall p, s, sp :: p in Phases(testPatterns) && s in PhaseStages(p, option, d) && RemoveSubView(sp) in s.patterns ==>
              sp == (if testPatterns then L2 else L1)
  {
    forall p, s, sp | p in Phases(testPatterns) && s in PhaseStages(p, option, d) && RemoveSubView(sp) in s.patterns
      ensures sp == (if testPatterns then L2 else L1)
    {
      var st := PhaseStages(p, option, d);
      if p == MatmulPhase {
        assert s == st[0] || s == st[1] || s == st[2];
      }
    }
  }

  /** A linalg op of the function: its class, its marker, and for a conv2d the dims its types give. */
  datatype LinalgOp = LinalgOp(kind: LinalgKind, marker: Option<Marker>, dims: Conv2dDims)

  /** The phase that processes an op of a class, unless the test patterns run instead. */
  function PhaseOf(kind: LinalgKind): Option<Phase> {
    match kind
    case GenericKind => Some(GenericPhase)
    case MatmulKind => Some(MatmulPhase)
    case Conv2dKind => Some(Conv2dPhase)
    case OtherLinalgKind => None
  }

  /**
   * What the pass does to one op: outlined, run through its phase's stages,
   * its marker removed, and inlined back. Under `test-patterns`, and for an
   * op of another class, no linalg pattern runs and the marker stays.
   */
  function Process(op: LinalgOp, testPatterns: bool, option: seq<nat>): (r: Trace)
    ensures (testPatterns || op.kind.OtherLinalgKind?) ==> r == Trace([], op.marker, true)
    ensures !testPatterns && !op.kind.OtherLinalgKind? ==> r.final.None?
  {
    var p := PhaseOf(op.kind);
    if testPatterns || p.None? then Trace([], op.marker, true)
    else
      var t := RunStages(PhaseStages(p.value, option, op.dims), op.kind, op.marker);
      Trace(t.applied, None, t.settled)
  }

  /** The positions of the ops of one class, in the order the walk visits them. */
  function Positions(ops: seq<LinalgOp>, kind: LinalgKind): (r: seq<nat>)
    ensures forall j :: 0 <= j < |r| ==> r[j] < |ops| && ops[r[j]].kind == kind
    ensures forall i :: 0 <= i < |ops| && ops[i].kind == kind ==> i in r
    ensures forall a, b :: 0 <= a < b < |r| ==> r[a] < r[b]
  {
    if |ops| == 0 then []
    else
      var n := |ops| - 1;
      var front := Positions(ops[..n], kind);
      assert forall i :: 0 <= i < n ==> ops[..n][i] == ops[i];
      front + (if ops[n].kind == kind then [n] else [])
  }

  /** The order the ops are processed in: matmuls, then conv2ds, then generic ops. */
  function ProcessingOrder(ops: seq<LinalgOp>, testPatterns: bool): (r: seq<nat>)
    ensures testPatterns ==> r == []
    ensures forall j :: 0 <= j < |r| ==> r[j] < |ops| && PhaseOf(ops[r[j]].kind).Some?
    ensures forall a, b :: 0 <= a < b < |r| ==> ProcessedBefore(ops, r[a], r[b])
  {
    if testPatterns then []
    else
      var m := Positions(ops, MatmulKind);
      var c := Positions(ops, Conv2dKind);
      var g := Positions(ops, GenericKind);
      var r := m + c + g;
      assert forall j :: 0 <= j < |m| ==> r[j] == m[j];
      assert forall j :: |m| <= j < |m| + |c| ==> r[j] == c[j - |m|];
      assert forall j :: |m| + |c| <= j < |r| ==> r[j] == g[j - |m| - |c|];
      r
  }

  /** The rank of an op class in the processing order. */
  function ClassRank(kind: LinalgKind): nat {
    match kind
    case MatmulKind => 0
    case Conv2dKind => 1
    case GenericKind => 2
    case OtherLinalgKind => 3
  }

  /** Op i comes before op k: an earlier class, or the same class and earlier in the function. */
  predicate ProcessedBefore(ops: seq<LinalgOp>, i: nat, k: nat)
    requires i < |ops| && k < |ops|
  {
    ClassRank(ops[i].kind) < ClassRank(ops[k].kind) || (ops[i].kind == ops[k].kind && i < k)
  }

  /** The walk collecting one class's ops. */
  method Collect(ops: seq<LinalgOp>, kind: LinalgKind) returns (r: seq<nat>)
    ensures r == Positions(ops, kind)
  {
    r := [];
    var i := 0;
    while i < |ops|
      invariant 0 <= i <= |ops|
      invariant r == Positions(ops[..i], kind)
    {
      assert ops[..i + 1][..i] == ops[..i];
      if ops[i].kind == kind {
        r := r + [i];
      }
      i := i + 1;
    }
    assert ops[..i] == ops;
  }

  /** runOnFunction: the order in which the linalg ops are processed and what each one undergoes. */
  method RunOnFunction(ops: seq<LinalgOp>, testPatterns: bool, option: seq<nat>)
    returns (order: seq<nat>, traces: seq<Trace>)
    ensures order == ProcessingOrder(ops, testPatterns)
    ensures |traces| == |ops| && forall i :: 0 <= i < |ops| ==> traces[i] == Process(ops[i], testPatterns, option)
  {
    if testPatterns {
      order := [];
    } else {
      var matmuls := Collect(ops, MatmulKind);
      var convs := Collect(ops, Conv2dKind);
      var generics := Collect(ops, GenericKind);
      order := matmuls + convs + generics;
    }
    traces := ProcessAll(ops, testPatterns, option);
  }

  /** Each op outlined, run through its stages and inlined back, one after the other. */
  method ProcessAll(ops: seq<LinalgOp>, testPatterns: bool, option: seq<nat>) returns (traces: seq<Trace>)
    ensures |traces| == |ops| && forall i :: 0 <= i < |ops| ==> traces[i] == Process(ops[i], testPatterns, option)
  {
    traces := [];
    var i := 0;
    while i < |ops|
      invariant 0 <= i <= |ops| && |traces| == i
      invariant forall k :: 0 <= k < i ==> traces[k] == Process(ops[k], testPatterns, option)
    {
      var t := Process(ops[i], testPatterns, option);
      traces := traces + [t];
      i := i + 1;
    }
  }

  /** Outside `test-patterns`, every op of the three classes is processed, exactly once, and no other op is. */
  lemma ProcessedOnce(ops: seq<LinalgOp>, i: nat)
    requires i < |ops|
    ensures i in ProcessingOrder(ops, false) <==> !ops[i].kind.OtherLinalgKind?
    ensures multiset(ProcessingOrder(ops, false))[i] <= 1
  {
    var k := ops[i].kind;
    var m := Positions(ops, MatmulKind);
    var c := Positions(ops, Conv2dKind);
    var g := Positions(ops, GenericKind);
    if i in ProcessingOrder(ops, false) {
      assert i in m || i in c || i in g;
    }
    CountInIncreasing(m, i);
    CountInIncreasing(c, i);
    CountInIncreasing(g, i);
    assert multiset(m + c + g) == multiset(m) + multiset(c) + multiset(g);
    if k == MatmulKind {
      assert i !in c && i !in g;
    } else if k == Conv2dKind {
      assert i !in m && i !in g;
    } else if k == GenericKind {
      assert i !in m && i !in c;
    } else {
      assert i !in m && i !in c && i !in g;
    }
  }

  /** An untagged matmul goes through the L2 tiling, the L1 tiling and the promotion. */
  lemma ProcessMatmul(op: LinalgOp, option: seq<nat>)
    requires op.kind == MatmulKind && op.marker.None?
    ensures Process(op, false, option) ==
            Trace([Tile(MatmulL2Tile(MatmulHerd(option)), MatmulInterchange, Loops),
                   Tile(MatmulL1Tile, [], ParallelLoops), PromoteOperands([])], None, true)
  {
    MatmulChain(MatmulHerd(option));
  }

  /** An untagged generic op goes through both tilings and the promotion. */
  lemma ProcessGeneric(op: LinalgOp, option: seq<nat>)
    requires op.kind == GenericKind && op.marker.None?
    ensures Process(op, false, option) ==
            Trace([Tile(GenericTile, [], Loops), Tile(GenericL1Tile, [], ParallelLoops), PromoteOperands([])],
                  None, true)
  {
    GenericChain();
  }

  /**
   * A conv2d carrying the `xten_conv2d` marker goes through both tile and
   * promote stages; one without a marker is left alone.
   */
  lemma ProcessConv2d(op: LinalgOp, option: seq<nat>)
    requires op.kind == Conv2dKind
    ensures op.marker == Some(TagXtenConv2d) ==>
            Process(op, false, option) ==
            Trace([Tile(Conv2dStage1(op.dims), Conv2dStage1Interchange, Loops), PromoteOperands([0, 1, 2]),
                   Tile(Conv2dStage2(op.dims), Conv2dStage2Interchange, Loops), PromoteOperands([0, 1, 2])],
                  None, true)
    ensures op.marker.None? ==> Process(op, false, option) == Trace([], None, true)
  {
    Conv2dChain(op.dims);
    Conv2dUntaggedUntouched(op.dims);
  }

  /** A strictly increasing sequence holds each value at most once. */
  lemma {:induction false} CountInIncreasing(s: seq<nat>, x: nat)
    requires forall a, b :: 0 <= a < b < |s| ==> s[a] < s[b]
    ensures multiset(s)[x] == if x in s then 1 else 0
    decreases |s|
  {
    if |s| > 0 {
      var n := |s| - 1;
      assert s == s[..n] + [s[n]];
      CountInIncreasing(s[..n], x);
      assert forall a :: 0 <= a < n ==> s[..n][a] == s[a];
      if x == s[n] {
        assert x !in s[..n];
      }
    }
  }
}
