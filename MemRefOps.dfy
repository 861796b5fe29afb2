/**
 * The memref ops the codegen patterns look at (AIRLinalgCodegen.cpp).
 *
 * A static offset, size or shape entry that is negative marks a dynamic
 * one, whose value is the next operand of the op's matching operand list.
 * `getDefiningOp` is modelled as a map from values to the op defining them.
 */
module MemRefOps {
  import opened Ir

  /** memref.subview */
  datatype SubView = SubView(
    source: Value,
    offsets: seq<Value>, sizes: seq<Value>, strides: seq<Value>,
    staticOffsets: seq<int>, staticSizes: seq<int>, staticStrides: seq<int>,
    ty: MemRefTy)

  /** memref.alloc: its result, its type, and one size operand per dynamic dimension. */
  datatype Alloc = Alloc(res: Value, ty: MemRefTy, sizes: seq<Value>)

  /** The op defining a value, as far as the patterns care. */
  datatype Def =
    | SubViewDef(sv: SubView)
    | ViewDef(viewSource: Value)
    | AllocDef(alloc: Alloc)
    | OtherDef

  function Dyn(x: int): nat {
    if x < 0 then 1 else 0
  }

  /** The number of dynamic entries of a static list. */
  function CountDynamic(s: seq<int>): (r: nat)
    ensures r <= |s|
  {
    if |s| == 0 then 0 else Dyn(s[0]) + CountDynamic(s[1..])
  }

  lemma {:induction false} CountDynamicSplit(a: seq<int>, b: seq<int>)
    ensures CountDynamic(a + b) == CountDynamic(a) + CountDynamic(b)
    decreases |a|
  {
    if |a| == 0 {
      assert a + b == b;
    } else {
      assert (a + b)[0] == a[0];
      assert (a + b)[1..] == a[1..] + b;
      CountDynamicSplit(a[1..], b);
    }
  }

  /** The op verifier's requirement: as many offset operands as dynamic offsets. */
  predicate WellFormedSubView(sv: SubView) {
    |sv.offsets| == CountDynamic(sv.staticOffsets)
  }

  /** The alloc verifier's requirement: one size operand per dynamic dimension. */
  predicate WellFormedAlloc(a: Alloc) {
    |a.sizes| == CountDynamic(a.ty.shape)
  }

  /** The dynamic operands left once an entry `x` has been read. */
  function Rest(x: int, d: seq<Value>): seq<Value>
    requires x < 0 ==> |d| > 0
  {
    if x < 0 then d[1..] else d
  }

  /**
   * The integers a static list (offsets, sizes or a shape) and its dynamic
   * operands denote, given the values of the SSA values defined elsewhere.
   */
  function Resolve(statics: seq<int>, dyn: seq<Value>, env: Value -> int): (r: seq<int>)
    requires CountDynamic(statics) <= |dyn|
    ensures |r| == |statics|
  {
    if |statics| == 0 then []
    else
      var x := statics[0];
      [if x >= 0 then x else Eval(dyn[0], env)] + Resolve(statics[1..], Rest(x, dyn), env)
  }

  lemma CountDynamicUnfold(s: seq<int>)
    requires |s| > 0
    ensures CountDynamic(s) == Dyn(s[0]) + CountDynamic(s[1..])
  {
  }

  lemma ResolveUnfold(statics: seq<int>, dyn: seq<Value>, env: Value -> int)
    requires CountDynamic(statics) <= |dyn| && |statics| > 0
    ensures statics[0] < 0 ==> |dyn| > 0
    ensures Resolve(statics, dyn, env) ==
            [if statics[0] >= 0 then statics[0] else Eval(dyn[0], env)] +
            Resolve(statics[1..], Rest(statics[0], dyn), env)
  {
  }

  lemma CountDynamicZero(s: seq<int>)
    ensures CountDynamic(s) == 0 <==> forall i :: 0 <= i < |s| ==> s[i] >= 0
  {
    if |s| > 0 {
      CountDynamicZero(s[1..]);
      assert forall i :: 1 <= i < |s| ==> s[i] == s[1..][i - 1];
    }
  }

  lemma CountDynamicAll(s: seq<int>)
    ensures CountDynamic(s) == |s| <==> forall i :: 0 <= i < |s| ==> s[i] < 0
  {
    if |s| > 0 {
      CountDynamicAll(s[1..]);
      assert forall i :: 1 <= i < |s| ==> s[i] == s[1..][i - 1];
    }
  }
}
