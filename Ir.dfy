/**
 * A small abstract picture of the MLIR that the AIR passes rewrite.
 *
 * An SSA value is represented by the expression that produces it: a value
 * defined elsewhere (block argument, result of an op this model does not
 * look into), or the result of one of the few ops the passes create
 * themselves (constants, index casts, integer additions). Operations form a
 * tree: an op may hold one block of nested ops.
 */
module Ir {

  datatype Option<T> = None | Some(value: T)

  /** Memory-space tags of the AIR dialect (L1 is the tile-local memory). */
  const L3: int := 0
  const L2: int := 1
  const L1: int := 2

  /** Marker MLIR stores in a shape for a dimension whose size is dynamic. */
  const DynamicSize: int := -1

  datatype Type =
    | Index
    | Integer(width: nat)
    | Float(width: nat)
    | MemRef(shape: seq<int>, elem: Type, layout: seq<nat>, space: int)

  type MemRefTy = t: Type | t.MemRef? witness MemRef([], Index, [], 0)

  datatype Value =
    | Ssa(id: nat, ty: Type)
    | ConstIndex(c: int)
    | ConstInt(c: int, width: nat)
    | IndexCast(src: Value, width: nat)
    | AddI(lhs: Value, rhs: Value)

  function TypeOf(v: Value): Type {
    match v
    case Ssa(_, t) => t
    case ConstIndex(_) => Index
    case ConstInt(_, w) => Integer(w)
    case IndexCast(_, w) => Integer(w)
    case AddI(a, _) => TypeOf(a)
  }

  /** Integer meaning of a value, given the meaning of the values defined elsewhere. */
  function Eval(v: Value, env: Value -> int): int {
    match v
    case Ssa(_, _) => env(v)
    case ConstIndex(c) => c
    case ConstInt(c, _) => c
    case IndexCast(s, _) => Eval(s, env)
    case AddI(a, b) => Eval(a, env) + Eval(b, env)
  }

  /** True when `a` is used, directly or through a created op, by `v`. */
  predicate Occurs(a: Value, v: Value) {
    v == a ||
    match v
    case IndexCast(s, _) => Occurs(a, s)
    case AddI(l, r) => Occurs(a, l) || Occurs(a, r)
    case _ => false
  }

  datatype DmaKind = Memcpy1d | Memcpy2d | Memcpy4d

  /** The number of dimensions a DMA copy reports through its interface. */
  function NumDims(k: DmaKind): nat {
    match k
    case Memcpy1d => 1
    case Memcpy2d => 2
    case Memcpy4d => 4
  }

  /**
   * A DMA copy: its optional "id" attribute, the memory spaces of its source
   * and destination buffers, and its operand list in order.
   */
  datatype DmaOp = DmaOp(kind: DmaKind, id: Option<int>, srcSpace: int, dstSpace: int, operands: seq<Value>)

  datatype Op =
    | Terminator
    | Generic(name: string, operands: seq<Value>, body: seq<Op>)
    | AffineFor(iv: Value, lb: int, ub: int, tag: Option<string>, body: seq<Op>)
    | HerdLoad(sym: string)
    | Launch(herd: Herd)
    | Dma(dma: DmaOp)

  /**
   * A herd launch. `sizeX`/`sizeY` and `kernelOperands` are its operands;
   * `sizeArgX`/`sizeArgY`, `tileX`/`tileY` and `kernelArgs` are the
   * arguments of its body block that stand for them inside the body.
   */
  datatype Herd = Herd(
    sym: Option<string>,
    sizeX: Value, sizeY: Value,
    sizeArgX: Value, sizeArgY: Value,
    tileX: Value, tileY: Value,
    kernelOperands: seq<Value>, kernelArgs: seq<Value>,
    body: seq<Op>)

  // ---------------------------------------------------------------------
  // Replacing uses (replaceAllUsesWith, applied simultaneously for a map)

  function SubstValue(m: map<Value, Value>, v: Value): Value {
    match v
    case Ssa(_, _) => if v in m then m[v] else v
    case IndexCast(s, w) => IndexCast(SubstValue(m, s), w)
    case AddI(a, b) => AddI(SubstValue(m, a), SubstValue(m, b))
    case _ => v
  }

  function SubstValues(m: map<Value, Value>, vs: seq<Value>): (r: seq<Value>)
    ensures |r| == |vs|
    ensures forall i :: 0 <= i < |vs| ==> r[i] == SubstValue(m, vs[i])
  {
    seq(|vs|, i requires 0 <= i < |vs| => SubstValue(m, vs[i]))
  }

  /** Only uses are rewritten: loop induction variables and block arguments are definitions. */
  function SubstOp(m: map<Value, Value>, op: Op): Op
    decreases op
  {
    match op
    case Terminator => op
    case HerdLoad(_) => op
    case Generic(n, vs, b) =>
      Generic(n, SubstValues(m, vs), seq(|b|, i requires 0 <= i < |b| => SubstOp(m, b[i])))
    case AffineFor(iv, lb, ub, tag, b) =>
      AffineFor(iv, lb, ub, tag, seq(|b|, i requires 0 <= i < |b| => SubstOp(m, b[i])))
    case Launch(h) =>
      Launch(h.(sizeX := SubstValue(m, h.sizeX), sizeY := SubstValue(m, h.sizeY),
                kernelOperands := SubstValues(m, h.kernelOperands),
                body := seq(|h.body|, i requires 0 <= i < |h.body| => SubstOp(m, h.body[i]))))
    case Dma(d) => Dma(d.(operands := SubstValues(m, d.operands)))
  }

  function SubstOps(m: map<Value, Value>, ops: seq<Op>): (r: seq<Op>)
    ensures |r| == |ops|
    ensures forall i :: 0 <= i < |ops| ==> r[i] == SubstOp(m, ops[i])
  {
    seq(|ops|, i requires 0 <= i < |ops| => SubstOp(m, ops[i]))
  }

  /** `from.replaceAllUsesWith(to)` over a list of ops. */
  function ReplaceAllUses(ops: seq<Op>, from: Value, to: Value): seq<Op> {
    SubstOps(map[from := to], ops)
  }

  /** The values an op uses directly (not those of nested ops). */
  function OwnOperands(op: Op): seq<Value> {
    match op
    case Generic(_, vs, _) => vs
    case Launch(h) => [h.sizeX, h.sizeY] + h.kernelOperands
    case Dma(d) => d.operands
    case _ => []
  }

  function Children(op: Op): seq<Op> {
    match op
    case Generic(_, _, b) => b
    case AffineFor(_, _, _, _, b) => b
    case Launch(h) => h.body
    case _ => []
  }

  /** True when some op of the tree uses `a`. */
  predicate OpUses(op: Op, a: Value)
    decreases op
  {
    (exists i :: 0 <= i < |OwnOperands(op)| && Occurs(a, OwnOperands(op)[i])) ||
    match op
    case Generic(_, _, b) => exists i :: 0 <= i < |b| && OpUses(b[i], a)
    case AffineFor(_, _, _, _, b) => exists i :: 0 <= i < |b| && OpUses(b[i], a)
    case Launch(h) => exists i :: 0 <= i < |h.body| && OpUses(h.body[i], a)
    case _ => false
  }

  predicate OpsUse(ops: seq<Op>, a: Value) {
    exists i :: 0 <= i < |ops| && OpUses(ops[i], a)
  }

  // ---------------------------------------------------------------------
  // Ancestor chains

  /** What an enclosing op contributes to the context of the ops nested in it. */
  datatype Ancestor =
    | ForAnc(iv: Value, tag: Option<string>)
    | LaunchAnc(tileX: Value, tileY: Value)
    | OtherAnc

  function AncestorOf(op: Op): Ancestor {
    match op
    case AffineFor(iv, _, _, tag, _) => ForAnc(iv, tag)
    case Launch(h) => LaunchAnc(h.tileX, h.tileY)
    case _ => OtherAnc
  }

  /**
   * The op reached from `ops` by the path of block positions `path`, and its
   * enclosing ops within `ops`, nearest first.
   */
  function OpAt(ops: seq<Op>, path: seq<nat>): Option<Op>
    decreases |path|
  {
    if |path| == 0 || path[0] >= |ops| then None
    else if |path| == 1 then Some(ops[path[0]])
    else OpAt(Children(ops[path[0]]), path[1..])
  }

  function AncestorsAt(ops: seq<Op>, path: seq<nat>): Option<seq<Ancestor>>
    decreases |path|
  {
    if |path| == 0 || path[0] >= |ops| then None
    else if |path| == 1 then Some([])
    else
      match AncestorsAt(Children(ops[path[0]]), path[1..])
      case None => None
      case Some(a) => Some(a + [AncestorOf(ops[path[0]])])
  }

  // ---------------------------------------------------------------------
  // Lemmas about replacing uses

  lemma {:induction false} SubstValueUnused(m: map<Value, Value>, v: Value)
    requires forall k :: k in m ==> !Occurs(k, v)
    ensures SubstValue(m, v) == v
  {
    match v
    case Ssa(_, _) =>
    case ConstIndex(_) =>
    case ConstInt(_, _) =>
    case IndexCast(s, _) => SubstValueUnused(m, s);
    case AddI(a, b) => SubstValueUnused(m, a); SubstValueUnused(m, b);
  }

  /**
   * Replacing the uses of `a` after a simultaneous substitution `m` is the
   * simultaneous substitution `m[a := b]`, when `a` is not already a key of
   * `m` and no replacement of `m` uses `a`.
   */
  lemma {:induction false} SubstValueThenReplace(m: map<Value, Value>, a: Value, b: Value, v: Value)
    requires a.Ssa? && a !in m
    requires forall k :: k in m ==> !Occurs(a, m[k])
    ensures SubstValue(map[a := b], SubstValue(m, v)) == SubstValue(m[a := b], v)
  {
    match v
    case Ssa(_, _) =>
      if v in m {
        SubstValueUnused(map[a := b], m[v]);
      }
    case ConstIndex(_) =>
    case ConstInt(_, _) =>
    case IndexCast(s, _) => SubstValueThenReplace(m, a, b, s);
    case AddI(l, r) => SubstValueThenReplace(m, a, b, l); SubstValueThenReplace(m, a, b, r);
  }

  lemma {:induction false} SubstOpThenReplace(m: map<Value, Value>, a: Value, b: Value, op: Op)
    requires a.Ssa? && a !in m
    requires forall k :: k in m ==> !Occurs(a, m[k])
    ensures SubstOp(map[a := b], SubstOp(m, op)) == SubstOp(m[a := b], op)
    decreases op
  {
    var r := map[a := b];
    var m' := m[a := b];
    match op
    case Terminator =>
    case HerdLoad(_) =>
    case Generic(n, vs, body) =>
      forall i | 0 <= i < |vs| ensures SubstValue(r, SubstValue(m, vs[i])) == SubstValue(m', vs[i]) {
        SubstValueThenReplace(m, a, b, vs[i]);
      }
      forall i | 0 <= i < |body| ensures SubstOp(r, SubstOp(m, body[i])) == SubstOp(m', body[i]) {
        SubstOpThenReplace(m, a, b, body[i]);
      }
    case AffineFor(iv, lb, ub, tag, body) =>
      forall i | 0 <= i < |body| ensures SubstOp(r, SubstOp(m, body[i])) == SubstOp(m', body[i]) {
        SubstOpThenReplace(m, a, b, body[i]);
      }
    case Launch(h) =>
      SubstValueThenReplace(m, a, b, h.sizeX);
      SubstValueThenReplace(m, a, b, h.sizeY);
      forall i | 0 <= i < |h.kernelOperands|
        ensures SubstValue(r, SubstValue(m, h.kernelOperands[i])) == SubstValue(m', h.kernelOperands[i])
      {
        SubstValueThenReplace(m, a, b, h.kernelOperands[i]);
      }
      forall i | 0 <= i < |h.body| ensures SubstOp(r, SubstOp(m, h.body[i])) == SubstOp(m', h.body[i]) {
        SubstOpThenReplace(m, a, b, h.body[i]);
      }
    case Dma(d) =>
      forall i | 0 <= i < |d.operands|
        ensures SubstValue(r, SubstValue(m, d.operands[i])) == SubstValue(m', d.operands[i])
      {
        SubstValueThenReplace(m, a, b, d.operands[i]);
      }
  }

  /** One more replaceAllUsesWith extends a simultaneous substitution by one entry. */
  lemma SubstOpsThenReplace(m: map<Value, Value>, a: Value, b: Value, ops: seq<Op>)
    requires a.Ssa? && a !in m
    requires forall k :: k in m ==> !Occurs(a, m[k])
    ensures ReplaceAllUses(SubstOps(m, ops), a, b) == SubstOps(m[a := b], ops)
  {
    forall i | 0 <= i < |ops|
      ensures ReplaceAllUses(SubstOps(m, ops), a, b)[i] == SubstOps(m[a := b], ops)[i]
    {
      SubstOpThenReplace(m, a, b, ops[i]);
    }
  }

  lemma {:induction false} SubstValueRemoves(m: map<Value, Value>, a: Value, v: Value)
    requires a.Ssa? && a in m
    requires forall k :: k in m ==> !Occurs(a, m[k])
    ensures !Occurs(a, SubstValue(m, v))
  {
    match v
    case Ssa(_, _) =>
    case ConstIndex(_) =>
    case ConstInt(_, _) =>
    case IndexCast(s, _) => SubstValueRemoves(m, a, s);
    case AddI(l, r) => SubstValueRemoves(m, a, l); SubstValueRemoves(m, a, r);
  }

  /** After the substitution no op of the tree uses a substituted value. */
  lemma {:induction false} SubstOpRemoves(m: map<Value, Value>, a: Value, op: Op)
    requires a.Ssa? && a in m
    requires forall k :: k in m ==> !Occurs(a, m[k])
    ensures !OpUses(SubstOp(m, op), a)
    decreases op
  {
    var s := SubstOp(m, op);
    forall i | 0 <= i < |OwnOperands(s)| ensures !Occurs(a, OwnOperands(s)[i]) {
      match op
      case Generic(_, vs, _) => SubstValueRemoves(m, a, vs[i]);
      case Launch(h) =>
        if i == 0 { SubstValueRemoves(m, a, h.sizeX); }
        else if i == 1 { SubstValueRemoves(m, a, h.sizeY); }
        else { SubstValueRemoves(m, a, h.kernelOperands[i - 2]); }
      case Dma(d) => SubstValueRemoves(m, a, d.operands[i]);
    }
    var b := Children(op);
    forall i | 0 <= i < |b| ensures !OpUses(SubstOp(m, b[i]), a) {
      SubstOpRemoves(m, a, b[i]);
    }
    match op
    case Terminator =>
    case HerdLoad(_) =>
    case Generic(_, _, _) => assert s.body == SubstOps(m, b);
    case AffineFor(_, _, _, _, _) => assert s.body == SubstOps(m, b);
    case Launch(h) => assert s.herd.body == SubstOps(m, b);
    case Dma(_) =>
  }

  lemma SubstOpsRemoves(m: map<Value, Value>, a: Value, ops: seq<Op>)
    requires a.Ssa? && a in m
    requires forall k :: k in m ==> !Occurs(a, m[k])
    ensures !OpsUse(SubstOps(m, ops), a)
  {
    forall i | 0 <= i < |ops| ensures !OpUses(SubstOps(m, ops)[i], a) {
      SubstOpRemoves(m, a, ops[i]);
    }
  }

  /** Replacing uses keeps every op where it was, under the same enclosing ops. */
  lemma {:induction false} SubstKeepsPaths(m: map<Value, Value>, ops: seq<Op>, path: seq<nat>)
    ensures AncestorsAt(SubstOps(m, ops), path) == AncestorsAt(ops, path)
    ensures OpAt(SubstOps(m, ops), path) ==
            (match OpAt(ops, path) case None => None case Some(op) => Some(SubstOp(m, op)))
    decreases |path|
  {
    if |path| == 0 || path[0] >= |ops| {
    } else if |path| == 1 {
    } else {
      var op := ops[path[0]];
      assert AncestorOf(SubstOp(m, op)) == AncestorOf(op);
      assert Children(SubstOp(m, op)) == SubstOps(m, Children(op));
      SubstKeepsPaths(m, Children(op), path[1..]);
    }
  }

  lemma {:induction false} SubstOpEmpty(op: Op)
    ensures SubstOp(map[], op) == op
    decreases op
  {
    forall v: Value ensures SubstValue(map[], v) == v {
      SubstValueUnused(map[], v);
    }
    forall c | c in Children(op) ensures SubstOp(map[], c) == c {
      SubstOpEmpty(c);
    }
    match op
    case Terminator =>
    case HerdLoad(_) =>
    case Generic(n, vs, b) =>
      assert SubstOp(map[], op).body == b;
    case AffineFor(_, _, _, _, b) =>
      assert SubstOp(map[], op).body == b;
    case Launch(h) =>
      assert SubstOp(map[], op).herd.body == h.body;
      assert SubstValues(map[], h.kernelOperands) == h.kernelOperands;
    case Dma(d) =>
      assert SubstValues(map[], d.operands) == d.operands;
  }

  lemma SubstOpsEmpty(ops: seq<Op>)
    ensures SubstOps(map[], ops) == ops
  {
    forall i | 0 <= i < |ops| ensures SubstOps(map[], ops)[i] == ops[i] {
      SubstOpEmpty(ops[i]);
    }
  }

  /** One step of a path: into the block of the op at its head. */
  lemma PathStep(ops: seq<Op>, i: nat, rest: seq<nat>)
    requires i < |ops| && |rest| > 0
    ensures AncestorsAt(ops, [i] + rest) ==
            (match AncestorsAt(Children(ops[i]), rest)
             case None => None
             case Some(a) => Some(a + [AncestorOf(ops[i])]))
    ensures OpAt(ops, [i] + rest) == OpAt(Children(ops[i]), rest)
  {
    assert ([i] + rest)[1..] == rest;
  }
}
