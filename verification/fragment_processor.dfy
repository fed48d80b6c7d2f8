/**
 * The flag word of a Ganesh fragment processor and the traversal that builds a processor
 * tree's key. The flag word holds three optimization flags, which a processor promises to
 * its draw, and four private flags, which record how its generated code behaves.
 */
module FragmentProcessors {
  import opened Results

  // ---------------------------------------------------------------------------------------
  // Flag layout

  const NoOptimizationFlags: bv32 := 0
  const CompatibleWithCoverageAsAlpha: bv32 := 0x1
  const PreservesOpaqueInput: bv32 := 0x2
  const ConstantOutputForConstantInput: bv32 := 0x4
  const AllOptimizationFlags: bv32 := 0x7

  /** The private flags, the first one just above the optimization flags. */
  const FirstPrivateFlag: bv32 := 0x8
  /** Propagates up the tree to the root or to the first explicit sample usage. */
  const UsesSampleCoordsIndirectly: bv32 := 0x8
  /** This processor itself reads its sample coordinates. */
  const UsesSampleCoordsDirectly: bv32 := 0x10
  const IsBlendFunction: bv32 := 0x20
  /** Propagates up the tree to the root. */
  const WillReadDstColor: bv32 := 0x40

  /** A word with exactly one bit set. */
  predicate SingleBit(b: bv32) {
    b != 0 && b & (b - 1) == 0
  }

  /** A word that sets no bit outside the optimization flags. */
  predicate OptimizationOnly(f: bv32) {
    f & !AllOptimizationFlags == 0
  }

  /** The private flags are distinct single bits above the optimization flags. */
  lemma FlagLayout()
    ensures AllOptimizationFlags
         == CompatibleWithCoverageAsAlpha | PreservesOpaqueInput | ConstantOutputForConstantInput
    ensures FirstPrivateFlag == AllOptimizationFlags + 1
    ensures UsesSampleCoordsIndirectly == FirstPrivateFlag
    ensures UsesSampleCoordsDirectly == FirstPrivateFlag << 1
    ensures IsBlendFunction == FirstPrivateFlag << 2
    ensures WillReadDstColor == FirstPrivateFlag << 3
    ensures SingleBit(UsesSampleCoordsIndirectly) && SingleBit(UsesSampleCoordsDirectly)
    ensures SingleBit(IsBlendFunction) && SingleBit(WillReadDstColor)
    ensures (UsesSampleCoordsIndirectly | UsesSampleCoordsDirectly | IsBlendFunction | WillReadDstColor)
            & AllOptimizationFlags == 0
  {
  }

  // ---------------------------------------------------------------------------------------
  // Sampler helpers

  datatype AlphaType = UnknownAlpha | OpaqueAlpha | PremulAlpha | UnpremulAlpha

  /** `ModulateForClampedSamplerOptFlags`: an opaque texture keeps opaque input opaque. */
  function ModulateForClampedSamplerOptFlags(alpha: AlphaType): (f: bv32)
    ensures OptimizationOnly(f)
    ensures f & CompatibleWithCoverageAsAlpha != 0
    ensures f & ConstantOutputForConstantInput == 0
    ensures f & PreservesOpaqueInput != 0 <==> alpha == OpaqueAlpha
  {
    if alpha == OpaqueAlpha then CompatibleWithCoverageAsAlpha | PreservesOpaqueInput
    else CompatibleWithCoverageAsAlpha
  }

  /** `ModulateForSamplerOptFlags`: decal sampling may turn any texel transparent. */
  function ModulateForSamplerOptFlags(alpha: AlphaType, samplingDecal: bool): (f: bv32)
    ensures samplingDecal ==> f == CompatibleWithCoverageAsAlpha
    ensures !samplingDecal ==> f == ModulateForClampedSamplerOptFlags(alpha)
  {
    if samplingDecal then CompatibleWithCoverageAsAlpha
    else ModulateForClampedSamplerOptFlags(alpha)
  }

  /**
   * Decal sampling never promises more than clamped sampling, every answer promises coverage
   * as alpha, and none promises a constant output.
   */
  lemma SamplerFlagsPromises(alpha: AlphaType, samplingDecal: bool)
    ensures ModulateForSamplerOptFlags(alpha, true) & !ModulateForSamplerOptFlags(alpha, false) == 0
    ensures ModulateForSamplerOptFlags(alpha, samplingDecal) & CompatibleWithCoverageAsAlpha != 0
    ensures ModulateForSamplerOptFlags(alpha, samplingDecal) & ConstantOutputForConstantInput == 0
    ensures OptimizationOnly(ModulateForSamplerOptFlags(alpha, samplingDecal))
  {
  }

  // ---------------------------------------------------------------------------------------
  // Processors

  /**
   * A processor node: its class, its flag word, the key words its own `onAddToKey` adds, and
   * its child slots, any of which may be empty.
   */
  datatype Processor = Processor(classId: nat, flags: bv32, ownKey: seq<nat>, children: seq<Option<Processor>>)

  /** The constructor: only optimization flags may be passed in, and there are no children yet. */
  function NewProcessor(classId: nat, optimizationFlags: bv32, ownKey: seq<nat>): (fp: Processor)
    requires OptimizationOnly(optimizationFlags)
    ensures OptimizationFlags(fp) == optimizationFlags
    ensures !UsesSampleCoords(fp) && !IsBlendFunctionSet(fp) && !WillReadDstColorSet(fp)
    ensures fp.children == [] && fp.ownKey == ownKey && fp.classId == classId
  {
    Processor(classId, optimizationFlags, ownKey, [])
  }

  /** `optimizationFlags()`: the optimization part of the flag word. */
  function OptimizationFlags(fp: Processor): (f: bv32)
    ensures OptimizationOnly(f)
    ensures f | (fp.flags & !AllOptimizationFlags) == fp.flags
  {
    AllOptimizationFlags & fp.flags
  }

  /** `ProcessorOptimizationFlags`: a missing processor promises everything. */
  function ProcessorOptimizationFlags(fp: Option<Processor>): (f: bv32)
    ensures OptimizationOnly(f)
    ensures fp.None? ==> f == AllOptimizationFlags
    ensures fp.Some? ==> f == OptimizationFlags(fp.value)
  {
    if fp.Some? then OptimizationFlags(fp.value) else AllOptimizationFlags
  }

  predicate CompatibleWithCoverageAsAlphaSet(fp: Processor) {
    fp.flags & CompatibleWithCoverageAsAlpha != 0
  }

  predicate PreservesOpaqueInputSet(fp: Processor) {
    fp.flags & PreservesOpaqueInput != 0
  }

  /** `hasConstantOutputForConstantInput()`. */
  predicate HasConstantOutputForConstantInput(fp: Processor) {
    fp.flags & ConstantOutputForConstantInput != 0
  }

  predicate WillReadDstColorSet(fp: Processor) {
    fp.flags & WillReadDstColor != 0
  }

  predicate IsBlendFunctionSet(fp: Processor) {
    fp.flags & IsBlendFunction != 0
  }

  predicate UsesSampleCoordsDirectlySet(fp: Processor) {
    fp.flags & UsesSampleCoordsDirectly != 0
  }

  /** `usesSampleCoords()`: directly, or through a descendant. */
  predicate UsesSampleCoords(fp: Processor) {
    fp.flags & (UsesSampleCoordsDirectly | UsesSampleCoordsIndirectly) != 0
  }

  /** Using the sample coordinates directly is one way of using them. */
  lemma DirectUseIsUse(fp: Processor)
    ensures UsesSampleCoordsDirectlySet(fp) ==> UsesSampleCoords(fp)
    ensures UsesSampleCoords(fp) <==> UsesSampleCoordsDirectlySet(fp) || fp.flags & UsesSampleCoordsIndirectly != 0
  {
  }

  /**
   * `hasConstantOutputForConstantInput(input, &output)`: answers the constant output, computed
   * by the subclass's hook, exactly when the processor advertises one.
   */
  function ConstantOutputFor<C>(fp: Processor, input: C, hook: (Processor, C) -> C): (out: Option<C>)
    ensures out.Some? <==> HasConstantOutputForConstantInput(fp)
    ensures out.Some? ==> out.value == hook(fp, input)
  {
    if fp.flags & ConstantOutputForConstantInput != 0 then Some(hook(fp, input)) else None
  }

  /** `ConstantOutputForConstantInput`: a missing processor passes its input through. */
  function ConstantOutputForConstantInputOf<C>(fp: Option<Processor>, input: C, hook: (Processor, C) -> C): (out: C)
    requires fp.Some? ==> HasConstantOutputForConstantInput(fp.value)
    ensures fp.None? ==> out == input
    ensures fp.Some? ==> Some(out) == ConstantOutputFor(fp.value, input, hook)
  {
    if fp.Some? then hook(fp.value, input) else input
  }

  // ---------------------------------------------------------------------------------------
  // Setting and merging flags

  /** `setUsesSampleCoordsDirectly`: sets its bit and leaves every other bit as it was. */
  function SetUsesSampleCoordsDirectly(fp: Processor): (r: Processor)
    ensures UsesSampleCoordsDirectlySet(r) && UsesSampleCoords(r)
    ensures r == fp.(flags := r.flags)
    ensures r.flags & !UsesSampleCoordsDirectly == fp.flags & !UsesSampleCoordsDirectly
  {
    fp.(flags := fp.flags | UsesSampleCoordsDirectly)
  }

  /** `setWillReadDstColor`: sets its bit and leaves every other bit as it was. */
  function SetWillReadDstColor(fp: Processor): (r: Processor)
    ensures WillReadDstColorSet(r)
    ensures r == fp.(flags := r.flags)
    ensures r.flags & !WillReadDstColor == fp.flags & !WillReadDstColor
  {
    fp.(flags := fp.flags | WillReadDstColor)
  }

  /** `setIsBlendFunction`: sets its bit and leaves every other bit as it was. */
  function SetIsBlendFunction(fp: Processor): (r: Processor)
    ensures IsBlendFunctionSet(r)
    ensures r == fp.(flags := r.flags)
    ensures r.flags & !IsBlendFunction == fp.flags & !IsBlendFunction
  {
    fp.(flags := fp.flags | IsBlendFunction)
  }

  /**
   * Each setter changes only its own query: the optimization flags and the other private
   * queries read the same afterwards, and setting twice is setting once.
   */
  lemma BlendFunctionSetterTouchesOnlyItsQuery(fp: Processor)
    ensures OptimizationFlags(SetIsBlendFunction(fp)) == OptimizationFlags(fp)
    ensures UsesSampleCoords(SetIsBlendFunction(fp)) == UsesSampleCoords(fp)
    ensures WillReadDstColorSet(SetIsBlendFunction(fp)) == WillReadDstColorSet(fp)
    ensures SetIsBlendFunction(SetIsBlendFunction(fp)) == SetIsBlendFunction(fp)
  {
  }

  lemma DstColorSetterTouchesOnlyItsQuery(fp: Processor)
    ensures OptimizationFlags(SetWillReadDstColor(fp)) == OptimizationFlags(fp)
    ensures UsesSampleCoords(SetWillReadDstColor(fp)) == UsesSampleCoords(fp)
    ensures IsBlendFunctionSet(SetWillReadDstColor(fp)) == IsBlendFunctionSet(fp)
    ensures SetWillReadDstColor(SetWillReadDstColor(fp)) == SetWillReadDstColor(fp)
  {
  }

  lemma SampleCoordsSetterTouchesOnlyItsQuery(fp: Processor)
    ensures OptimizationFlags(SetUsesSampleCoordsDirectly(fp)) == OptimizationFlags(fp)
    ensures WillReadDstColorSet(SetUsesSampleCoordsDirectly(fp)) == WillReadDstColorSet(fp)
    ensures IsBlendFunctionSet(SetUsesSampleCoordsDirectly(fp)) == IsBlendFunctionSet(fp)
    ensures SetUsesSampleCoordsDirectly(SetUsesSampleCoordsDirectly(fp)) == SetUsesSampleCoordsDirectly(fp)
  {
  }

  /** `mergeOptimizationFlags`: keeps an optimization only if `f` also promises it. */
  function MergeOptimizationFlags(fp: Processor, f: bv32): (r: Processor)
    requires OptimizationOnly(f)
    ensures r.classId == fp.classId && r.ownKey == fp.ownKey && r.children == fp.children
    ensures OptimizationFlags(r) == OptimizationFlags(fp) & f
  {
    fp.(flags := fp.flags & (f | !AllOptimizationFlags))
  }

  // The laws below are stated one per lemma: each is a small bit-vector question on its own,
  // while several of them together make the solver search far longer.

  /** Merging never touches a private bit. */
  lemma MergeKeepsPrivateFlags(fp: Processor, f: bv32)
    requires OptimizationOnly(f)
    ensures MergeOptimizationFlags(fp, f).flags & !AllOptimizationFlags == fp.flags & !AllOptimizationFlags
  {
  }

  /** Merging only clears bits. */
  lemma MergeNeverSetsABit(fp: Processor, f: bv32)
    requires OptimizationOnly(f)
    ensures MergeOptimizationFlags(fp, f).flags & !fp.flags == 0
  {
  }

  /** Merging the same flags twice is merging them once. */
  lemma MergeIdempotent(fp: Processor, f: bv32)
    requires OptimizationOnly(f)
    ensures MergeOptimizationFlags(MergeOptimizationFlags(fp, f), f) == MergeOptimizationFlags(fp, f)
  {
  }

  /** Merging `f` then `g` is merging their intersection, so the order does not matter. */
  lemma MergeComposes(fp: Processor, f: bv32, g: bv32)
    requires OptimizationOnly(f) && OptimizationOnly(g)
    ensures MergeOptimizationFlags(MergeOptimizationFlags(fp, f), g) == MergeOptimizationFlags(fp, f & g)
  {
  }

  /** Merging fewer promises keeps fewer bits. */
  lemma MergeMonotone(fp: Processor, f: bv32, g: bv32)
    requires OptimizationOnly(f) && OptimizationOnly(g) && f & !g == 0
    ensures MergeOptimizationFlags(fp, f).flags & !MergeOptimizationFlags(fp, g).flags == 0
  {
  }

  /** Merging the flags of a missing child changes nothing. */
  lemma MergeMissingChild(fp: Processor)
    ensures MergeOptimizationFlags(fp, ProcessorOptimizationFlags(None)) == fp
  {
  }

  // ---------------------------------------------------------------------------------------
  // Children and keys

  /** `numChildProcessors`: every child slot, empty ones included. */
  function NumChildProcessors(fp: Processor): (n: nat)
    ensures n == |fp.children|
    ensures n >= |NonNullChildren(fp.children)|
  {
    NonNullChildrenShorter(fp.children);
    |fp.children|
  }

  /** The children that are present, in order. */
  function NonNullChildren(cs: seq<Option<Processor>>): seq<Processor> {
    if cs == [] then []
    else (if cs[0].Some? then [cs[0].value] else []) + NonNullChildren(cs[1..])
  }

  lemma {:induction false} NonNullChildrenShorter(cs: seq<Option<Processor>>)
    ensures |NonNullChildren(cs)| <= |cs|
    ensures |NonNullChildren(cs)| == |cs| <==> forall i :: 0 <= i < |cs| ==> cs[i].Some?
  {
    if cs != [] {
      NonNullChildrenShorter(cs[1..]);
      if cs[0].Some? && |NonNullChildren(cs)| == |cs| {
        assert forall i :: 1 <= i < |cs| ==> cs[1..][i - 1] == cs[i];
      }
    }
  }

  function Flatten<T>(xss: seq<seq<T>>): seq<T> {
    if xss == [] then [] else xss[0] + Flatten(xss[1..])
  }

  lemma {:induction false} FlattenAppend<T>(a: seq<seq<T>>, b: seq<seq<T>>)
    ensures Flatten(a + b) == Flatten(a) + Flatten(b)
  {
    if a != [] {
      assert (a + b)[0] == a[0];
      assert (a + b)[1..] == a[1..] + b;
      FlattenAppend(a[1..], b);
    } else {
      assert a + b == b;
    }
  }

  lemma {:induction false} FlattenWithEmpty<T>(s: seq<seq<T>>, k: nat)
    requires k <= |s|
    ensures Flatten(s[..k] + [[]] + s[k..]) == Flatten(s)
    decreases k
  {
    var t := s[..k] + [[]] + s[k..];
    if k == 0 {
      assert t == [[]] + s;
      assert t[1..] == s;
    } else {
      assert t[0] == s[0];
      assert t[1..] == s[1..][..k - 1] + [[]] + s[1..][k - 1..];
      FlattenWithEmpty(s[1..], k - 1);
    }
  }

  /** The processors of a tree in pre-order: the node itself, then each present child's subtree. */
  function Nodes(fp: Processor): (ns: seq<Processor>)
    ensures |ns| >= 1 && ns[0] == fp
    decreases fp, 2
  {
    [fp] + Flatten(Subtrees(fp))
  }

  /** The pre-order nodes below each child slot, slot by slot. */
  function Subtrees(fp: Processor): (s: seq<seq<Processor>>)
    ensures |s| == |fp.children|
    decreases fp, 1
  {
    seq(|fp.children|, i requires 0 <= i < |fp.children| => SubtreeNodes(fp, i))
  }

  /** The pre-order nodes of child slot `i`: nothing for an empty slot. */
  function SubtreeNodes(fp: Processor, i: nat): seq<Processor>
    requires i < |fp.children|
    decreases fp, 0
  {
    if fp.children[i].Some? then Nodes(fp.children[i].value) else []
  }

  lemma SubtreesAt(fp: Processor, i: nat)
    requires i < |fp.children|
    ensures Subtrees(fp)[i] == SubtreeNodes(fp, i)
  {
  }

  /** The key a sequence of processors adds when each adds only its own words. */
  function OwnKeys(ns: seq<Processor>): seq<nat> {
    if ns == [] then [] else ns[0].ownKey + OwnKeys(ns[1..])
  }

  lemma {:induction false} OwnKeysAppend(a: seq<Processor>, b: seq<Processor>)
    ensures OwnKeys(a + b) == OwnKeys(a) + OwnKeys(b)
  {
    if a != [] {
      assert (a + b)[0] == a[0];
      assert (a + b)[1..] == a[1..] + b;
      OwnKeysAppend(a[1..], b);
    } else {
      assert a + b == b;
    }
  }

  /**
   * `addToKey`: this processor's own key, then the key of each present child in slot order;
   * the whole key is the own keys of the tree's processors in pre-order.
   */
  method AddToKey(fp: Processor) returns (key: seq<nat>)
    ensures key == OwnKeys(Nodes(fp))
    ensures key[..|fp.ownKey|] == fp.ownKey
    decreases fp
  {
    ghost var subtrees := Subtrees(fp);
    var rest: seq<nat> := [];
    var i := 0;
    while i < |fp.children|
      invariant i <= |fp.children|
      invariant rest == OwnKeys(Flatten(subtrees[..i]))
    {
      var childKey: seq<nat> := [];
      if fp.children[i].Some? {
        childKey := AddToKey(fp.children[i].value);
      }
      SlotKeys(fp, i, childKey);
      rest := rest + childKey;
      i := i + 1;
    }
    assert subtrees[..i] == subtrees;
    RootKeys(fp);
    key := fp.ownKey + rest;
  }

  /** The keys of the first `i + 1` slots: those of the first `i`, then slot `i`'s own tree's. */
  lemma SlotKeys(fp: Processor, i: nat, childKey: seq<nat>)
    requires i < |fp.children|
    requires childKey == if fp.children[i].Some? then OwnKeys(Nodes(fp.children[i].value)) else []
    ensures OwnKeys(Flatten(Subtrees(fp)[..i + 1])) == OwnKeys(Flatten(Subtrees(fp)[..i])) + childKey
  {
    SubtreesAt(fp, i);
    FlattenPrefixKeys(Subtrees(fp), i);
  }

  /** Extending a prefix of slots by one slot extends the keys by that slot's keys. */
  lemma FlattenPrefixKeys(xss: seq<seq<Processor>>, i: nat)
    requires i < |xss|
    ensures OwnKeys(Flatten(xss[..i + 1])) == OwnKeys(Flatten(xss[..i])) + OwnKeys(xss[i])
  {
    assert xss[..i + 1] == xss[..i] + [xss[i]];
    FlattenAppend(xss[..i], [xss[i]]);
    assert Flatten([xss[i]]) == xss[i];
    OwnKeysAppend(Flatten(xss[..i]), xss[i]);
  }

  /** The key of a tree is its root's own key followed by the keys of the subtrees. */
  lemma RootKeys(fp: Processor)
    ensures OwnKeys(Nodes(fp)) == fp.ownKey + OwnKeys(Flatten(Subtrees(fp)))
  {
    OwnKeysAppend([fp], Flatten(Subtrees(fp)));
    assert OwnKeys([fp]) == fp.ownKey;
  }

  /**
   * An empty child slot adds nothing to the key but still counts as a child: inserting one
   * anywhere leaves the processors below the root, and so the key, as they were.
   */
  lemma EmptySlotAddsNothing(fp: Processor, k: nat)
    requires k <= |fp.children|
    ensures var fp' := fp.(children := fp.children[..k] + [None] + fp.children[k..]);
      && NumChildProcessors(fp') == NumChildProcessors(fp) + 1
      && Nodes(fp')[1..] == Nodes(fp)[1..]
      && OwnKeys(Nodes(fp')) == OwnKeys(Nodes(fp))
  {
    var fp' := fp.(children := fp.children[..k] + [None] + fp.children[k..]);
    SubtreesWithEmptySlot(fp, k);
    FlattenWithEmpty(Subtrees(fp), k);
    assert Nodes(fp')[1..] == Nodes(fp)[1..];
    SameDescendantsSameKey(fp', fp);
  }

  /** Two processors with the same own key and the same descendants have the same key. */
  lemma SameDescendantsSameKey(a: Processor, b: Processor)
    requires a.ownKey == b.ownKey && Nodes(a)[1..] == Nodes(b)[1..]
    ensures OwnKeys(Nodes(a)) == OwnKeys(Nodes(b))
  {
    var below := Nodes(a)[1..];
    assert Nodes(a) == [a] + below;
    assert Nodes(b) == [b] + below;
    OwnKeysAppend([a], below);
    OwnKeysAppend([b], below);
    assert OwnKeys([a]) == a.ownKey + OwnKeys([]);
    assert OwnKeys([b]) == b.ownKey + OwnKeys([]);
  }

  lemma SubtreesWithEmptySlot(fp: Processor, k: nat)
    requires k <= |fp.children|
    ensures Subtrees(fp.(children := fp.children[..k] + [None] + fp.children[k..]))
         == Subtrees(fp)[..k] + [[]] + Subtrees(fp)[k..]
  {
    var fp' := fp.(children := fp.children[..k] + [None] + fp.children[k..]);
    var s, s' := Subtrees(fp), Subtrees(fp');
    var empty: seq<seq<Processor>> := [[]];
    forall j | 0 <= j < |s'|
      ensures s'[j] == (s[..k] + empty + s[k..])[j]
    {
      SubtreesAt(fp', j);
      if j < k {
        SubtreesAt(fp, j);
      } else if k < j {
        SubtreesAt(fp, j - 1);
      }
    }
  }

  // ---------------------------------------------------------------------------------------
  // Factory results

  /** `GrFPResult`: whether the factory succeeded, and the processor it hands back. */
  datatype FPResult = FPResult(success: bool, fp: Option<Processor>)

  /** `GrFPFailure`: hands back the processor it was given, unchanged, as a failure. */
  function FPFailure(fp: Option<Processor>): (r: FPResult)
    ensures !r.success && r.fp == fp
  {
    FPResult(false, fp)
  }

  /** `GrFPSuccess`: only a present processor can be a success. */
  function FPSuccess(fp: Option<Processor>): (r: FPResult)
    requires fp.Some?
    ensures r.success && r.fp == fp && r.fp.Some?
  {
    FPResult(true, fp)
  }
}
