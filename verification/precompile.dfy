/**
 * Combination arithmetic of graphite precompilation: how a `PaintOptions` set counts the
 * pipelines it stands for, and how `createKey` turns one combination index back into the
 * choice of shader, colour filter, blender and clip shader that the key is built from.
 *
 * The precompile objects are virtual classes whose counts and predicates live in code this
 * model does not see; they are supplied by an `Oracle` record.
 */
module Precompile {
  import opened Results

  // ---------------------------------------------------------------------------------------
  // Objects

  /** `SkBlendMode`, by its enum value (kClear = 0 … kLuminosity = 28). */
  newtype BlendMode = m: int | 0 <= m <= 28

  const Src: BlendMode := 1
  const SrcOver: BlendMode := 3

  /** A precompile colour filter; `Opaque` stands for any filter whose internals are not modelled. */
  datatype ColorFilter =
    | OpaqueFilter(id: nat)
    | BlendFilter
    | Composed(outer: ColorFilter, inner: ColorFilter)

  /** A precompile shader and the wrappers the paint options put around one. */
  datatype Shader =
    | OpaqueShader(id: nat)
    | LocalMatrix(wrapped: Shader)
    | WithColorFilter(wrapped: Shader, filter: ColorFilter)
    | WithWorkingColorSpace(wrapped: Shader, space: nat)
    | WithCTM(wrapped: Shader)

  /** A blender is either a fixed blend mode or a runtime blender, which has no blend mode. */
  datatype Blender = ModeBlender(mode: BlendMode) | RuntimeBlender(id: nat)

  datatype Coverage = NoCoverage | SingleChannel | LCD

  datatype DstReadRequirement = NoDstRead | TextureCopy | TextureSample | FramebufferFetch

  /** `SkColorType`, keeping apart only the values dithering looks at. */
  datatype ColorType = UnknownColorType | RGB565 | ARGB4444 | OtherColorType(code: nat)

  /**
   * The virtual hooks of the precompile objects, and the caps-dependent dst-read decision.
   * `…Combinations` is an object's `numCombinations()`, the weight `SelectOption` gives it;
   * `…ChildCombinations` is its `numChildCombinations()`, which the blend and clip counts add up.
   */
  datatype Oracle = Oracle(
    shaderCombinations: Shader -> nat,
    shaderChildCombinations: Shader -> nat,
    filterCombinations: ColorFilter -> nat,
    blenderCombinations: Blender -> nat,
    blenderChildCombinations: Blender -> nat,
    isConstant: (Shader, nat) -> bool,
    dstReadRequirement: (Option<BlendMode>, Coverage) -> DstReadRequirement)

  /** `PrecompileBlender::asBlendMode`. */
  function AsBlendMode(b: Blender): (m: Option<BlendMode>)
    ensures m.Some? <==> b.ModeBlender?
  {
    match b
    case ModeBlender(mode) => Some(mode)
    case RuntimeBlender(_) => None
  }

  // ---------------------------------------------------------------------------------------
  // Wrappers

  /** The shader a wrapper was put around, or the shader itself when it is not a wrapper. */
  function Peel(s: Shader): Shader {
    match s
    case OpaqueShader(_) => s
    case LocalMatrix(w) => w
    case WithColorFilter(w, _) => w
    case WithWorkingColorSpace(w, _) => w
    case WithCTM(w) => w
  }

  /** `makeWithLocalMatrix`: wraps once, collapsing a chain of local-matrix shaders. */
  function MakeWithLocalMatrix(s: Shader): (r: Shader)
    ensures r.LocalMatrix?
    ensures s.LocalMatrix? ==> r == s
    ensures !s.LocalMatrix? ==> Peel(r) == s
  {
    if s.LocalMatrix? then s else LocalMatrix(s)
  }

  /** `makeWithColorFilter`: a null filter leaves the shader as it is. */
  function MakeWithColorFilter(s: Shader, cf: Option<ColorFilter>): (r: Shader)
    ensures cf.None? ==> r == s
    ensures cf.Some? ==> r.WithColorFilter? && Peel(r) == s && r.filter == cf.value
  {
    if cf.None? then s else WithColorFilter(s, cf.value)
  }

  /** `makeWithWorkingColorSpace`: a null colour space leaves the shader as it is. */
  function MakeWithWorkingColorSpace(s: Shader, cs: Option<nat>): (r: Shader)
    ensures cs.None? ==> r == s
    ensures cs.Some? ==> r.WithWorkingColorSpace? && Peel(r) == s && r.space == cs.value
  {
    if cs.None? then s else WithWorkingColorSpace(s, cs.value)
  }

  /** `makeComposed`: a null inner filter leaves the filter as it is. */
  function MakeComposed(outer: ColorFilter, inner: Option<ColorFilter>): (r: ColorFilter)
    ensures inner.None? ==> r == outer
    ensures inner.Some? ==> r.Composed? && r.outer == outer && r.inner == inner.value
  {
    if inner.None? then outer else Composed(outer, inner.value)
  }

  /** Wrapping in a local matrix twice is the same as wrapping once. */
  lemma LocalMatrixIdempotent(s: Shader)
    ensures MakeWithLocalMatrix(MakeWithLocalMatrix(s)) == MakeWithLocalMatrix(s)
    ensures MakeWithLocalMatrix(s) == s || MakeWithLocalMatrix(s) == LocalMatrix(s)
  {
  }

  // ---------------------------------------------------------------------------------------
  // Option lists and SelectOption

  /** How many combinations a list entry stands for: a null entry stands for one. */
  function Weight<T>(w: T -> nat, x: Option<T>): nat {
    if x.Some? then w(x.value) else 1
  }

  /** The combinations the first `pos` entries stand for: where entry `pos`'s segment starts. */
  function Offset<T>(xs: seq<Option<T>>, w: T -> nat, pos: nat): nat
    requires pos <= |xs|
    decreases pos
  {
    if pos == 0 then 0 else Weight(w, xs[0]) + Offset(xs[1..], w, pos - 1)
  }

  /** The combinations the whole list stands for. */
  function Total<T>(xs: seq<Option<T>>, w: T -> nat): nat {
    Offset(xs, w, |xs|)
  }

  /** A list of options none of which is null. */
  function Present<T>(xs: seq<T>): (r: seq<Option<T>>)
    ensures |r| == |xs|
    ensures forall i :: 0 <= i < |xs| ==> r[i] == Some(xs[i])
  {
    seq(|xs|, i requires 0 <= i < |xs| => Some(xs[i]))
  }

  /** An option together with the index of the combination chosen inside it. */
  datatype Choice<T> = Choice(option: Option<T>, index: nat)

  /**
   * `PrecompileBase::SelectOption`: walks the list, each entry owning as many consecutive
   * combination indices as it stands for, and answers the entry owning `d` with `d`'s index
   * inside it; past the end it answers a null option.
   */
  function SelectOption<T>(xs: seq<Option<T>>, w: T -> nat, d: nat): (r: Choice<T>)
    ensures r.option.Some? ==> r.index < w(r.option.value)
    ensures r.option.None? ==> r.index == 0
    ensures r.option.Some? ==> r.option in xs
    decreases |xs|
  {
    if |xs| == 0 then Choice(None, 0)
    else if d < Weight(w, xs[0]) then Choice(xs[0], d)
    else SelectOption(xs[1..], w, d - Weight(w, xs[0]))
  }

  /** Every index below the list's total falls in exactly the segment of one entry. */
  lemma {:induction false} SelectOptionFindsSegment<T>(xs: seq<Option<T>>, w: T -> nat, d: nat)
    returns (pos: nat)
    requires d < Total(xs, w)
    ensures pos < |xs|
    ensures Offset(xs, w, pos) <= d < Offset(xs, w, pos) + Weight(w, xs[pos])
    ensures SelectOption(xs, w, d) == Choice(xs[pos], d - Offset(xs, w, pos))
    decreases |xs|
  {
    assert |xs| > 0;
    if d < Weight(w, xs[0]) {
      pos := 0;
    } else {
      assert |xs[1..]| == |xs| - 1;
      var p := SelectOptionFindsSegment(xs[1..], w, d - Weight(w, xs[0]));
      pos := p + 1;
      assert xs[1..][p] == xs[pos];
    }
  }

  /** Conversely, index `sub` of entry `pos` is reached from the start of that entry's segment. */
  lemma {:induction false} SelectOptionOfSegment<T>(xs: seq<Option<T>>, w: T -> nat, pos: nat, sub: nat)
    requires pos < |xs|
    requires sub < Weight(w, xs[pos])
    ensures Offset(xs, w, pos) + sub < Total(xs, w)
    ensures SelectOption(xs, w, Offset(xs, w, pos) + sub) == Choice(xs[pos], sub)
    decreases pos
  {
    OffsetMonotone(xs, w, pos + 1, |xs|);
    if pos > 0 {
      assert xs[1..][pos - 1] == xs[pos];
      SelectOptionOfSegment(xs[1..], w, pos - 1, sub);
    }
  }

  /** Indices past the list's total select the null option. */
  lemma {:induction false} SelectOptionPastEnd<T>(xs: seq<Option<T>>, w: T -> nat, d: nat)
    requires Total(xs, w) <= d
    ensures SelectOption(xs, w, d) == Choice(None, 0)
    decreases |xs|
  {
    if |xs| > 0 {
      assert |xs[1..]| == |xs| - 1;
      SelectOptionPastEnd(xs[1..], w, d - Weight(w, xs[0]));
    }
  }

  lemma {:induction false} OffsetMonotone<T>(xs: seq<Option<T>>, w: T -> nat, i: nat, j: nat)
    requires i <= j <= |xs|
    ensures Offset(xs, w, i) <= Offset(xs, w, j)
    ensures i < j ==> Offset(xs, w, i) + Weight(w, xs[i]) <= Offset(xs, w, j)
    decreases i
  {
    if 0 < i {
      OffsetMonotone(xs[1..], w, i - 1, j - 1);
      if i < j {
        assert xs[1..][i - 1] == xs[i];
      }
    }
  }

  /** Two weightings that agree on every entry give every entry the same segment. */
  lemma {:induction false} SameWeightsSameOffset<T>(xs: seq<Option<T>>, w1: T -> nat, w2: T -> nat, n: nat)
    requires n <= |xs|
    requires forall i :: 0 <= i < |xs| ==> Weight(w1, xs[i]) == Weight(w2, xs[i])
    ensures Offset(xs, w1, n) == Offset(xs, w2, n)
    decreases n
  {
    if 0 < n {
      assert forall i :: 0 <= i < |xs[1..]| ==> xs[1..][i] == xs[i + 1];
      SameWeightsSameOffset(xs[1..], w1, w2, n - 1);
    }
  }

  // ---------------------------------------------------------------------------------------
  // Paint options and their counts

  datatype PaintOptions = PaintOptions(
    shaders: seq<Shader>,
    colorFilters: seq<ColorFilter>,
    blendModes: seq<BlendMode>,
    blenders: seq<Blender>,
    clipShaders: seq<Option<Shader>>,
    dither: bool)

  /** What `numBlendModeCombinations` asserts: a blender with a blend mode belongs in the mode list. */
  predicate NoModeBlenders(p: PaintOptions) {
    forall i :: 0 <= i < |p.blenders| ==> AsBlendMode(p.blenders[i]).None?
  }

  /**
   * Objects whose `numCombinations()` equals their `numChildCombinations()`: then the blend and
   * clip counts, which add up the latter, agree with the segments `SelectOption` lays out by the
   * former.
   */
  predicate LookupMatchesCounts(o: Oracle, p: PaintOptions) {
    && (forall i :: 0 <= i < |p.blenders| ==>
          o.blenderCombinations(p.blenders[i]) == o.blenderChildCombinations(p.blenders[i]))
    && (forall i :: 0 <= i < |p.clipShaders| && p.clipShaders[i].Some? ==>
          o.shaderCombinations(p.clipShaders[i].value) == o.shaderChildCombinations(p.clipShaders[i].value))
  }

  /** Under `LookupMatchesCounts`, the blenders and the clip entries total the same either way. */
  lemma CountsMatchLookup(o: Oracle, p: PaintOptions)
    requires LookupMatchesCounts(o, p)
    ensures Total(Present(p.blenders), o.blenderCombinations) == Total(Present(p.blenders), o.blenderChildCombinations)
    ensures Total(p.clipShaders, o.shaderCombinations) == Total(p.clipShaders, o.shaderChildCombinations)
  {
    var bs := Present(p.blenders);
    forall i | 0 <= i < |bs| ensures Weight(o.blenderCombinations, bs[i]) == Weight(o.blenderChildCombinations, bs[i]) {
      assert bs[i] == Some(p.blenders[i]);
    }
    SameWeightsSameOffset(bs, o.blenderCombinations, o.blenderChildCombinations, |bs|);
    SameWeightsSameOffset(p.clipShaders, o.shaderCombinations, o.shaderChildCombinations, |p.clipShaders|);
  }

  /** An empty category still contributes one combination: its default. */
  function AtLeastOne(n: nat): (r: nat)
    ensures 1 <= r
    ensures n != 0 ==> r == n
  {
    if n == 0 then 1 else n
  }

  /** `numShaderCombinations`: no shader option means one solid-colour combination. */
  function NumShaderCombinations(o: Oracle, p: PaintOptions): (n: nat)
    ensures 1 <= n
    ensures n == Total(Present(p.shaders), o.shaderCombinations)
         || (n == 1 && Total(Present(p.shaders), o.shaderCombinations) == 0)
  {
    AtLeastOne(Total(Present(p.shaders), o.shaderCombinations))
  }

  /** `numColorFilterCombinations`: no filter option means one unfiltered combination. */
  function NumColorFilterCombinations(o: Oracle, p: PaintOptions): (n: nat)
    ensures 1 <= n
    ensures n == Total(Present(p.colorFilters), o.filterCombinations)
         || (n == 1 && Total(Present(p.colorFilters), o.filterCombinations) == 0)
  {
    AtLeastOne(Total(Present(p.colorFilters), o.filterCombinations))
  }

  /** `numBlendModeCombinations`: each blend mode is one combination, each blender its children's. */
  function NumBlendModeCombinations(o: Oracle, p: PaintOptions): (n: nat)
    requires NoModeBlenders(p)
    ensures 1 <= n
    ensures |p.blendModes| <= n
    ensures n == |p.blendModes| + Total(Present(p.blenders), o.blenderChildCombinations)
         || (n == 1 && p.blendModes == [] && Total(Present(p.blenders), o.blenderChildCombinations) == 0)
  {
    AtLeastOne(|p.blendModes| + Total(Present(p.blenders), o.blenderChildCombinations))
  }

  /** `numClipShaderCombinations`: a null clip entry is one combination, any other its children's. */
  function NumClipShaderCombinations(o: Oracle, p: PaintOptions): (n: nat)
    ensures 1 <= n
    ensures n == Total(p.clipShaders, o.shaderChildCombinations)
         || (n == 1 && Total(p.clipShaders, o.shaderChildCombinations) == 0)
  {
    AtLeastOne(Total(p.clipShaders, o.shaderChildCombinations))
  }

  /** The radix of each digit of a combination index. */
  datatype Radices = Radices(shader: nat, colorFilter: nat, blend: nat, clip: nat)

  predicate Positive(k: Radices) {
    1 <= k.shader && 1 <= k.colorFilter && 1 <= k.blend && 1 <= k.clip
  }

  function Product(k: Radices): nat {
    k.shader * k.colorFilter * k.blend * k.clip
  }

  function RadicesOf(o: Oracle, p: PaintOptions): (k: Radices)
    requires NoModeBlenders(p)
    ensures Positive(k)
  {
    Radices(NumShaderCombinations(o, p), NumColorFilterCombinations(o, p),
            NumBlendModeCombinations(o, p), NumClipShaderCombinations(o, p))
  }

  /** `numCombinations`: every choice in one category combines with every choice in the others. */
  function NumCombinations(o: Oracle, p: PaintOptions): (n: nat)
    requires NoModeBlenders(p)
    ensures 1 <= n
    ensures n == Product(RadicesOf(o, p))
  {
    var k := RadicesOf(o, p);
    ProductPositive(k);
    k.shader * k.colorFilter * k.blend * k.clip
  }

  lemma ProductPositive(k: Radices)
    requires Positive(k)
    ensures 1 <= Product(k)
  {
    assert 1 <= k.shader * k.colorFilter;
    assert 1 <= k.shader * k.colorFilter * k.blend;
  }

  // ---------------------------------------------------------------------------------------
  // Mixed-radix digits of a combination index

  /** One combination index split into its per-category digits. */
  datatype Digits = Digits(shader: nat, colorFilter: nat, blend: nat, clip: nat)

  predicate Within(g: Digits, k: Radices) {
    g.shader < k.shader && g.colorFilter < k.colorFilter && g.blend < k.blend && g.clip < k.clip
  }

  /** The digit split of `createKey`: the clip digit is least significant, the shader digit most. */
  function Decompose(d: nat, k: Radices): (g: Digits)
    requires Positive(k)
    ensures g.clip < k.clip && g.blend < k.blend && g.colorFilter < k.colorFilter
  {
    var clip := d % k.clip;
    var rest := d / k.clip;
    var blend := rest % k.blend;
    var rest' := rest / k.blend;
    Digits(rest' / k.colorFilter, rest' % k.colorFilter, blend, clip)
  }

  /** The index whose digits are `g`. */
  function Recompose(g: Digits, k: Radices): nat {
    ((g.shader * k.colorFilter + g.colorFilter) * k.blend + g.blend) * k.clip + g.clip
  }

  lemma MulCancel(a: int, b: int, n: int)
    requires 0 < n && a * n < b * n
    ensures a < b
  {
  }

  lemma DivModUnique(x: nat, n: nat, q: nat, r: nat)
    requires 0 < n && r < n && x == q * n + r
    ensures x / n == q && x % n == r
  {
    var q', r' := x / n, x % n;
    assert x == q' * n + r';
    assert (q' + 1) * n == q' * n + n;
    assert (q + 1) * n == q * n + n;
    MulCancel(q, q' + 1, n);
    MulCancel(q', q + 1, n);
  }

  lemma DivBelow(x: nat, a: nat, n: nat)
    requires 0 < n && x < a * n
    ensures x / n < a
  {
  }

  lemma MixedBelow(a: nat, bigA: nat, b: nat, bigB: nat)
    requires a < bigA && b < bigB
    ensures a * bigB + b < bigA * bigB
  {
    assert (a + 1) * bigB <= bigA * bigB;
  }

  /** Splitting an index below the product gives digits below their radices that recompose to it. */
  lemma DecomposeRecompose(d: nat, k: Radices)
    requires Positive(k) && d < Product(k)
    ensures Within(Decompose(d, k), k)
    ensures Recompose(Decompose(d, k), k) == d
  {
    var g := Decompose(d, k);
    var rest := d / k.clip;
    var rest' := rest / k.blend;
    DivBelow(d, k.shader * k.colorFilter * k.blend, k.clip);
    DivBelow(rest, k.shader * k.colorFilter, k.blend);
    DivBelow(rest', k.shader, k.colorFilter);
    assert rest' == g.shader * k.colorFilter + g.colorFilter;
    assert rest == rest' * k.blend + g.blend;
    assert d == rest * k.clip + g.clip;
  }

  /** Digits below their radices recompose to an index below the product that splits back into them. */
  lemma RecomposeDecompose(g: Digits, k: Radices)
    requires Positive(k) && Within(g, k)
    ensures Recompose(g, k) < Product(k)
    ensures Decompose(Recompose(g, k), k) == g
  {
    var rest' := g.shader * k.colorFilter + g.colorFilter;
    var rest := rest' * k.blend + g.blend;
    var d := rest * k.clip + g.clip;
    MixedBelow(g.shader, k.shader, g.colorFilter, k.colorFilter);
    MixedBelow(rest', k.shader * k.colorFilter, g.blend, k.blend);
    MixedBelow(rest, k.shader * k.colorFilter * k.blend, g.clip, k.clip);
    DivModUnique(d, k.clip, rest, g.clip);
    DivModUnique(rest, k.blend, rest', g.blend);
    DivModUnique(rest', k.colorFilter, g.shader, g.colorFilter);
  }

  /** Two different combination indices never pick the same digits. */
  lemma DistinctIndicesDistinctDigits(d1: nat, d2: nat, k: Radices)
    requires Positive(k) && d1 < Product(k) && d2 < Product(k) && d1 != d2
    ensures Decompose(d1, k) != Decompose(d2, k)
  {
    DecomposeRecompose(d1, k);
    DecomposeRecompose(d2, k);
  }

  // ---------------------------------------------------------------------------------------
  // Building one paint option

  /** The option `createKey` builds a key from. */
  datatype PaintOption = PaintOption(
    opaquePaintColor: bool,
    finalBlender: Choice<Blender>,
    shader: Choice<Shader>,
    colorFilter: Choice<ColorFilter>,
    hasPrimitiveBlender: bool,
    clipShader: Choice<Shader>,
    dstReadReq: DstReadRequirement,
    dither: bool)

  /** The blender the blend digit names, before the kSrcOver fallback. */
  function BlendCandidate(o: Oracle, p: PaintOptions, digit: nat): (c: Choice<Blender>)
    ensures digit < |p.blendModes| ==> c == Choice(Some(ModeBlender(p.blendModes[digit])), 0)
    ensures |p.blendModes| <= digit ==> c.option.Some? ==> c.option.value in p.blenders
  {
    if digit < |p.blendModes| then Choice(Some(ModeBlender(p.blendModes[digit])), 0)
    else SelectOption(Present(p.blenders), o.blenderCombinations, digit - |p.blendModes|)
  }

  /** The final blender: a null candidate falls back to kSrcOver. */
  function ChooseBlender(o: Oracle, p: PaintOptions, digit: nat): (c: Choice<Blender>)
    ensures c.option.Some?
    ensures BlendCandidate(o, p, digit).option.Some? ==> c == BlendCandidate(o, p, digit)
    ensures BlendCandidate(o, p, digit).option.None? ==> c == Choice(Some(ModeBlender(SrcOver)), 0)
  {
    var c := BlendCandidate(o, p, digit);
    if c.option.None? then Choice(Some(ModeBlender(SrcOver)), 0) else c
  }

  /**
   * The fallback is taken exactly when the digit lies past the blend modes and past every
   * blender's segment. For a digit below the blend count, and blenders whose lookup weight is
   * their counted weight, that happens exactly when there is neither a blend mode nor a blender
   * combination to choose.
   */
  lemma BlendFallbackOnlyWhenEmpty(o: Oracle, p: PaintOptions, digit: nat)
    requires NoModeBlenders(p)
    requires digit < NumBlendModeCombinations(o, p)
    ensures BlendCandidate(o, p, digit).option.None?
        <==> |p.blendModes| + Total(Present(p.blenders), o.blenderCombinations) <= digit
    ensures LookupMatchesCounts(o, p) ==>
      (BlendCandidate(o, p, digit).option.None? <==>
         p.blendModes == [] && Total(Present(p.blenders), o.blenderChildCombinations) == 0)
  {
    var xs := Present(p.blenders);
    if digit >= |p.blendModes| {
      if Total(xs, o.blenderCombinations) <= digit - |p.blendModes| {
        SelectOptionPastEnd(xs, o.blenderCombinations, digit - |p.blendModes|);
      } else {
        var pos := SelectOptionFindsSegment(xs, o.blenderCombinations, digit - |p.blendModes|);
      }
    }
    if LookupMatchesCounts(o, p) {
      CountsMatchLookup(o, p);
    }
  }

  /**
   * With lookup weights equal to the counted ones, every combination of every blender is the
   * final blender for exactly the digit that starts past the blend modes and the blenders before it.
   */
  lemma EveryBlenderReached(o: Oracle, p: PaintOptions, pos: nat, sub: nat)
    requires NoModeBlenders(p) && LookupMatchesCounts(o, p)
    requires pos < |p.blenders| && sub < o.blenderCombinations(p.blenders[pos])
    ensures var digit := |p.blendModes| + Offset(Present(p.blenders), o.blenderCombinations, pos) + sub;
      && digit < NumBlendModeCombinations(o, p)
      && ChooseBlender(o, p, digit) == Choice(Some(p.blenders[pos]), sub)
  {
    CountsMatchLookup(o, p);
    SelectOptionOfSegment(Present(p.blenders), o.blenderCombinations, pos, sub);
  }

  /** `get_dst_read_req`: with no blender the decision is the one for kSrcOver. */
  function GetDstReadReq(o: Oracle, blender: Option<Blender>, coverage: Coverage): (r: DstReadRequirement)
    ensures blender.None? ==> r == o.dstReadRequirement(AsBlendMode(ModeBlender(SrcOver)), coverage)
    ensures blender.Some? ==> r == o.dstReadRequirement(AsBlendMode(blender.value), coverage)
  {
    if blender.Some? then o.dstReadRequirement(AsBlendMode(blender.value), coverage)
    else o.dstReadRequirement(Some(SrcOver), coverage)
  }

  /** `createKey`'s choice of options for combination `d`. */
  function CreateKey(o: Oracle, p: PaintOptions, d: nat, addPrimitiveBlender: bool, coverage: Coverage)
    : (option: PaintOption)
    requires NoModeBlenders(p)
    requires d < NumCombinations(o, p)
    ensures option.finalBlender.option.Some?
    ensures option.dstReadReq == GetDstReadReq(o, option.finalBlender.option, coverage)
    ensures option.opaquePaintColor && option.dither == p.dither
    ensures option.hasPrimitiveBlender == addPrimitiveBlender
    ensures option.shader.option.Some? ==> option.shader.option.value in p.shaders
    ensures option.colorFilter.option.Some? ==> option.colorFilter.option.value in p.colorFilters
    ensures option.clipShader.option.Some? ==> option.clipShader.option in p.clipShaders
  {
    var g := Decompose(d, RadicesOf(o, p));
    var blender := ChooseBlender(o, p, g.blend);
    PaintOption(
      true,
      blender,
      SelectOption(Present(p.shaders), o.shaderCombinations, g.shader),
      SelectOption(Present(p.colorFilters), o.filterCombinations, g.colorFilter),
      addPrimitiveBlender,
      SelectOption(p.clipShaders, o.shaderCombinations, g.clip),
      GetDstReadReq(o, blender.option, coverage),
      p.dither)
  }

  /**
   * Every combination of per-category choices is reached by exactly one index: the one that
   * recomposes its digits. A category with options then never falls back to its default.
   */
  lemma CreateKeyReachesEveryChoice(o: Oracle, p: PaintOptions, g: Digits, addPrimitiveBlender: bool, coverage: Coverage)
    requires NoModeBlenders(p)
    requires Within(g, RadicesOf(o, p))
    ensures Recompose(g, RadicesOf(o, p)) < NumCombinations(o, p)
    ensures var option := CreateKey(o, p, Recompose(g, RadicesOf(o, p)), addPrimitiveBlender, coverage);
      && option.shader == SelectOption(Present(p.shaders), o.shaderCombinations, g.shader)
      && option.colorFilter == SelectOption(Present(p.colorFilters), o.filterCombinations, g.colorFilter)
      && option.finalBlender == ChooseBlender(o, p, g.blend)
      && option.clipShader == SelectOption(p.clipShaders, o.shaderCombinations, g.clip)
  {
    RecomposeDecompose(g, RadicesOf(o, p));
  }

  /** A category that has combinations to offer never leaves the option empty. */
  lemma ShaderChosenWhenOffered(o: Oracle, p: PaintOptions, d: nat, addPrimitiveBlender: bool, coverage: Coverage)
    requires NoModeBlenders(p)
    requires d < NumCombinations(o, p)
    requires 0 < Total(Present(p.shaders), o.shaderCombinations)
    ensures CreateKey(o, p, d, addPrimitiveBlender, coverage).shader.option.Some?
  {
    var k := RadicesOf(o, p);
    DecomposeRecompose(d, k);
    var pos := SelectOptionFindsSegment(Present(p.shaders), o.shaderCombinations, Decompose(d, k).shader);
  }

  /**
   * With lookup weights equal to the counted ones, every combination of every clip entry, and
   * every null entry, is chosen by exactly the digit that starts past the entries before it.
   */
  lemma EveryClipEntryReached(o: Oracle, p: PaintOptions, pos: nat, sub: nat)
    requires LookupMatchesCounts(o, p)
    requires pos < |p.clipShaders| && sub < Weight(o.shaderCombinations, p.clipShaders[pos])
    ensures var digit := Offset(p.clipShaders, o.shaderCombinations, pos) + sub;
      && digit < NumClipShaderCombinations(o, p)
      && SelectOption(p.clipShaders, o.shaderCombinations, digit) == Choice(p.clipShaders[pos], sub)
  {
    CountsMatchLookup(o, p);
    SelectOptionOfSegment(p.clipShaders, o.shaderCombinations, pos, sub);
  }

  // ---------------------------------------------------------------------------------------
  // setClipShaders

  /** The two clip entries one clip shader becomes: under the CTM, and that inverted. */
  function ClipPair(cs: Option<Shader>): (pair: seq<Option<Shader>>)
    ensures |pair| == 2
  {
    if cs.None? then [None, None]
    else [Some(WithCTM(cs.value)), Some(MakeWithColorFilter(WithCTM(cs.value), Some(BlendFilter)))]
  }

  /** `setClipShaders`: appends the pair of entries of each clip shader, in order. */
  method SetClipShaders(p: PaintOptions, clipShaders: seq<Option<Shader>>) returns (r: PaintOptions)
    ensures r == p.(clipShaders := r.clipShaders)
    ensures |r.clipShaders| == |p.clipShaders| + 2 * |clipShaders|
    ensures r.clipShaders[..|p.clipShaders|] == p.clipShaders
    ensures forall i :: 0 <= i < |clipShaders| ==>
      && r.clipShaders[|p.clipShaders| + 2 * i] == ClipPair(clipShaders[i])[0]
      && r.clipShaders[|p.clipShaders| + 2 * i + 1] == ClipPair(clipShaders[i])[1]
  {
    var base := |p.clipShaders|;
    var entries := p.clipShaders;
    var n := 0;
    while n < |clipShaders|
      invariant n <= |clipShaders|
      invariant |entries| == base + 2 * n
      invariant entries[..base] == p.clipShaders
      invariant forall i :: 0 <= i < n ==>
        && entries[base + 2 * i] == ClipPair(clipShaders[i])[0]
        && entries[base + 2 * i + 1] == ClipPair(clipShaders[i])[1]
    {
      var pair := ClipPair(clipShaders[n]);
      var next := entries + pair;
      assert next[..base] == entries[..base];
      assert next[base + 2 * n] == pair[0] && next[base + 2 * n + 1] == pair[1];
      entries := next;
      n := n + 1;
    }
    r := p.(clipShaders := entries);
  }

  /** The clip shader a pair came from: the pair's first entry with the CTM wrapper peeled. */
  function Unpair(pair: seq<Option<Shader>>): Option<Shader>
    requires |pair| == 2
  {
    if pair[0].Some? then Some(Peel(pair[0].value)) else None
  }

  /**
   * Each pair keeps its clip shader recoverable, both its entries are null exactly when the clip
   * shader is, and a pair stands for two combinations when null.
   */
  lemma ClipPairFaithful(cs: Option<Shader>, o: Oracle)
    ensures Unpair(ClipPair(cs)) == cs
    ensures ClipPair(cs)[0].None? <==> cs.None?
    ensures ClipPair(cs)[1].None? <==> cs.None?
    ensures cs.None? ==> Total(ClipPair(cs), o.shaderChildCombinations) == 2
  {
    if cs.None? {
      assert ClipPair(cs)[1..][1..] == [];
    }
  }

  // ---------------------------------------------------------------------------------------
  // Dithering and the final blend mode

  /** `shouldDither`, in step with the CPU paint's decision. */
  function ShouldDither(o: Oracle, option: PaintOption, dst: ColorType): (r: bool)
    ensures !option.dither ==> !r
    ensures dst.UnknownColorType? ==> !r
    ensures option.dither && (dst.RGB565? || dst.ARGB4444?) ==> r
    ensures option.dither && dst.OtherColorType? ==>
      (r <==> option.shader.option.Some?
              && !o.isConstant(option.shader.option.value, option.shader.index))
  {
    if !option.dither then false
    else if dst.UnknownColorType? then false
    else if dst.RGB565? || dst.ARGB4444? then true
    else option.shader.option.Some? && !o.isConstant(option.shader.option.value, option.shader.index)
  }

  /**
   * With no shader option the paint is the solid colour, which is constant: it dithers only on
   * the low-precision colour types, and only when the paint asks for it.
   */
  lemma SolidColorDithersOnlyLowPrecision(o: Oracle, p: PaintOptions, d: nat, addPrimitiveBlender: bool,
                                           coverage: Coverage, dst: ColorType)
    requires NoModeBlenders(p)
    requires d < NumCombinations(o, p)
    requires Total(Present(p.shaders), o.shaderCombinations) == 0
    ensures ShouldDither(o, CreateKey(o, p, d, addPrimitiveBlender, coverage), dst)
        <==> p.dither && (dst.RGB565? || dst.ARGB4444?)
  {
    var k := RadicesOf(o, p);
    SelectOptionPastEnd(Present(p.shaders), o.shaderCombinations, Decompose(d, k).shader);
  }

  /** The hardware blend mode `toKey` sets: kSrc whenever the blend is done in the shader with a dst read. */
  function FinalBlendMode(option: PaintOption): (m: Option<BlendMode>)
    ensures option.dstReadReq != NoDstRead ==> m == Some(Src)
    ensures option.dstReadReq == NoDstRead && option.finalBlender.option.Some? ==>
      m == AsBlendMode(option.finalBlender.option.value)
    ensures option.dstReadReq == NoDstRead && option.finalBlender.option.None? ==> m == Some(SrcOver)
  {
    if option.dstReadReq != NoDstRead then Some(Src)
    else if option.finalBlender.option.Some? then AsBlendMode(option.finalBlender.option.value)
    else Some(SrcOver)
  }

  /**
   * `toKey` asserts that a hardware blend mode exists. For the options `createKey` builds that
   * holds as long as a blender without a blend mode always calls for a dst read.
   */
  lemma KeyBlendModeDefined(o: Oracle, p: PaintOptions, d: nat, addPrimitiveBlender: bool, coverage: Coverage)
    requires NoModeBlenders(p)
    requires d < NumCombinations(o, p)
    requires o.dstReadRequirement(None, coverage) != NoDstRead
    ensures FinalBlendMode(CreateKey(o, p, d, addPrimitiveBlender, coverage)).Some?
  {
  }
}
