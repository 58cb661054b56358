/**
 Where the parameters of a model lie in the shared buffers: one buffer for each element type, filled in name
 order, each parameter padded to a whole number of 128-bit units.
 */
module MemoryLayout {
  import opened Sequences
  import Arithmetic

  datatype DType = Float8 | Float16 | BFloat16 | Float32 | Float64

  /** A parameter of the model, listed in the order of the names. */
  datatype Meta = Meta(dtype: DType, numel: nat)

  /** torch.finfo(dtype).bits */
  function Bits(d: DType): nat {
    match d
    case Float8 => 8
    case Float16 => 16
    case BFloat16 => 16
    case Float32 => 32
    case Float64 => 64
  }

  function Align(d: DType): (a: nat)
    ensures a >= 1 && a * Bits(d) == 128
  {
    128 / Bits(d)
  }

  /** A unit of 128 bits holds 16, 8, 4 or 2 elements. */
  lemma {:induction false} UnitSizes()
    ensures Align(Float8) == 16 && Align(Float16) == 8 && Align(BFloat16) == 8
    ensures Align(Float32) == 4 && Align(Float64) == 2
  {
  }

  /** calc_padded_numel: the least multiple of the alignment that holds the parameter. */
  function Padded(numel: nat, d: DType): (p: nat)
    ensures numel <= p < numel + Align(d)
    ensures p % Align(d) == 0
  {
    PaddedFacts(numel, Align(d));
    (numel + Align(d) - 1) / Align(d) * Align(d)
  }

  lemma {:induction false} PaddedFacts(numel: nat, align: nat)
    requires align >= 1
    ensures numel <= (numel + align - 1) / align * align < numel + align
    ensures (numel + align - 1) / align * align % align == 0
  {
    Arithmetic.MultipleModulo((numel + align - 1) / align, align);
  }

  /** How far a parameter moves the running start; `leftover` is the element type that the padding is computed
      with when that is not the parameter's own. */
  function Step(m: Meta, leftover: Option<DType>): nat {
    Padded(m.numel, if leftover.Some? then leftover.value else m.dtype)
  }

  /** The running start of the buffer for d after the first n parameters. */
  function Offset(metas: seq<Meta>, n: nat, d: DType, leftover: Option<DType>): nat
    requires n <= |metas|
  {
    if n == 0 then 0
    else Offset(metas, n - 1, d, leftover) + if metas[n - 1].dtype == d then Step(metas[n - 1], leftover) else 0
  }

  /** Where parameter i starts. */
  function Start(metas: seq<Meta>, i: nat, leftover: Option<DType>): nat
    requires i < |metas|
  {
    Offset(metas, i, metas[i].dtype, leftover)
  }

  /** The size of the buffer for d. */
  function Total(metas: seq<Meta>, d: DType): nat {
    Offset(metas, |metas|, d, None)
  }

  /** The check in MemoryBuffer.get when parameter i is given its place in buffers of these sizes. */
  predicate Fits(metas: seq<Meta>, i: nat, leftover: Option<DType>, sizes: map<DType, nat>)
    requires i < |metas|
  {
    && metas[i].dtype in sizes
    && Start(metas, i, leftover) + metas[i].numel <= sizes[metas[i].dtype]
  }

  predicate AllFit(metas: seq<Meta>, leftover: Option<DType>, sizes: map<DType, nat>) {
    forall i :: 0 <= i < |metas| ==> Fits(metas, i, leftover, sizes)
  }

  /** The element types in the order in which the parameters first use them. */
  function FirstSeen(metas: seq<Meta>, n: nat): (r: seq<DType>)
    requires n <= |metas|
    ensures forall d :: d in r <==> exists i :: 0 <= i < n && metas[i].dtype == d
    ensures Distinct(r)
    ensures n > 0 ==> r != []
  {
    if n == 0 then []
    else
      var before := FirstSeen(metas, n - 1);
      if metas[n - 1].dtype in before then before else before + [metas[n - 1].dtype]
  }

  function SizesFor(metas: seq<Meta>): map<DType, nat> {
    map d | d in FirstSeen(metas, |metas|) :: Total(metas, d)
  }

  lemma {:induction false} OffsetMonotone(metas: seq<Meta>, i: nat, j: nat, d: DType, leftover: Option<DType>)
    requires i <= j <= |metas|
    ensures Offset(metas, i, d, leftover) <= Offset(metas, j, d, leftover)
    decreases j
  {
    if i < j { OffsetMonotone(metas, i, j - 1, d, leftover); }
  }

  /** No two parameters of one element type overlap, whichever type the padding is computed with. */
  lemma {:induction false} ViewsDisjoint(metas: seq<Meta>, i: nat, j: nat, leftover: Option<DType>)
    requires i < j < |metas| && metas[i].dtype == metas[j].dtype
    ensures Start(metas, i, leftover) + metas[i].numel <= Start(metas, j, leftover)
  {
    OffsetMonotone(metas, i + 1, j, metas[i].dtype, leftover);
  }

  /** With its own padding every parameter lies inside the buffer sized for the same parameters, so the range
      check cannot fail. */
  lemma {:induction false} ViewsInRange(metas: seq<Meta>)
    ensures AllFit(metas, None, SizesFor(metas))
  {
    forall i | 0 <= i < |metas| ensures Fits(metas, i, None, SizesFor(metas)) {
      OffsetMonotone(metas, i + 1, |metas|, metas[i].dtype, None);
    }
  }

  /** The types whose padding is also a whole number of units for d: those at most as wide as d. */
  predicate AtMostAsWide(leftover: Option<DType>, d: DType) {
    leftover.Some? ==> Bits(leftover.value) <= Bits(d)
  }

  predicate AtLeastAsWide(leftover: DType, metas: seq<Meta>) {
    forall i :: 0 <= i < |metas| ==> Bits(leftover) >= Bits(metas[i].dtype)
  }

  lemma {:induction false} AlignDivides(wide: DType, narrow: DType)
    requires Bits(wide) >= Bits(narrow)
    ensures Align(narrow) == Align(narrow) / Align(wide) * Align(wide)
  {
  }

  lemma {:induction false} MultipleOfMultiple(p: nat, a: nat, b: nat)
    requires a >= 1 && b >= 1 && p % a == 0 && a == a / b * b
    ensures p == p / a * (a / b) * b && p % b == 0
  {
    var q, times := p / a, a / b;
    assert q * (times * b) == q * times * b;
    Arithmetic.MultipleModulo(q * times, b);
  }

  lemma {:induction false} StepAligned(m: Meta, leftover: Option<DType>)
    requires AtMostAsWide(leftover, m.dtype)
    ensures Step(m, leftover) % Align(m.dtype) == 0
  {
    if leftover.Some? {
      hide Padded, Align;
      AlignDivides(m.dtype, leftover.value);
      MultipleOfMultiple(Step(m, leftover), Align(leftover.value), Align(m.dtype));
    }
  }

  lemma {:induction false} SumAligned(a: nat, b: nat, k: nat)
    requires k >= 1 && a % k == 0 && b % k == 0
    ensures (a + b) % k == 0
  {
    Arithmetic.Distribute(a / k, b / k, k);
    Arithmetic.MultipleModulo(a / k + b / k, k);
  }

  /** Every parameter starts on a 128-bit boundary. */
  predicate StartsOnBoundary(metas: seq<Meta>, leftover: Option<DType>) {
    forall i :: 0 <= i < |metas| ==> Start(metas, i, leftover) * Bits(metas[i].dtype) % 128 == 0
  }

  /** Every parameter that another one of its type follows takes a whole number of units for that type. */
  predicate StepsWhole(metas: seq<Meta>, leftover: Option<DType>) {
    forall i, j :: 0 <= i < j < |metas| && metas[i].dtype == metas[j].dtype ==> Step(metas[i], leftover) % Align(metas[i].dtype) == 0
  }

  /** An offset is a multiple of the alignment exactly when it is a multiple of 128 bits. */
  lemma {:induction false} InBits(offset: nat, d: DType)
    ensures offset % Align(d) == 0 <==> offset * Bits(d) % 128 == 0
  {
    var a, b := Align(d), Bits(d);
    if offset % a == 0 {
      var q := offset / a;
      assert offset == q * a;
      assert q * a * b == q * (a * b);
      Arithmetic.MultipleModulo(q, 128);
    }
    if offset * b % 128 == 0 {
      var q := offset * b / 128;
      assert offset * b == q * (a * b) == q * a * b;
      Cancel(offset, q * a, b);
      Arithmetic.MultipleModulo(q, a);
    }
  }

  lemma {:induction false} Cancel(x: nat, y: nat, k: nat)
    requires k >= 1 && x * k == y * k
    ensures x == y
  {
    if x < y { Arithmetic.MulMonotone(x + 1, y, k); Arithmetic.Distribute(x, 1, k); }
    if y < x { Arithmetic.MulMonotone(y + 1, x, k); Arithmetic.Distribute(y, 1, k); }
  }

  /** Up to a parameter of type d all steps of that type are whole. */
  lemma {:induction false} WholeSteps(metas: seq<Meta>, n: nat, j: nat, leftover: Option<DType>)
    requires n <= j < |metas| && StepsWhole(metas, leftover)
    ensures Offset(metas, n, metas[j].dtype, leftover) % Align(metas[j].dtype) == 0
  {
    hide Step, Align;
    if n > 0 {
      WholeSteps(metas, n - 1, j, leftover);
      if metas[n - 1].dtype == metas[j].dtype {
        SumAligned(Offset(metas, n - 1, metas[j].dtype, leftover), Step(metas[n - 1], leftover), Align(metas[j].dtype));
      }
    }
  }

  lemma {:induction false} OffsetSame(metas: seq<Meta>, i: nat, j: nat, d: DType, leftover: Option<DType>)
    requires i <= j <= |metas| && forall k :: i <= k < j ==> metas[k].dtype != d
    ensures Offset(metas, i, d, leftover) == Offset(metas, j, d, leftover)
    decreases j
  {
    if i < j { OffsetSame(metas, i, j - 1, d, leftover); }
  }

  /** Two consecutive parameters of one type on boundaries: the first takes a whole number of units. */
  lemma {:induction false} StepBetween(metas: seq<Meta>, i: nat, j: nat, leftover: Option<DType>)
    requires i < j < |metas| && metas[i].dtype == metas[j].dtype && forall k :: i < k < j ==> metas[k].dtype != metas[i].dtype
    requires Start(metas, i, leftover) % Align(metas[i].dtype) == 0 && Start(metas, j, leftover) % Align(metas[i].dtype) == 0
    ensures Step(metas[i], leftover) % Align(metas[i].dtype) == 0
  {
    hide Step, Align;
    OffsetSame(metas, i + 1, j, metas[i].dtype, leftover);
    DifferenceAligned(Start(metas, i, leftover), Step(metas[i], leftover), Align(metas[i].dtype));
  }

  lemma {:induction false} DifferenceAligned(a: nat, b: nat, k: nat)
    requires k >= 1 && a % k == 0 && (a + b) % k == 0
    ensures b % k == 0
  {
    var p, q := a / k, (a + b) / k;
    assert a == p * k && a + b == q * k;
    if q < p { Arithmetic.MulMonotone(q, p, k); }
    Arithmetic.Distribute(q - p, p, k);
    Arithmetic.MultipleModulo(q - p, k);
  }

  function NextOfType(metas: seq<Meta>, i: nat, from: nat, j: nat): (k: nat)
    requires i < from <= j < |metas| && metas[i].dtype == metas[j].dtype
    ensures from <= k <= j && metas[k].dtype == metas[i].dtype
    ensures forall l :: from <= l < k ==> metas[l].dtype != metas[i].dtype
    decreases j - from
  {
    if metas[from].dtype == metas[i].dtype then from else NextOfType(metas, i, from + 1, j)
  }

  /** All starts are on 128-bit boundaries exactly when those steps are whole. */
  lemma {:induction false} AlignedExactly(metas: seq<Meta>, leftover: Option<DType>)
    ensures StartsOnBoundary(metas, leftover) <==> StepsWhole(metas, leftover)
  {
    hide Step, Align, Offset;
    forall i | 0 <= i < |metas|
      ensures Start(metas, i, leftover) % Align(metas[i].dtype) == 0 <==> Start(metas, i, leftover) * Bits(metas[i].dtype) % 128 == 0
    {
      InBits(Start(metas, i, leftover), metas[i].dtype);
    }
    if StepsWhole(metas, leftover) {
      forall i | 0 <= i < |metas| ensures Start(metas, i, leftover) % Align(metas[i].dtype) == 0 {
        WholeSteps(metas, i, i, leftover);
      }
    }
    if StartsOnBoundary(metas, leftover) {
      forall i, j | 0 <= i < j < |metas| && metas[i].dtype == metas[j].dtype
        ensures Step(metas[i], leftover) % Align(metas[i].dtype) == 0
      {
        StepBetween(metas, i, NextOfType(metas, i, i + 1, j), leftover);
      }
    }
  }

  /** In particular when the left-over type is at most as wide as every type in use, or there is none. */
  lemma {:induction false} NarrowLeftoverAligns(metas: seq<Meta>, leftover: Option<DType>)
    requires forall i :: 0 <= i < |metas| ==> AtMostAsWide(leftover, metas[i].dtype)
    ensures StartsOnBoundary(metas, leftover)
  {
    hide Step, Align, Bits;
    forall i | 0 <= i < |metas| ensures Step(metas[i], leftover) % Align(metas[i].dtype) == 0 {
      StepAligned(metas[i], leftover);
    }
    AlignedExactly(metas, leftover);
  }

  lemma {:induction false} LeastMultiple(numel: nat, align: nat, q: nat)
    requires align >= 1 && numel <= q * align
    ensures (numel + align - 1) / align * align <= q * align
  {
    var r := (numel + align - 1) / align;
    if r > q {
      Arithmetic.MulMonotone(q + 1, r, align);
      Arithmetic.Distribute(q, 1, align);
    }
  }

  /** No smaller multiple of the alignment holds the parameter. */
  lemma {:induction false} PaddedIsLeast(numel: nat, d: DType, p: nat)
    requires numel <= p && p % Align(d) == 0
    ensures Padded(numel, d) <= p
  {
    var a := Align(d);
    hide Align;
    Arithmetic.ExactQuotient(p, a);
    LeastMultiple(numel, a, p / a);
  }

  /** Padding for a type that is at least as wide never takes more room. */
  lemma {:induction false} WiderPadsLess(numel: nat, wide: DType, d: DType)
    requires Bits(wide) >= Bits(d)
    ensures Padded(numel, wide) <= Padded(numel, d)
  {
    hide Align, Padded;
    AlignDivides(wide, d);
    MultipleOfMultiple(Padded(numel, d), Align(d), Align(wide));
    PaddedIsLeast(numel, wide, Padded(numel, d));
  }

  lemma {:induction false} WiderOffsets(metas: seq<Meta>, n: nat, d: DType, leftover: DType)
    requires n <= |metas| && AtLeastAsWide(leftover, metas)
    ensures Offset(metas, n, d, Some(leftover)) <= Offset(metas, n, d, None)
  {
    if n > 0 {
      WiderOffsets(metas, n - 1, d, leftover);
      WiderPadsLess(metas[n - 1].numel, leftover, metas[n - 1].dtype);
    }
  }

  /** Padding everything for the widest type in use never runs out of the buffers. */
  lemma {:induction false} WidestLeftoverFits(metas: seq<Meta>, leftover: DType)
    requires AtLeastAsWide(leftover, metas)
    ensures AllFit(metas, Some(leftover), SizesFor(metas))
  {
    ViewsInRange(metas);
    forall i | 0 <= i < |metas| ensures Fits(metas, i, Some(leftover), SizesFor(metas)) {
      assert Fits(metas, i, None, SizesFor(metas));
      WiderOffsets(metas, i, metas[i].dtype, leftover);
    }
  }

  /** The element type left over from the loop over the buffers: the one first seen last. */
  function Leftover(metas: seq<Meta>): DType
    requires metas != []
  {
    var order := FirstSeen(metas, |metas|);
    order[|order| - 1]
  }

  /** Parameters of one element type: the leftover type is that type, everything fits and everything is aligned. */
  lemma {:induction false} OneTypeIsSafe(metas: seq<Meta>, d: DType)
    requires metas != [] && forall i :: 0 <= i < |metas| ==> metas[i].dtype == d
    ensures Leftover(metas) == d
    ensures AllFit(metas, Some(Leftover(metas)), SizesFor(metas))
    ensures forall i :: 0 <= i < |metas| ==> Start(metas, i, Some(Leftover(metas))) == Start(metas, i, None)
    ensures StartsOnBoundary(metas, Some(Leftover(metas)))
  {
    hide StartsOnBoundary, AllFit, Step, Offset, FirstSeen;
    var order := FirstSeen(metas, |metas|);
    assert order[|order| - 1] in order;
    WidestLeftoverFits(metas, d);
    NarrowLeftoverAligns(metas, Some(d));
    forall i | 0 <= i < |metas| ensures Start(metas, i, Some(d)) == Start(metas, i, None) {
      SameOffsets(metas, i, d);
    }
  }

  lemma {:induction false} SameOffsets(metas: seq<Meta>, n: nat, d: DType)
    requires n <= |metas|
    ensures Offset(metas, n, d, Some(d)) == Offset(metas, n, d, None)
  {
    if n > 0 { SameOffsets(metas, n - 1, d); }
  }

  /** Three one-element 32-bit parameters before a 16-bit one: padded for the 16-bit type, the third is out of
      the range of its buffer. */
  lemma {:induction false} NarrowLeftoverRunsOut()
    ensures var metas := [Meta(Float32, 1), Meta(Float32, 1), Meta(Float32, 1), Meta(BFloat16, 1)];
      && Leftover(metas) == BFloat16
      && Start(metas, 2, Some(Leftover(metas))) + 1 == 17
      && SizesFor(metas)[Float32] == 12
      && !AllFit(metas, Some(Leftover(metas)), SizesFor(metas))
  {
    var metas := [Meta(Float32, 1), Meta(Float32, 1), Meta(Float32, 1), Meta(BFloat16, 1)];
    assert FirstSeen(metas, 1) == [Float32];
    assert FirstSeen(metas, 2) == [Float32];
    assert FirstSeen(metas, 3) == [Float32];
    assert FirstSeen(metas, 4) == [Float32, BFloat16];
    assert Offset(metas, 1, Float32, Some(BFloat16)) == 8;
    assert Offset(metas, 2, Float32, Some(BFloat16)) == 16;
    assert Offset(metas, 1, Float32, None) == 4;
    assert Offset(metas, 2, Float32, None) == 8;
    assert Offset(metas, 3, Float32, None) == 12;
    assert Offset(metas, 4, Float32, None) == 12;
    assert !Fits(metas, 2, Some(BFloat16), SizesFor(metas));
  }

  /** Two one-element 16-bit parameters before a 32-bit one: padded for the 32-bit type, the second starts in
      the middle of a 128-bit unit. */
  lemma {:induction false} WideLeftoverMisaligns()
    ensures var metas := [Meta(BFloat16, 1), Meta(BFloat16, 1), Meta(Float32, 1)];
      && Leftover(metas) == Float32
      && Start(metas, 1, Some(Leftover(metas))) * Bits(BFloat16) == 64
      && !StartsOnBoundary(metas, Some(Leftover(metas)))
  {
    var metas := [Meta(BFloat16, 1), Meta(BFloat16, 1), Meta(Float32, 1)];
    assert FirstSeen(metas, 1) == [BFloat16];
    assert FirstSeen(metas, 2) == [BFloat16];
    assert FirstSeen(metas, 3) == [BFloat16, Float32];
    assert Offset(metas, 1, BFloat16, Some(Float32)) == 4;
  }
}
