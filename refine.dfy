/** Axis-wise midpoint refinement of an N-dimensional array (refine.py:7-36).

    An array is its shape and its elements in row-major order. Seen along one
    axis of length n it is a box (outer, n, inner): `outer` is the number of
    index combinations of the axes before it, `inner` that of the axes after
    it, and every slice along the axis keeps both. */
module Refine {
  import opened Failures
  import opened Lattice

  /** numpy's `size`: the number of elements of an array of this shape. */
  function Product(shape: seq<nat>): nat
  {
    if |shape| == 0 then 1 else Mul(shape[0], Product(shape[1..]))
  }

  lemma {:induction false} ProductAppend(s: seq<nat>, t: seq<nat>)
    ensures Product(s + t) == Mul(Product(s), Product(t))
  {
    if |s| == 0 {
      assert s + t == t;
    } else {
      DropAppend(s, t);
      ProductAppend(s[1..], t);
      MulNest(s[0], Product(s[1..]), Product(t));
    }
  }

  lemma {:induction false} DropAppend(s: seq<nat>, t: seq<nat>)
    requires |s| > 0
    ensures (s + t)[0] == s[0] && (s + t)[1..] == s[1..] + t
  {
  }

  /** x is a multi-index of an array of this shape: one index per axis, each
      below the axis length. */
  predicate InBounds(shape: seq<nat>, x: seq<nat>)
  {
    |x| == |shape| && (|x| > 0 ==> x[0] < shape[0] && InBounds(shape[1..], x[1..]))
  }

  /** Index by index: the recursive definition says what it should. */
  lemma {:induction false} InBoundsAt(shape: seq<nat>, x: seq<nat>)
    requires |x| == |shape|
    ensures InBounds(shape, x) <==> forall d :: 0 <= d < |x| ==> x[d] < shape[d]
  {
    if |x| > 0 {
      InBoundsAt(shape[1..], x[1..]);
      if forall d :: 0 <= d < |x| ==> x[d] < shape[d] {
        forall d | 0 <= d < |x| - 1 ensures x[1..][d] < shape[1..][d] {
          assert x[1..][d] == x[d + 1];
        }
      }
      if InBounds(shape, x) {
        forall d | 0 <= d < |x| ensures x[d] < shape[d] {
          if d > 0 {
            assert x[1..][d - 1] == x[d];
          }
        }
      }
    }
  }

  /** A multi-index of a joined shape is a multi-index of each part. */
  lemma {:induction false} InBoundsAppend(s: seq<nat>, t: seq<nat>, x: seq<nat>, y: seq<nat>)
    requires |x| == |s|
    ensures InBounds(s + t, x + y) <==> InBounds(s, x) && InBounds(t, y)
  {
    if |s| == 0 {
      assert s + t == t && x + y == y;
    } else {
      DropAppend(s, t);
      DropAppend(x, y);
      InBoundsAppend(s[1..], t, x[1..], y);
    }
  }

  /** Row-major flattening of a multi-index: numpy's layout of an array. */
  function Flatten(shape: seq<nat>, x: seq<nat>): (f: nat)
    requires InBounds(shape, x)
    ensures f < Product(shape)
  {
    if |shape| == 0 then 0
    else
      var rest := Flatten(shape[1..], x[1..]);
      PlaceBound(x[0], rest, shape[0], Product(shape[1..]));
      Mul(x[0], Product(shape[1..])) + rest
  }

  lemma {:induction false} FlattenAppend(s: seq<nat>, t: seq<nat>, x: seq<nat>, y: seq<nat>)
    requires InBounds(s, x) && InBounds(t, y)
    ensures InBounds(s + t, x + y)
    ensures Flatten(s + t, x + y) == Mul(Flatten(s, x), Product(t)) + Flatten(t, y)
  {
    if |s| == 0 {
      assert s + t == t && x + y == y;
    } else {
      DropAppend(s, t);
      DropAppend(x, y);
      InBoundsAppend(s, t, x, y);
      FlattenAppend(s[1..], t, x[1..], y);
      ProductAppend(s[1..], t);
      Regroup(x[0], Product(s[1..]), Flatten(s[1..], x[1..]), Product(t), Flatten(t, y));
    }
  }

  function Outer(shape: seq<nat>, axis: nat): nat
    requires axis < |shape|
  {
    Product(shape[..axis])
  }

  function Inner(shape: seq<nat>, axis: nat): nat
    requires axis < |shape|
  {
    Product(shape[axis + 1..])
  }

  lemma {:induction false} ProductAround(shape: seq<nat>, axis: nat)
    requires axis < |shape|
    ensures Product(shape) == Volume(Outer(shape, axis), shape[axis], Inner(shape, axis))
  {
    var suffix := [shape[axis]] + shape[axis + 1..];
    assert shape == shape[..axis] + suffix;
    assert suffix[1..] == shape[axis + 1..];
    ProductAppend(shape[..axis], suffix);
    var p, n, i := Outer(shape, axis), shape[axis], Inner(shape, axis);
    assert Product(suffix) == Mul(n, i);
    MulNest(p, n, i);
  }

  /** A multi-index seen along `axis`: its place among the outer axes, its
      index on the axis and its place among the inner axes. */
  lemma {:induction false} FlattenAround(shape: seq<nat>, axis: nat, x: seq<nat>)
    requires InBounds(shape, x) && axis < |shape|
    ensures InBounds(shape[..axis], x[..axis]) && InBounds(shape[axis + 1..], x[axis + 1..]) && x[axis] < shape[axis]
    ensures Flatten(shape[..axis], x[..axis]) < Outer(shape, axis)
    ensures Flatten(shape[axis + 1..], x[axis + 1..]) < Inner(shape, axis)
    ensures Flatten(shape, x) ==
      Idx3(Outer(shape, axis), shape[axis], Inner(shape, axis),
           Flatten(shape[..axis], x[..axis]), x[axis], Flatten(shape[axis + 1..], x[axis + 1..]))
  {
    InBoundsAround(shape, axis, x);
    assert x[axis := x[axis]] == x;
    FlattenWith(shape, axis, x, x[axis]);
  }

  /** The same, for a shape written as prefix, axis length and suffix. */
  lemma {:induction false} FlattenThrough(p: seq<nat>, n: nat, s: seq<nat>, y: seq<nat>, k: nat, z: seq<nat>)
    requires InBounds(p, y) && k < n && InBounds(s, z)
    ensures InBounds(p + ([n] + s), y + ([k] + z))
    ensures Flatten(p + ([n] + s), y + ([k] + z)) == Idx3(Product(p), n, Product(s), Flatten(p, y), k, Flatten(s, z))
  {
    FlattenCons(n, s, k, z);
    FlattenAppend(p, [n] + s, y, [k] + z);
    Regroup(Flatten(p, y), n, k, Product(s), Flatten(s, z));
  }

  lemma {:induction false} InBoundsAround(shape: seq<nat>, axis: nat, x: seq<nat>)
    requires InBounds(shape, x) && axis < |shape|
    ensures InBounds(shape[..axis], x[..axis]) && InBounds(shape[axis + 1..], x[axis + 1..])
    ensures x[axis] < shape[axis]
  {
    SplitAt(shape, axis);
    SplitAt(x, axis);
    InBoundsAppend(shape[..axis], [shape[axis]] + shape[axis + 1..], x[..axis], [x[axis]] + x[axis + 1..]);
    FlattenCons(shape[axis], shape[axis + 1..], x[axis], x[axis + 1..]);
  }

  lemma {:induction false} SplitAt(s: seq<nat>, k: nat)
    requires k < |s|
    ensures s == s[..k] + ([s[k]] + s[k + 1..])
  {
  }

  lemma {:induction false} FlattenCons(n: nat, s: seq<nat>, k: nat, y: seq<nat>)
    requires |y| == |s|
    ensures InBounds([n] + s, [k] + y) <==> k < n && InBounds(s, y)
    ensures Product([n] + s) == Mul(n, Product(s))
    ensures k < n && InBounds(s, y) ==> Flatten([n] + s, [k] + y) == Mul(k, Product(s)) + Flatten(s, y)
  {
    assert ([n] + s)[1..] == s && ([k] + y)[1..] == y;
  }

  /** The positions a slice picks along one axis: `first`, `first + step`, ...,
      `count` of them. */
  datatype Range = Range(first: nat, count: nat, step: nat)

  /** Every position the range picks lies on an axis of length n. */
  predicate Fits(r: Range, n: nat)
  {
    r.step >= 1 && (r.count > 0 ==> r.first + (r.count - 1) * r.step < n)
  }

  /** Position p is picked by the range... */
  predicate Hit(r: Range, p: nat)
  {
    r.step >= 1 && p >= r.first && (p - r.first) % r.step == 0 && (p - r.first) / r.step < r.count
  }

  /** ... as its Sel(r, p)-th position. */
  function Sel(r: Range, p: nat): nat
    requires r.step >= 1 && p >= r.first
  {
    (p - r.first) / r.step
  }

  lemma {:induction false} PickedInside(r: Range, n: nat, j: nat)
    requires Fits(r, n) && j < r.count
    ensures r.first + j * r.step < n
    ensures Hit(r, r.first + j * r.step) && Sel(r, r.first + j * r.step) == j
  {
    MulMonotone(j, r.count - 1, r.step);
    PairOf(j, 0, r.step);
  }

  lemma {:induction false} HitIsPicked(r: Range, p: nat)
    requires Hit(r, p)
    ensures p == r.first + Sel(r, p) * r.step
  {
    PairDecode(p - r.first, r.step);
  }

  /** Python's normalisation of a slice bound on an axis of length n (positive step). */
  function Bound(x: int, n: nat): (b: nat)
    ensures b <= n
    ensures 0 <= x <= n ==> b == x
    ensures -(n as int) <= x < 0 ==> b == x + n
  {
    if x < 0 then (if x + n < 0 then 0 else x + n) else if x > n then n else x
  }

  lemma {:induction false} CeilDiv(d: nat, step: nat)
    requires d > 0 && step >= 1
    ensures ((d + step - 1) / step - 1) * step < d <= ((d + step - 1) / step) * step
  {
    var c: int := (d + step - 1) / step;
    PairDecode(d + step - 1, step);
    assert (c - 1) * step == c * step - step;
  }

  /** `slice(start, stop, step)` on an axis of length n, for a positive step:
      the picked positions are those from `start` below `stop`, `step` apart
      (`single_slice`, refine.py:7-10, sets such a slice on one axis and takes
      every index on the others; that default is the box view). */
  function SliceOf(n: nat, start: int, stop: Option<int>, step: nat): (r: Range)
    requires step >= 1
    ensures r.step == step && r.first == Bound(start, n) && Fits(r, n)
    ensures var hi := if stop.Some? then Bound(stop.value, n) else n;
      (r.count > 0 ==> r.first + (r.count - 1) * step < hi) && r.first + r.count * step >= hi
  {
    var lo := Bound(start, n);
    var hi := if stop.Some? then Bound(stop.value, n) else n;
    if hi > lo then
      CeilDiv(hi - lo, step);
      Range(lo, (hi - lo + step - 1) / step, step)
    else
      Range(lo, 0, step)
  }

  /** `data[single_slice(ndim, axis, *args)]` on the box (outer, n, inner): the
      array of the picked layers, in order. */
  function Take(values: seq<real>, outer: nat, n: nat, inner: nat, r: Range): (t: seq<real>)
    requires |values| == Volume(outer, n, inner) && Fits(r, n)
    ensures |t| == Volume(outer, r.count, inner)
  {
    seq(Volume(outer, r.count, inner), q requires 0 <= q < Volume(outer, r.count, inner) => TakeAt(values, outer, n, inner, r, q))
  }

  function TakeAt(values: seq<real>, outer: nat, n: nat, inner: nat, r: Range, q: nat): real
    requires |values| == Volume(outer, n, inner) && Fits(r, n)
    requires q < Volume(outer, r.count, inner)
  {
    Decode(outer, r.count, inner, q);
    var j := Mid(r.count, inner, q);
    PickedInside(r, n, j);
    values[Idx3(outer, n, inner, Hi(r.count, inner, q), r.first + j * r.step, Lo(inner, q))]
  }

  /** Layer j of the taken array is layer `first + j * step` of the input. */
  lemma {:induction false} TakePicks(values: seq<real>, outer: nat, n: nat, inner: nat, r: Range, o: nat, j: nat, i: nat)
    requires |values| == Volume(outer, n, inner) && Fits(r, n)
    requires o < outer && j < r.count && i < inner
    ensures r.first + j * r.step < n
    ensures Take(values, outer, n, inner, r)[Idx3(outer, r.count, inner, o, j, i)]
         == values[Idx3(outer, n, inner, o, r.first + j * r.step, i)]
  {
    PickedInside(r, n, j);
    DecodeIdx3(outer, r.count, inner, o, j, i);
  }

  /** Elementwise `(a + b) / 2`. */
  function Midpoints(a: seq<real>, b: seq<real>): (c: seq<real>)
    requires |a| == |b|
    ensures |c| == |a|
    ensures forall k :: 0 <= k < |c| ==> c[k] - a[k] == b[k] - c[k]
  {
    seq(|a|, k requires 0 <= k < |a| => (a[k] + b[k]) / 2.0)
  }

  /** `unstagger` (refine.py:13-27): the mean of each pair of neighbouring
      layers, `(data[1:] + data[:-1]) / 2` along the axis. */
  function Unstagger(values: seq<real>, outer: nat, n: nat, inner: nat): (u: seq<real>)
    requires |values| == Volume(outer, n, inner)
    ensures n >= 1 ==> |u| == Volume(outer, n - 1, inner)
  {
    var upper := Take(values, outer, n, inner, SliceOf(n, 1, None, 1));
    var lower := Take(values, outer, n, inner, SliceOf(n, 0, Some(-1), 1));
    Midpoints(upper, lower)
  }

  lemma {:induction false} UnstaggerSlices(n: nat)
    requires n >= 1
    ensures SliceOf(n, 1, None, 1) == Range(1, n - 1, 1)
    ensures SliceOf(n, 0, Some(-1), 1) == Range(0, n - 1, 1)
  {
  }

  /** Layer k of `unstagger` is the midpoint of input layers k and k + 1. */
  lemma {:induction false} UnstaggerAt(values: seq<real>, outer: nat, n: nat, inner: nat, o: nat, k: nat, i: nat)
    requires |values| == Volume(outer, n, inner)
    requires o < outer && k + 1 < n && i < inner
    ensures Unstagger(values, outer, n, inner)[Idx3(outer, n - 1, inner, o, k, i)]
         == (values[Idx3(outer, n, inner, o, k, i)] + values[Idx3(outer, n, inner, o, k + 1, i)]) / 2.0
  {
    UnstaggerSlices(n);
    TakePicks(values, outer, n, inner, SliceOf(n, 1, None, 1), o, k, i);
    TakePicks(values, outer, n, inner, SliceOf(n, 0, Some(-1), 1), o, k, i);
  }

  /** u holds the midpoints of neighbouring layers of values, place by place. */
  ghost predicate IsUnstaggered(u: seq<real>, values: seq<real>, outer: nat, n: nat, inner: nat)
  {
    n >= 1 && |values| == Volume(outer, n, inner) && |u| == Volume(outer, n - 1, inner) &&
    forall o: nat, k: nat, i: nat :: o < outer && k + 1 < n && i < inner ==>
      u[Idx3(outer, n - 1, inner, o, k, i)] ==
        (values[Idx3(outer, n, inner, o, k, i)] + values[Idx3(outer, n, inner, o, k + 1, i)]) / 2.0
  }

  lemma {:induction false} UnstaggerIs(values: seq<real>, outer: nat, n: nat, inner: nat)
    requires n >= 1 && |values| == Volume(outer, n, inner)
    ensures IsUnstaggered(Unstagger(values, outer, n, inner), values, outer, n, inner)
  {
    forall o: nat, k: nat, i: nat | o < outer && k + 1 < n && i < inner
      ensures Unstagger(values, outer, n, inner)[Idx3(outer, n - 1, inner, o, k, i)] ==
        (values[Idx3(outer, n, inner, o, k, i)] + values[Idx3(outer, n, inner, o, k + 1, i)]) / 2.0
    {
      UnstaggerAt(values, outer, n, inner, o, k, i);
    }
  }

  /** On an axis of length 2n - 1: the n even positions and the n - 1 odd ones. */
  function EvenLayers(n: nat): Range
  {
    Range(0, n, 2)
  }

  function OddLayers(n: nat): Range
    requires n >= 1
  {
    Range(1, n - 1, 2)
  }

  /** The two strided slices `refine` writes into (refine.py:34-35),
      `0::2` and `1::2` on the refined axis, are the even and the odd layers. */
  lemma {:induction false} LayerSlices(n: nat)
    requires n >= 1
    ensures SliceOf(2 * n - 1, 0, None, 2) == EvenLayers(n)
    ensures SliceOf(2 * n - 1, 1, None, 2) == OddLayers(n)
  {
  }

  /** `a[single_slice(ndim, axis, *args)] = src` on the box (outer, m, inner),
      as a value: the picked layers receive the layers of src in order, all
      other places keep their values. */
  function Assign(a: seq<real>, outer: nat, m: nat, inner: nat, r: Range, src: seq<real>): (b: seq<real>)
    requires |a| == Volume(outer, m, inner) && Fits(r, m) && |src| == Volume(outer, r.count, inner)
    ensures |b| == |a|
  {
    seq(|a|, q requires 0 <= q < |a| => AssignAt(a, outer, m, inner, r, src, q))
  }

  function AssignAt(a: seq<real>, outer: nat, m: nat, inner: nat, r: Range, src: seq<real>, q: nat): real
    requires |a| == Volume(outer, m, inner) && Fits(r, m) && |src| == Volume(outer, r.count, inner)
    requires q < |a|
  {
    Decode(outer, m, inner, q);
    var o, p, i := Hi(m, inner, q), Mid(m, inner, q), Lo(inner, q);
    if Hit(r, p) then src[Idx3(outer, r.count, inner, o, Sel(r, p), i)] else a[q]
  }

  /** Place (o, p, i) after the assignment. */
  lemma {:induction false} AssignPlace(a: seq<real>, outer: nat, m: nat, inner: nat, r: Range, src: seq<real>, o: nat, p: nat, i: nat)
    requires |a| == Volume(outer, m, inner) && Fits(r, m) && |src| == Volume(outer, r.count, inner)
    requires o < outer && p < m && i < inner
    ensures Hit(r, p) ==> Sel(r, p) < r.count
    ensures Assign(a, outer, m, inner, r, src)[Idx3(outer, m, inner, o, p, i)] ==
      if Hit(r, p) then src[Idx3(outer, r.count, inner, o, Sel(r, p), i)] else a[Idx3(outer, m, inner, o, p, i)]
  {
    DecodeIdx3(outer, m, inner, o, p, i);
  }

  /** b is a with the layers picked by r replaced, in order, by the layers
      of src: the assignment place by place. */
  ghost predicate IsAssigned(b: seq<real>, a: seq<real>, outer: nat, m: nat, inner: nat, r: Range, src: seq<real>)
  {
    |a| == Volume(outer, m, inner) && |b| == |a| && Fits(r, m) && |src| == Volume(outer, r.count, inner) &&
    forall o: nat, p: nat, i: nat :: o < outer && p < m && i < inner ==>
      b[Idx3(outer, m, inner, o, p, i)] ==
        if Hit(r, p) then src[Idx3(outer, r.count, inner, o, Sel(r, p), i)] else a[Idx3(outer, m, inner, o, p, i)]
  }

  lemma {:induction false} AssignIs(a: seq<real>, outer: nat, m: nat, inner: nat, r: Range, src: seq<real>)
    requires |a| == Volume(outer, m, inner) && Fits(r, m) && |src| == Volume(outer, r.count, inner)
    ensures IsAssigned(Assign(a, outer, m, inner, r, src), a, outer, m, inner, r, src)
  {
    forall o: nat, p: nat, i: nat | o < outer && p < m && i < inner
      ensures Assign(a, outer, m, inner, r, src)[Idx3(outer, m, inner, o, p, i)] ==
        if Hit(r, p) then src[Idx3(outer, r.count, inner, o, Sel(r, p), i)] else a[Idx3(outer, m, inner, o, p, i)]
    {
      AssignPlace(a, outer, m, inner, r, src, o, p, i);
    }
  }

  /** `np.zeros` of the given size. */
  function Zeros(size: nat): (z: seq<real>)
    ensures |z| == size && forall q :: 0 <= q < size ==> z[q] == 0.0
  {
    seq(size, _ => 0.0)
  }

  /** The refined box (outer, 2n - 1, inner) as `refine` builds it: zeros,
      then the even layers set to the input, then the odd layers set to
      `unstagger` of the input (refine.py:32-35). */
  function RefinedBox(values: seq<real>, outer: nat, n: nat, inner: nat): (out: seq<real>)
    requires n >= 1 && |values| == Volume(outer, n, inner)
    ensures |out| == Volume(outer, 2 * n - 1, inner)
  {
    var m := 2 * n - 1;
    var evens := Assign(Zeros(Volume(outer, m, inner)), outer, m, inner, EvenLayers(n), values);
    Assign(evens, outer, m, inner, OddLayers(n), Unstagger(values, outer, n, inner))
  }

  /** Along an axis of length 2n - 1 the even slice picks exactly the even
      positions and the odd slice exactly the odd ones, both as position p / 2. */
  lemma {:induction false} LayerParity(n: nat, p: nat)
    requires n >= 1 && p < 2 * n - 1
    ensures Hit(EvenLayers(n), p) <==> p % 2 == 0
    ensures Hit(OddLayers(n), p) <==> p % 2 == 1
    ensures p % 2 == 0 ==> Sel(EvenLayers(n), p) == p / 2
    ensures p % 2 == 1 ==> Sel(OddLayers(n), p) == p / 2
  {
  }

  /** The shape `refine` allocates (refine.py:31-32). */
  function NewShape(shape: seq<nat>, axis: nat): (s: seq<nat>)
    requires axis < |shape| && shape[axis] >= 1
  {
    shape[axis := 2 * shape[axis] - 1]
  }

  lemma {:induction false} NewShapeAround(shape: seq<nat>, axis: nat)
    requires axis < |shape| && shape[axis] >= 1
    ensures |NewShape(shape, axis)| == |shape|
    ensures Outer(NewShape(shape, axis), axis) == Outer(shape, axis)
    ensures Inner(NewShape(shape, axis), axis) == Inner(shape, axis)
    ensures Product(NewShape(shape, axis)) == Volume(Outer(shape, axis), 2 * shape[axis] - 1, Inner(shape, axis))
    ensures NewShape(shape, axis)[..axis] == shape[..axis]
    ensures NewShape(shape, axis)[axis + 1..] == shape[axis + 1..]
  {
    assert NewShape(shape, axis)[..axis] == shape[..axis];
    assert NewShape(shape, axis)[axis + 1..] == shape[axis + 1..];
    ProductAround(NewShape(shape, axis), axis);
  }

  /** The array `refine(data, axis)` returns, as a value. */
  function Refined(values: seq<real>, shape: seq<nat>, axis: nat): (out: seq<real>)
    requires axis < |shape| && shape[axis] >= 1 && |values| == Product(shape)
    ensures |out| == Product(NewShape(shape, axis))
  {
    ProductAround(shape, axis);
    NewShapeAround(shape, axis);
    RefinedBox(values, Outer(shape, axis), shape[axis], Inner(shape, axis))
  }

  /** The refined box, characterised place by place: layer 2k of `out` is
      layer k of `values`, layer 2k + 1 the mean of layers k and k + 1. */
  ghost predicate IsRefinedBox(out: seq<real>, values: seq<real>, outer: nat, n: nat, inner: nat)
  {
    n >= 1 && |values| == Volume(outer, n, inner) && |out| == Volume(outer, 2 * n - 1, inner) &&
    forall o: nat, p: nat, i: nat :: o < outer && p < 2 * n - 1 && i < inner ==>
      out[Idx3(outer, 2 * n - 1, inner, o, p, i)] ==
        if p % 2 == 0 then values[Idx3(outer, n, inner, o, p / 2, i)]
        else (values[Idx3(outer, n, inner, o, p / 2, i)] + values[Idx3(outer, n, inner, o, p / 2 + 1, i)]) / 2.0
  }

  /** `RefinedBox` is the refined box. */
  lemma {:induction false} RefinedBoxIs(values: seq<real>, outer: nat, n: nat, inner: nat)
    requires n >= 1 && |values| == Volume(outer, n, inner)
    ensures IsRefinedBox(RefinedBox(values, outer, n, inner), values, outer, n, inner)
  {
    var m := 2 * n - 1;
    var zeros := Zeros(Volume(outer, m, inner));
    var evens := Assign(zeros, outer, m, inner, EvenLayers(n), values);
    var u := Unstagger(values, outer, n, inner);
    AssignIs(zeros, outer, m, inner, EvenLayers(n), values);
    UnstaggerIs(values, outer, n, inner);
    AssignIs(evens, outer, m, inner, OddLayers(n), u);
    var b := Assign(evens, outer, m, inner, OddLayers(n), u);
    assert RefinedBox(values, outer, n, inner) == b;
    BoxIs(b, evens, zeros, u, values, outer, n, inner);
  }

  /** Writing the input into the even layers of any box of the refined size
      and the midpoints into its odd layers gives the refined box. */
  lemma {:induction false} BoxIs(b: seq<real>, evens: seq<real>, zeros: seq<real>, u: seq<real>, values: seq<real>, outer: nat, n: nat, inner: nat)
    requires n >= 1 && |values| == Volume(outer, n, inner)
    requires IsUnstaggered(u, values, outer, n, inner)
    requires IsAssigned(evens, zeros, outer, 2 * n - 1, inner, EvenLayers(n), values)
    requires IsAssigned(b, evens, outer, 2 * n - 1, inner, OddLayers(n), u)
    ensures IsRefinedBox(b, values, outer, n, inner)
  {
    forall o: nat, p: nat, i: nat | o < outer && p < 2 * n - 1 && i < inner
      ensures b[Idx3(outer, 2 * n - 1, inner, o, p, i)] ==
        if p % 2 == 0 then values[Idx3(outer, n, inner, o, p / 2, i)]
        else (values[Idx3(outer, n, inner, o, p / 2, i)] + values[Idx3(outer, n, inner, o, p / 2 + 1, i)]) / 2.0
    {
      LayerParity(n, p);
    }
  }

  /** At most one box is the refined box of given values. */
  lemma {:induction false} BoxUnique(a: seq<real>, b: seq<real>, values: seq<real>, outer: nat, n: nat, inner: nat)
    requires IsRefinedBox(a, values, outer, n, inner) && IsRefinedBox(b, values, outer, n, inner)
    ensures a == b
  {
    forall q | 0 <= q < |a|
      ensures a[q] == b[q]
    {
      Decode(outer, 2 * n - 1, inner, q);
      var o, p, i := Hi(2 * n - 1, inner, q), Mid(2 * n - 1, inner, q), Lo(inner, q);
      BoxAt(a, values, outer, n, inner, o, p, i);
      BoxAt(b, values, outer, n, inner, o, p, i);
    }
  }

  /** The sample of a refined box at (o, p, i), as `IsRefinedBox` fixes it. */
  lemma {:induction false} BoxAt(out: seq<real>, values: seq<real>, outer: nat, n: nat, inner: nat, o: nat, p: nat, i: nat)
    requires IsRefinedBox(out, values, outer, n, inner)
    requires o < outer && p < 2 * n - 1 && i < inner
    ensures out[Idx3(outer, 2 * n - 1, inner, o, p, i)] ==
      if p % 2 == 0 then values[Idx3(outer, n, inner, o, p / 2, i)]
      else (values[Idx3(outer, n, inner, o, p / 2, i)] + values[Idx3(outer, n, inner, o, p / 2 + 1, i)]) / 2.0
  {
  }

  /** The whole meaning of `refine`: at a multi-index of the refined array
      whose axis index is 2k the sample is the input's at index k; where it is
      2k + 1 it is the mean of the input's samples at k and k + 1; all other
      indices are kept. */
  lemma {:induction false} RefinedSample(values: seq<real>, shape: seq<nat>, axis: nat, x: seq<nat>)
    requires axis < |shape| && shape[axis] >= 1 && |values| == Product(shape)
    requires InBounds(NewShape(shape, axis), x)
    ensures InBounds(shape, x[axis := x[axis] / 2])
    ensures x[axis] % 2 == 1 ==> InBounds(shape, x[axis := x[axis] / 2 + 1])
    ensures Refined(values, shape, axis)[Flatten(NewShape(shape, axis), x)] ==
      if x[axis] % 2 == 0 then values[Flatten(shape, x[axis := x[axis] / 2])]
      else (values[Flatten(shape, x[axis := x[axis] / 2])] + values[Flatten(shape, x[axis := x[axis] / 2 + 1])]) / 2.0
  {
    ProductAround(shape, axis);
    RefinedBoxIs(values, Outer(shape, axis), shape[axis], Inner(shape, axis));
    if x[axis] % 2 == 0 {
      SampleEven(Refined(values, shape, axis), values, shape, axis, x);
    } else {
      SampleOdd(Refined(values, shape, axis), values, shape, axis, x);
    }
  }

  lemma {:induction false} SampleEven(out: seq<real>, values: seq<real>, shape: seq<nat>, axis: nat, x: seq<nat>)
    requires axis < |shape| && IsRefinedBox(out, values, Outer(shape, axis), shape[axis], Inner(shape, axis))
    requires InBounds(NewShape(shape, axis), x) && x[axis] % 2 == 0
    ensures |values| == Product(shape) && |out| == Product(NewShape(shape, axis))
    ensures InBounds(shape, x[axis := x[axis] / 2])
    ensures out[Flatten(NewShape(shape, axis), x)] == values[Flatten(shape, x[axis := x[axis] / 2])]
  {
    var o, i := BoxPlace(shape, axis, x);
    FlattenWith(shape, axis, x, x[axis] / 2);
  }

  lemma {:induction false} SampleOdd(out: seq<real>, values: seq<real>, shape: seq<nat>, axis: nat, x: seq<nat>)
    requires axis < |shape| && IsRefinedBox(out, values, Outer(shape, axis), shape[axis], Inner(shape, axis))
    requires InBounds(NewShape(shape, axis), x) && x[axis] % 2 == 1
    ensures |values| == Product(shape) && |out| == Product(NewShape(shape, axis))
    ensures InBounds(shape, x[axis := x[axis] / 2]) && InBounds(shape, x[axis := x[axis] / 2 + 1])
    ensures out[Flatten(NewShape(shape, axis), x)] ==
      (values[Flatten(shape, x[axis := x[axis] / 2])] + values[Flatten(shape, x[axis := x[axis] / 2 + 1])]) / 2.0
  {
    var o, i := BoxPlace(shape, axis, x);
    FlattenWith(shape, axis, x, x[axis] / 2);
    FlattenWith(shape, axis, x, x[axis] / 2 + 1);
  }

  /** Where a multi-index of the refined array lands in its box view. */
  lemma {:induction false} BoxPlace(shape: seq<nat>, axis: nat, x: seq<nat>) returns (o: nat, i: nat)
    requires axis < |shape| && shape[axis] >= 1
    requires InBounds(NewShape(shape, axis), x)
    ensures |x| == |shape| && x[axis] < 2 * shape[axis] - 1
    ensures Product(shape) == Volume(Outer(shape, axis), shape[axis], Inner(shape, axis))
    ensures Product(NewShape(shape, axis)) == Volume(Outer(shape, axis), 2 * shape[axis] - 1, Inner(shape, axis))
    ensures InBounds(shape[..axis], x[..axis]) && InBounds(shape[axis + 1..], x[axis + 1..])
    ensures o == Flatten(shape[..axis], x[..axis]) && i == Flatten(shape[axis + 1..], x[axis + 1..])
    ensures o < Outer(shape, axis) && i < Inner(shape, axis)
    ensures Flatten(NewShape(shape, axis), x) == Idx3(Outer(shape, axis), 2 * shape[axis] - 1, Inner(shape, axis), o, x[axis], i)
  {
    var ns := NewShape(shape, axis);
    ProductAround(shape, axis);
    NewShapeAround(shape, axis);
    InBoundsAround(ns, axis, x);
    FlattenAround(ns, axis, x);
    o, i := Flatten(shape[..axis], x[..axis]), Flatten(shape[axis + 1..], x[axis + 1..]);
  }

  /** The flat position of x with its axis index replaced by v. */
  lemma {:induction false} FlattenWith(shape: seq<nat>, axis: nat, x: seq<nat>, v: nat)
    requires axis < |shape| && |x| == |shape| && v < shape[axis]
    requires InBounds(shape[..axis], x[..axis]) && InBounds(shape[axis + 1..], x[axis + 1..])
    ensures InBounds(shape, x[axis := v])
    ensures Flatten(shape, x[axis := v]) ==
      Idx3(Outer(shape, axis), shape[axis], Inner(shape, axis),
           Flatten(shape[..axis], x[..axis]), v, Flatten(shape[axis + 1..], x[axis + 1..]))
  {
    SplitAt(shape, axis);
    assert x[axis := v] == x[..axis] + ([v] + x[axis + 1..]);
    FlattenThrough(shape[..axis], shape[axis], shape[axis + 1..], x[..axis], v, x[axis + 1..]);
  }

  /** Changing the axis index of a multi-index to another index of the
      refined axis gives a multi-index of the refined array. */
  lemma {:induction false} InBoundsRefined(shape: seq<nat>, axis: nat, x: seq<nat>, v: nat)
    requires InBounds(shape, x) && axis < |shape| && shape[axis] >= 1 && v < 2 * shape[axis] - 1
    ensures InBounds(NewShape(shape, axis), x[axis := v])
  {
    InBoundsAround(shape, axis, x);
    NewShapeAround(shape, axis);
    FlattenWith(NewShape(shape, axis), axis, x, v);
  }

  /** Even positions along the axis hold the input unchanged (refine.py:34). */
  lemma {:induction false} RefinedEven(values: seq<real>, shape: seq<nat>, axis: nat, x: seq<nat>)
    requires axis < |shape| && shape[axis] >= 1 && |values| == Product(shape)
    requires InBounds(shape, x)
    ensures InBounds(NewShape(shape, axis), x[axis := 2 * x[axis]])
    ensures Refined(values, shape, axis)[Flatten(NewShape(shape, axis), x[axis := 2 * x[axis]])]
         == values[Flatten(shape, x)]
  {
    ProductAround(shape, axis);
    RefinedBoxIs(values, Outer(shape, axis), shape[axis], Inner(shape, axis));
    EvenAt(Refined(values, shape, axis), values, shape, axis, x);
  }

  lemma {:induction false} EvenAt(out: seq<real>, values: seq<real>, shape: seq<nat>, axis: nat, x: seq<nat>)
    requires axis < |shape| && IsRefinedBox(out, values, Outer(shape, axis), shape[axis], Inner(shape, axis))
    requires InBounds(shape, x)
    ensures |values| == Product(shape) && |out| == Product(NewShape(shape, axis))
    ensures InBounds(NewShape(shape, axis), x[axis := 2 * x[axis]])
    ensures out[Flatten(NewShape(shape, axis), x[axis := 2 * x[axis]])] == values[Flatten(shape, x)]
  {
    var y := x[axis := 2 * x[axis]];
    InBoundsAround(shape, axis, x);
    InBoundsRefined(shape, axis, x, 2 * x[axis]);
    SampleEven(out, values, shape, axis, y);
    assert y[axis := y[axis] / 2] == x;
  }

  /** Odd positions along the axis hold midpoints (refine.py:24-27, 35). */
  lemma {:induction false} RefinedOdd(values: seq<real>, shape: seq<nat>, axis: nat, x: seq<nat>)
    requires axis < |shape| && shape[axis] >= 1 && |values| == Product(shape)
    requires InBounds(shape, x) && x[axis] + 1 < shape[axis]
    ensures InBounds(NewShape(shape, axis), x[axis := 2 * x[axis] + 1])
    ensures InBounds(shape, x[axis := x[axis] + 1])
    ensures Refined(values, shape, axis)[Flatten(NewShape(shape, axis), x[axis := 2 * x[axis] + 1])]
         == (values[Flatten(shape, x)] + values[Flatten(shape, x[axis := x[axis] + 1])]) / 2.0
  {
    ProductAround(shape, axis);
    RefinedBoxIs(values, Outer(shape, axis), shape[axis], Inner(shape, axis));
    OddAt(Refined(values, shape, axis), values, shape, axis, x);
  }

  lemma {:induction false} OddAt(out: seq<real>, values: seq<real>, shape: seq<nat>, axis: nat, x: seq<nat>)
    requires axis < |shape| && IsRefinedBox(out, values, Outer(shape, axis), shape[axis], Inner(shape, axis))
    requires InBounds(shape, x) && x[axis] + 1 < shape[axis]
    ensures |values| == Product(shape) && |out| == Product(NewShape(shape, axis))
    ensures InBounds(NewShape(shape, axis), x[axis := 2 * x[axis] + 1])
    ensures InBounds(shape, x[axis := x[axis] + 1])
    ensures out[Flatten(NewShape(shape, axis), x[axis := 2 * x[axis] + 1])]
         == (values[Flatten(shape, x)] + values[Flatten(shape, x[axis := x[axis] + 1])]) / 2.0
  {
    var y := x[axis := 2 * x[axis] + 1];
    InBoundsAround(shape, axis, x);
    InBoundsRefined(shape, axis, x, 2 * x[axis] + 1);
    SampleOdd(out, values, shape, axis, y);
    assert y[axis := y[axis] / 2] == x;
    assert y[axis := y[axis] / 2 + 1] == x[axis := x[axis] + 1];
  }

  /** An axis of length 1 passes through unchanged: its odd slice is empty. */
  lemma {:induction false} RefinedLengthOne(values: seq<real>, shape: seq<nat>, axis: nat)
    requires axis < |shape| && shape[axis] == 1 && |values| == Product(shape)
    ensures NewShape(shape, axis) == shape
    ensures Refined(values, shape, axis) == values
  {
    ProductAround(shape, axis);
    NewShapeAround(shape, axis);
    var outer, inner := Outer(shape, axis), Inner(shape, axis);
    RefinedBoxIs(values, outer, 1, inner);
    LengthOneBox(values, outer, inner);
    BoxUnique(Refined(values, shape, axis), values, values, outer, 1, inner);
  }

  /** With a single layer there is nothing to interpolate. */
  lemma {:induction false} LengthOneBox(values: seq<real>, outer: nat, inner: nat)
    requires |values| == Volume(outer, 1, inner)
    ensures IsRefinedBox(values, values, outer, 1, inner)
  {
  }

  /** Lexicographic progress over (selected layer, outer place, inner place). */
  predicate Done(r: Range, p: nat, o: nat, i: nat, j: nat, o0: nat, i0: nat)
  {
    Hit(r, p) && (Sel(r, p) < j || (Sel(r, p) == j && (o < o0 || (o == o0 && i < i0))))
  }

  /** `out[single_slice(ndim, axis, *args)] = src` in place, on the box
      (outer, m, inner): layer by layer, place by place. */
  method AssignAlong(out: array<real>, outer: nat, m: nat, inner: nat, r: Range, src: seq<real>)
    requires out.Length == Volume(outer, m, inner) && Fits(r, m)
    requires |src| == Volume(outer, r.count, inner)
    modifies out
    ensures IsAssigned(out[..], old(out[..]), outer, m, inner, r, src)
  {
    ghost var a := out[..];
    var j := 0;
    while j < r.count
      invariant j <= r.count
      invariant forall o: nat, p: nat, i: nat :: o < outer && p < m && i < inner ==>
        out[Idx3(outer, m, inner, o, p, i)] ==
          if Done(r, p, o, i, j, 0, 0) then src[Idx3(outer, r.count, inner, o, Sel(r, p), i)]
          else a[Idx3(outer, m, inner, o, p, i)]
    {
      var p := r.first + j * r.step;
      PickedInside(r, m, j);
      var o := 0;
      while o < outer
        invariant o <= outer
        invariant forall o': nat, p': nat, i': nat :: o' < outer && p' < m && i' < inner ==>
          out[Idx3(outer, m, inner, o', p', i')] ==
            if Done(r, p', o', i', j, o, 0) then src[Idx3(outer, r.count, inner, o', Sel(r, p'), i')]
            else a[Idx3(outer, m, inner, o', p', i')]
      {
        var i := 0;
        while i < inner
          invariant i <= inner
          invariant forall o': nat, p': nat, i': nat :: o' < outer && p' < m && i' < inner ==>
            out[Idx3(outer, m, inner, o', p', i')] ==
              if Done(r, p', o', i', j, o, i) then src[Idx3(outer, r.count, inner, o', Sel(r, p'), i')]
              else a[Idx3(outer, m, inner, o', p', i')]
        {
          ghost var before := out[..];
          out[Idx3(outer, m, inner, o, p, i)] := src[Idx3(outer, r.count, inner, o, j, i)];
          forall o': nat, p': nat, i': nat | o' < outer && p' < m && i' < inner
            ensures out[Idx3(outer, m, inner, o', p', i')] ==
              if Done(r, p', o', i', j, o, i + 1) then src[Idx3(outer, r.count, inner, o', Sel(r, p'), i')]
              else a[Idx3(outer, m, inner, o', p', i')]
          {
            if o' != o || p' != p || i' != i {
              Idx3Distinct(outer, m, inner, o', p', i', o, p, i);
              assert out[Idx3(outer, m, inner, o', p', i')] == before[Idx3(outer, m, inner, o', p', i')];
              if Hit(r, p') && Sel(r, p') == j {
                HitIsPicked(r, p');
              }
            }
          }
          i := i + 1;
        }
        o := o + 1;
      }
      j := j + 1;
    }
  }

  /** The body of `refine` on the box view (outer, n, inner) of the input:
      allocate the refined box, then write the even and the odd layers. */
  method RefineBox(data: array<real>, outer: nat, n: nat, inner: nat) returns (out: array<real>)
    requires n >= 1 && data.Length == Volume(outer, n, inner)
    ensures fresh(out) && IsRefinedBox(out[..], data[..], outer, n, inner)
  {
    var m := 2 * n - 1;
    var values := data[..];
    out := new real[Volume(outer, m, inner)](_ => 0.0);
    LayerSlices(n);
    ghost var zeros := out[..];
    AssignAlong(out, outer, m, inner, SliceOf(m, 0, None, 2), values);
    ghost var evens := out[..];
    var u := Unstagger(values, outer, n, inner);
    UnstaggerIs(values, outer, n, inner);
    AssignAlong(out, outer, m, inner, SliceOf(m, 1, None, 2), u);
    BoxIs(out[..], evens, zeros, u, values, outer, n, inner);
  }

  /** `refine(data, axis)` (refine.py:30-36): a fresh array of the new shape,
      zero-filled, whose even layers along the axis receive the input and
      whose odd layers receive `unstagger`. The input is not modified. */
  method Refine(data: array<real>, shape: seq<nat>, axis: nat) returns (r: Result<array<real>>)
    requires data.Length == Product(shape)
    ensures r.Err? <==> axis >= |shape| || shape[axis] == 0
    ensures r.Err? ==> r.error == if axis >= |shape| then AxisOutOfRange else NegativeDimension
    ensures r.Ok? ==> fresh(r.value) && r.value[..] == Refined(data[..], shape, axis)
  {
    if axis >= |shape| {
      return Err(AxisOutOfRange);
    }
    var n := shape[axis];
    if n == 0 {
      return Err(NegativeDimension);
    }
    ProductAround(shape, axis);
    var out := RefineBox(data, Outer(shape, axis), n, Inner(shape, axis));
    RefinedBoxIs(data[..], Outer(shape, axis), n, Inner(shape, axis));
    BoxUnique(out[..], Refined(data[..], shape, axis), data[..], Outer(shape, axis), n, Inner(shape, axis));
    return Ok(out);
  }
}
