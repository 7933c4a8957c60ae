/** Row-major index arithmetic on a box of shape (A, w1, w2): the coordinate
    (a, b, c) sits at flat position (a * w1 + b) * w2 + c. Both cores reduce
    to this: a grid seen as (outer, axis, inner) and the node lattice of the
    hexahedral mesh.

    Products of sizes are written with Mul, multiplication as repeated
    addition: its definition unfolds one step at a time, so a proof about
    positions sees only linear facts unless it asks for MulIs. */
module Lattice {

  function Mul(a: nat, w: nat): nat
    decreases a
  {
    if a == 0 then 0 else Mul(a - 1, w) + w
  }

  /** The number of places in the box (a, w1, w2). */
  function Volume(a: nat, w1: nat, w2: nat): nat
  {
    Mul(Mul(a, w1), w2)
  }

  /** The flat position of an in-range coordinate; it lies inside the box. */
  function Idx3(bound: nat, w1: nat, w2: nat, a: nat, b: nat, c: nat): (q: nat)
    requires a < bound && b < w1 && c < w2
    ensures q < Volume(bound, w1, w2)
  {
    PlaceBound(a, b, bound, w1);
    PlaceBound(Mul(a, w1) + b, c, Mul(bound, w1), w2);
    Mul(Mul(a, w1) + b, w2) + c
  }

  /** Integer quotient and remainder of q by w, by repeated subtraction. */
  function Quot(q: nat, w: nat): nat
    requires w > 0
    decreases q
  {
    if q < w then 0 else Quot(q - w, w) + 1
  }

  function Rem(q: nat, w: nat): nat
    requires w > 0
    decreases q
  {
    if q < w then q else Rem(q - w, w)
  }

  /** Division by w2 and then by w1: the three coordinates of a flat position. */
  function Hi(w1: nat, w2: nat, q: nat): nat
    requires w1 > 0 && w2 > 0
  {
    Quot(Quot(q, w2), w1)
  }

  function Mid(w1: nat, w2: nat, q: nat): nat
    requires w1 > 0 && w2 > 0
  {
    Rem(Quot(q, w2), w1)
  }

  function Lo(w2: nat, q: nat): nat
    requires w2 > 0
  {
    Rem(q, w2)
  }

  lemma {:induction false} MulIs(a: nat, w: nat)
    ensures Mul(a, w) == a * w
    decreases a
  {
    if a > 0 {
      MulIs(a - 1, w);
      MulDistrib(a - 1, 1, w);
    }
  }

  lemma {:induction false} VolumeIs(a: nat, w1: nat, w2: nat)
    ensures Volume(a, w1, w2) == a * w1 * w2
  {
    MulIs(a, w1);
    MulIs(Mul(a, w1), w2);
  }

  lemma {:induction false} MulAssoc(a: int, b: int, c: int)
    ensures a * (b * c) == a * b * c
  {
  }

  lemma {:induction false} MulDistrib(a: int, b: int, c: int)
    ensures (a + b) * c == a * c + b * c
  {
  }

  /** Blocks of blocks: a blocks of (n blocks of w) are a * n blocks of w. */
  lemma {:induction false} MulNest(a: nat, n: nat, w: nat)
    ensures Mul(a, Mul(n, w)) == Mul(Mul(a, n), w)
  {
    MulIs(n, w);
    MulIs(a, n * w);
    MulIs(a, n);
    MulIs(a * n, w);
    MulAssoc(a, n, w);
  }

  /** Regrouping a position of the box (A, n, w) laid out as A blocks of n * w:
      block f, then block k of size w inside it, then offset g. */
  lemma {:induction false} Regroup(f: nat, n: nat, k: nat, w: nat, g: nat)
    ensures Mul(f, Mul(n, w)) + (Mul(k, w) + g) == Mul(Mul(f, n) + k, w) + g
  {
    MulIs(n, w);
    MulIs(f, n * w);
    MulIs(k, w);
    MulIs(f, n);
    MulIs(f * n + k, w);
    MulAssoc(f, n, w);
    MulDistrib(f * n, k, w);
  }

  lemma {:induction false} MulMonotone(a: nat, b: nat, w: nat)
    requires a <= b
    ensures a * w <= b * w
  {
    assert b * w == a * w + (b - a) * w;
  }

  lemma {:induction false} MulGrows(a: nat, b: nat, w: nat)
    requires a <= b
    ensures Mul(a, w) <= Mul(b, w)
  {
    MulIs(a, w);
    MulIs(b, w);
    MulMonotone(a, b, w);
  }

  lemma {:induction false} PairBound(a: nat, r: nat, bound: nat, w: nat)
    requires a < bound && r < w
    ensures a * w + r < bound * w
  {
    MulMonotone(a + 1, bound, w);
    assert (a + 1) * w == a * w + w;
  }

  /** Block a of size w, offset r < w, lies before the end of block bound - 1. */
  lemma {:induction false} PlaceBound(a: nat, r: nat, bound: nat, w: nat)
    requires a < bound && r < w
    ensures Mul(a, w) + r < Mul(bound, w)
  {
    MulIs(a, w);
    MulIs(bound, w);
    PairBound(a, r, bound, w);
  }

  /** The flat position in ordinary arithmetic: a * w1 * w2 + b * w2 + c. */
  lemma {:induction false} Idx3Is(bound: nat, w1: nat, w2: nat, a: nat, b: nat, c: nat)
    requires a < bound && b < w1 && c < w2
    ensures Idx3(bound, w1, w2, a, b, c) == a * w1 * w2 + b * w2 + c
  {
    MulIs(a, w1);
    MulIs(a * w1 + b, w2);
    MulDistrib(a * w1, b, w2);
  }

  /** Block and offset are determined by the place. */
  lemma {:induction false} PlaceUnique(a: nat, r: nat, b: nat, s: nat, w: nat)
    requires r < w && s < w
    requires Mul(a, w) + r == Mul(b, w) + s
    ensures a == b && r == s
    decreases a
  {
    if a > 0 && b > 0 {
      PlaceUnique(a - 1, r, b - 1, s, w);
    }
  }

  /** q is Quot(q, w) blocks of w plus a remainder below w. */
  lemma {:induction false} QuotRem(q: nat, w: nat)
    requires w > 0
    ensures Rem(q, w) < w && q == Mul(Quot(q, w), w) + Rem(q, w)
    decreases q
  {
    if q >= w {
      QuotRem(q - w, w);
    }
  }

  lemma {:induction false} PlaceOf(a: nat, r: nat, w: nat)
    requires r < w
    ensures Quot(Mul(a, w) + r, w) == a && Rem(Mul(a, w) + r, w) == r
  {
    QuotRem(Mul(a, w) + r, w);
    PlaceUnique(Quot(Mul(a, w) + r, w), Rem(Mul(a, w) + r, w), a, r, w);
  }

  lemma {:induction false} PairDecode(q: nat, w: nat)
    requires w > 0
    ensures q == (q / w) * w + q % w && q % w < w
  {
  }

  lemma {:induction false} PairOf(a: nat, r: nat, w: nat)
    requires r < w
    ensures (a * w + r) / w == a && (a * w + r) % w == r
  {
    PairDecode(a * w + r, w);
    var b, s := (a * w + r) / w, (a * w + r) % w;
    if b < a {
      PairBound(b, s, a, w);
    } else if a < b {
      PairBound(a, r, b, w);
    }
  }

  /** Distinct in-range coordinates have distinct flat positions. */
  lemma {:induction false} Idx3Injective(bound: nat, w1: nat, w2: nat, a: nat, b: nat, c: nat, a': nat, b': nat, c': nat)
    requires a < bound && b < w1 && c < w2 && a' < bound && b' < w1 && c' < w2
    requires Idx3(bound, w1, w2, a, b, c) == Idx3(bound, w1, w2, a', b', c')
    ensures a == a' && b == b' && c == c'
  {
    PlaceUnique(Mul(a, w1) + b, c, Mul(a', w1) + b', c', w2);
    PlaceUnique(a, b, a', b', w1);
  }

  lemma {:induction false} Idx3Distinct(bound: nat, w1: nat, w2: nat, a: nat, b: nat, c: nat, a': nat, b': nat, c': nat)
    requires a < bound && b < w1 && c < w2 && a' < bound && b' < w1 && c' < w2
    requires a != a' || b != b' || c != c'
    ensures Idx3(bound, w1, w2, a, b, c) != Idx3(bound, w1, w2, a', b', c')
  {
    if Idx3(bound, w1, w2, a, b, c) == Idx3(bound, w1, w2, a', b', c') {
      Idx3Injective(bound, w1, w2, a, b, c, a', b', c');
    }
  }

  /** Every flat position of the box is the position of its decoded coordinates. */
  lemma {:induction false} Decode(bound: nat, w1: nat, w2: nat, q: nat)
    requires q < Volume(bound, w1, w2)
    ensures w1 > 0 && w2 > 0
    ensures Hi(w1, w2, q) < bound && Mid(w1, w2, q) < w1 && Lo(w2, q) < w2
    ensures Idx3(bound, w1, w2, Hi(w1, w2, q), Mid(w1, w2, q), Lo(w2, q)) == q
  {
    if w2 == 0 {
      MulIs(Mul(bound, w1), w2);
    }
    if w1 == 0 {
      MulIs(bound, w1);
    }
    var l := Quot(q, w2);
    QuotRem(q, w2);
    QuotRem(l, w1);
    if l >= Mul(bound, w1) {
      MulGrows(Mul(bound, w1), l, w2);
    }
    if Quot(l, w1) >= bound {
      MulGrows(bound, Quot(l, w1), w1);
    }
  }

  /** Decoding the position of in-range coordinates gives them back. */
  lemma {:induction false} DecodeIdx3(bound: nat, w1: nat, w2: nat, a: nat, b: nat, c: nat)
    requires a < bound && b < w1 && c < w2
    ensures Hi(w1, w2, Idx3(bound, w1, w2, a, b, c)) == a
    ensures Mid(w1, w2, Idx3(bound, w1, w2, a, b, c)) == b
    ensures Lo(w2, Idx3(bound, w1, w2, a, b, c)) == c
  {
    PlaceOf(Mul(a, w1) + b, c, w2);
    PlaceOf(a, b, w1);
  }
}
