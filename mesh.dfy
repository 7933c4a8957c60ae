/** The script part of refine.py (lines 65-80) without its file I/O: it reads
    a structured hexahedral mesh as a header record, a node record and a
    connectivity record, refines the node grid along its three lattice axes,
    rebuilds the connectivity of the refined lattice and writes the three
    records back. */
module Mesh {
  import opened Failures
  import opened Lattice
  import opened Refine
  import opened Cells

  /** The three records the script writes (refine.py:78-80). */
  datatype MeshFile = MeshFile(header: seq<nat>, points: seq<real>, cells: seq<nat>)

  /** The shape the node record is reshaped to (refine.py:67): the header
      names the extents imax, jmax, kmax but the grid is laid out as
      (jmax, imax, kmax, 3). */
  function GridShape(imax: nat, jmax: nat, kmax: nat): seq<nat>
  {
    [jmax, imax, kmax, 3]
  }

  /** `refine` along axes 0, 1 and 2 in turn (refine.py:71-73). */
  ghost function RefinedGrid(values: seq<real>, shape: seq<nat>): (out: seq<real>)
    requires |shape| == 4 && shape[0] >= 1 && shape[1] >= 1 && shape[2] >= 1 && |values| == Product(shape)
    ensures |out| == Product(RefinedShape(shape))
  {
    var s1 := NewShape(shape, 0);
    var s2 := NewShape(s1, 1);
    Refined(Refined(Refined(values, shape, 0), s1, 1), s2, 2)
  }

  /** The shape of the node grid after the three refinements. */
  function RefinedShape(shape: seq<nat>): seq<nat>
    requires |shape| == 4 && shape[0] >= 1 && shape[1] >= 1 && shape[2] >= 1
  {
    NewShape(NewShape(NewShape(shape, 0), 1), 2)
  }

  /** Refining the three lattice axes of (J, I, K, 3) gives (2J-1, 2I-1, 2K-1, 3). */
  lemma {:induction false} RefinedShapeIs(shape: seq<nat>)
    requires |shape| == 4 && shape[0] >= 1 && shape[1] >= 1 && shape[2] >= 1
    ensures RefinedShape(shape) == [2 * shape[0] - 1, 2 * shape[1] - 1, 2 * shape[2] - 1, shape[3]]
  {
  }

  /** The refined grid keeps the original samples where all three lattice
      indices are even: the sample at (2a, 2b, 2c, d) is the input's at
      (a, b, c, d). */
  lemma {:induction false} EvenCorners(values: seq<real>, shape: seq<nat>, x: seq<nat>)
    requires |shape| == 4 && shape[0] >= 1 && shape[1] >= 1 && shape[2] >= 1 && |values| == Product(shape)
    requires InBounds(shape, x)
    ensures InBounds(RefinedShape(shape), [2 * x[0], 2 * x[1], 2 * x[2], x[3]])
    ensures RefinedGrid(values, shape)[Flatten(RefinedShape(shape), [2 * x[0], 2 * x[1], 2 * x[2], x[3]])]
         == values[Flatten(shape, x)]
  {
    InBoundsAt(shape, x);
    var s1 := NewShape(shape, 0);
    var s2 := NewShape(s1, 1);
    var v1 := Refined(values, shape, 0);
    var v2 := Refined(v1, s1, 1);
    var x1 := x[0 := 2 * x[0]];
    var x2 := x1[1 := 2 * x1[1]];
    var x3 := x2[2 := 2 * x2[2]];
    RefinedEven(values, shape, 0, x);
    RefinedEven(v1, s1, 1, x1);
    RefinedEven(v2, s2, 2, x2);
    assert x3 == [2 * x[0], 2 * x[1], 2 * x[2], x[3]];
  }

  /** `2*(n-1)` on the `u4` header value n >= 1 (refine.py:74). */
  function CellCount(n: nat): (c: nat)
    requires n >= 1
    ensures 2 * (n - 1) < Modulus ==> c == 2 * (n - 1)
  {
    U4(2 * (n - 1))
  }

  /** The header record written at refine.py:78: `nodes.size // 3`,
      `cells.size // 8`, the first three extents of the node grid and 0. */
  function OutputHeader(nodeShape: seq<nat>, cellsSize: nat): (h: seq<nat>)
    requires |nodeShape| == 4
    ensures |h| == 6
  {
    [Product(nodeShape) / 3, cellsSize / 8, nodeShape[0], nodeShape[1], nodeShape[2], 0]
  }

  /** Reading a cell record converts to 0-based indices in `u4`
      (refine.py:68) ... */
  function ZeroBased(c: nat): (z: nat)
    ensures z < Modulus
  {
    (c - 1) % Modulus
  }

  /** ... and writing converts back (refine.py:80). */
  function OneBased(c: nat): (o: nat)
    ensures o < Modulus
  {
    U4(c + 1)
  }

  /** The two conversions undo each other on `u4` values. */
  lemma {:induction false} BaseRoundTrip(c: nat)
    requires c < Modulus
    ensures OneBased(ZeroBased(c)) == c
    ensures ZeroBased(OneBased(c)) == c
  {
    if c == 0 {
      assert ZeroBased(c) == Modulus - 1;
    }
  }

  /** The connectivity record as written: the table row by row, 1-based. */
  ghost function WrittenCells(c0: nat, c1: nat, c2: nat): (w: seq<nat>)
    ensures |w| == Volume(c0, c1, c2) * 8
  {
    seq(Volume(c0, c1, c2) * 8, q requires 0 <= q < Volume(c0, c1, c2) * 8 => OneBased(CellRow(c0, c1, c2, q / 8)[q % 8]))
  }

  /** The header record the script writes for the header it read. */
  function WrittenHeader(header: seq<nat>): (h: seq<nat>)
    requires |header| == 6 && header[2] >= 1 && header[3] >= 1 && header[4] >= 1
    ensures |h| == 6
  {
    var imax, jmax, kmax := header[2], header[3], header[4];
    OutputHeader(RefinedShape(GridShape(imax, jmax, kmax)),
      Volume(CellCount(jmax), CellCount(imax), CellCount(kmax)) * 8)
  }

  /** What the script writes for the given records, or the exception that
      stops it (refine.py:65-80). */
  ghost function Output(header: seq<nat>, points: seq<real>, links: seq<nat>): Result<MeshFile>
  {
    if |header| != 6 then Err(HeaderLength)
    else
      var shape := GridShape(header[2], header[3], header[4]);
      if |points| != Product(shape) || |links| % 8 != 0 then Err(ReshapeSize)
      else if shape[0] == 0 || shape[1] == 0 || shape[2] == 0 then Err(NegativeDimension)
      else
        var c0, c1, c2 := CellCount(shape[0]), CellCount(shape[1]), CellCount(shape[2]);
        if c0 == 0 || c1 == 0 || c2 == 0 then Err(NoCells)
        else Ok(MeshFile(WrittenHeader(header),
                         RefinedGrid(points, shape),
                         WrittenCells(c0, c1, c2)))
  }

  /** The counts in the written header agree with the records written:
      three coordinates per node of the refined grid and eight indices per
      cell of the connectivity record. */
  lemma {:induction false} RecordSizes(header: seq<nat>)
    requires |header| == 6 && header[2] >= 1 && header[3] >= 1 && header[4] >= 1
    ensures var imax, jmax, kmax := header[2], header[3], header[4];
      Product(RefinedShape(GridShape(imax, jmax, kmax))) == 3 * WrittenHeader(header)[0] &&
      |WrittenCells(CellCount(jmax), CellCount(imax), CellCount(kmax))| == 8 * WrittenHeader(header)[1]
  {
    var imax, jmax, kmax := header[2], header[3], header[4];
    var s := RefinedShape(GridShape(imax, jmax, kmax));
    RefinedShapeIs(GridShape(imax, jmax, kmax));
    ProductFour(s[0], s[1], s[2]);
    PairOf(Volume(CellCount(jmax), CellCount(imax), CellCount(kmax)), 0, 8);
  }

  /** The written header is [npts', nelems', 2*jmax-1, 2*imax-1, 2*kmax-1, 0]
      with npts' = (2*jmax-1)(2*imax-1)(2*kmax-1) and, when the cell counts do
      not wrap, nelems' = 8(jmax-1)(imax-1)(kmax-1). The extents come in grid
      order, so fields 2 and 3 are swapped against the header that was read. */
  lemma {:induction false} HeaderFields(header: seq<nat>)
    requires |header| == 6 && header[2] >= 1 && header[3] >= 1 && header[4] >= 1
    ensures var h, imax, jmax, kmax := WrittenHeader(header), header[2], header[3], header[4];
      h[0] == (2 * jmax - 1) * (2 * imax - 1) * (2 * kmax - 1) &&
      h[2] == 2 * jmax - 1 && h[3] == 2 * imax - 1 && h[4] == 2 * kmax - 1 && h[5] == 0 &&
      (2 * (jmax - 1) < Modulus && 2 * (imax - 1) < Modulus && 2 * (kmax - 1) < Modulus ==>
         h[1] == 8 * (jmax - 1) * (imax - 1) * (kmax - 1))
  {
    NodeTotal(header[2], header[3], header[4]);
    CellTotal(header[2], header[3], header[4]);
  }

  /** The refined grid of (jmax, imax, kmax, 3) has (2jmax-1)(2imax-1)(2kmax-1) nodes. */
  lemma {:induction false} NodeTotal(imax: nat, jmax: nat, kmax: nat)
    requires imax >= 1 && jmax >= 1 && kmax >= 1
    ensures var s := RefinedShape(GridShape(imax, jmax, kmax));
      s[0] == 2 * jmax - 1 && s[1] == 2 * imax - 1 && s[2] == 2 * kmax - 1 &&
      Product(s) / 3 == (2 * jmax - 1) * (2 * imax - 1) * (2 * kmax - 1)
  {
    RefinedShapeIs(GridShape(imax, jmax, kmax));
    ProductFour(2 * jmax - 1, 2 * imax - 1, 2 * kmax - 1);
  }

  /** The refined lattice has 8(jmax-1)(imax-1)(kmax-1) cells while the
      `u4` cell counts do not wrap. */
  lemma {:induction false} CellTotal(imax: nat, jmax: nat, kmax: nat)
    requires imax >= 1 && jmax >= 1 && kmax >= 1
    ensures 2 * (jmax - 1) < Modulus && 2 * (imax - 1) < Modulus && 2 * (kmax - 1) < Modulus ==>
      Volume(CellCount(jmax), CellCount(imax), CellCount(kmax)) * 8 / 8 == 8 * (jmax - 1) * (imax - 1) * (kmax - 1)
  {
    var c0, c1, c2 := CellCount(jmax), CellCount(imax), CellCount(kmax);
    PairOf(Volume(c0, c1, c2), 0, 8);
    VolumeIs(c0, c1, c2);
    if 2 * (jmax - 1) < Modulus && 2 * (imax - 1) < Modulus && 2 * (kmax - 1) < Modulus {
      assert c0 == 2 * (jmax - 1) && c1 == 2 * (imax - 1) && c2 == 2 * (kmax - 1);
      EightCells(jmax - 1, imax - 1, kmax - 1);
    }
  }

  /** The node count of a (a, b, c, 3) grid. */
  lemma {:induction false} ProductFour(a: nat, b: nat, c: nat)
    ensures Product([a, b, c, 3]) / 3 == a * b * c
    ensures Product([a, b, c, 3]) == 3 * (a * b * c)
  {
    var s := [a, b, c, 3];
    assert s[1..] == [b, c, 3] && s[1..][1..] == [c, 3] && s[1..][1..][1..] == [3];
    assert [3][1..] == [];
    MulIs(3, 1);
    assert Product([3]) == 3;
    MulIs(c, 3);
    assert Product([c, 3]) == c * 3;
    MulIs(b, c * 3);
    assert Product([b, c, 3]) == b * (c * 3);
    MulIs(a, b * (c * 3));
    assert Product(s) == a * (b * (c * 3));
    MulAssoc(b, c, 3);
    MulAssoc(a, b * c, 3);
    MulAssoc(a, b, c);
    assert Product(s) == a * b * c * 3;
    PairOf(a * b * c, 0, 3);
  }

  lemma {:induction false} EightCells(j: nat, i: nat, k: nat)
    ensures (2 * j) * (2 * i) * (2 * k) == 8 * j * i * k
  {
    MulAssoc(2 * j, 2, i);
    MulAssoc(2, j, 2);
    MulAssoc(4 * j * i, 2, k);
  }

  /** While the refined node count fits in `u4`, every index of the written
      connectivity record names a node of the written grid, 1-based. */
  lemma {:induction false} CellsNameNodes(header: seq<nat>)
    requires |header| == 6 && header[2] >= 1 && header[3] >= 1 && header[4] >= 1
    requires WrittenHeader(header)[0] < Modulus
    ensures var w := WrittenCells(CellCount(header[3]), CellCount(header[2]), CellCount(header[4]));
      forall q :: 0 <= q < |w| ==> 1 <= w[q] <= WrittenHeader(header)[0]
  {
    var imax, jmax, kmax := header[2], header[3], header[4];
    NodeTotal(imax, jmax, kmax);
    var total := WrittenHeader(header)[0];
    var c0, c1, c2 := CellCount(jmax), CellCount(imax), CellCount(kmax);
    Extents(2 * jmax - 1, 2 * imax - 1, 2 * kmax - 1);
    assert c0 + 1 == 2 * jmax - 1 && c1 + 1 == 2 * imax - 1 && c2 + 1 == 2 * kmax - 1;
    VolumeIs(c0 + 1, c1 + 1, c2 + 1);
    var w := WrittenCells(c0, c1, c2);
    forall q | 0 <= q < |w|
      ensures 1 <= w[q] <= total
    {
      Decode(c0, c1, c2, q / 8);
      var h := Hex(c0, c1, c2, Hi(c1, c2, q / 8), Mid(c1, c2, q / 8), Lo(c2, q / 8));
      assert CellRow(c0, c1, c2, q / 8) == Stored(h);
      assert w[q] == OneBased(U4(h[q % 8]));
    }
  }

  /** Each extent of a box is at most its volume. */
  lemma {:induction false} Extents(a: nat, b: nat, c: nat)
    requires a >= 1 && b >= 1 && c >= 1
    ensures a <= a * b * c && b <= a * b * c && c <= a * b * c
  {
    MulMonotone(1, b, a);
    MulMonotone(1, c, a * b);
    MulMonotone(1, a, b);
    MulMonotone(1, c, b * a);
    MulMonotone(1, a * b, c);
  }

  /** A mesh with a single node along some lattice axis stops with NoCells:
      its axis has no cells, so `structured_cells` fails. */
  lemma {:induction false} SingleNodeAxis(header: seq<nat>, points: seq<real>, links: seq<nat>)
    requires |header| == 6 && header[2] >= 1 && header[3] >= 1 && header[4] >= 1
    requires |points| == Product(GridShape(header[2], header[3], header[4])) && |links| % 8 == 0
    requires header[2] == 1 || header[3] == 1 || header[4] == 1
    ensures Output(header, points, links) == Err(NoCells)
  {
  }

  /** Conversely, with at least two nodes along each axis and cell counts
      below 2^32, records of the right sizes are refined and written. */
  lemma {:induction false} RegularMesh(header: seq<nat>, points: seq<real>, links: seq<nat>)
    requires |header| == 6 && header[2] >= 2 && header[3] >= 2 && header[4] >= 2
    requires 2 * header[2] < Modulus && 2 * header[3] < Modulus && 2 * header[4] < Modulus
    requires |points| == Product(GridShape(header[2], header[3], header[4])) && |links| % 8 == 0
    ensures Output(header, points, links).Ok?
  {
  }

  /** `cells.flatten() + 1` (refine.py:80): the table row by row, 1-based. */
  method WriteCells(a: array2<nat>) returns (s: seq<nat>)
    requires a.Length1 == 8
    ensures |s| == a.Length0 * 8
    ensures forall q :: 0 <= q < |s| ==> s[q] == OneBased(a[q / 8, q % 8])
  {
    s := [];
    var n := 0;
    while n < a.Length0
      invariant n <= a.Length0 && |s| == n * 8
      invariant forall q :: 0 <= q < |s| ==> s[q] == OneBased(a[q / 8, q % 8])
    {
      var v := 0;
      while v < 8
        invariant v <= 8 && |s| == n * 8 + v
        invariant forall q :: 0 <= q < |s| ==> s[q] == OneBased(a[q / 8, q % 8])
      {
        s := s + [OneBased(a[n, v])];
        v := v + 1;
      }
      n := n + 1;
    }
  }

  /** The script from the records it reads to the records it writes. */
  method RefineMesh(header: seq<nat>, points: array<real>, links: seq<nat>) returns (r: Result<MeshFile>)
    ensures r == Output(header, points[..], links)
  {
    if |header| != 6 {
      return Err(HeaderLength);
    }
    var imax, jmax, kmax := header[2], header[3], header[4];
    var shape := GridShape(imax, jmax, kmax);
    if points.Length != Product(shape) || |links| % 8 != 0 {
      return Err(ReshapeSize);
    }
    var r0 := Refine.Refine(points, shape, 0);
    if r0.Err? {
      return Err(r0.error);
    }
    var s1 := NewShape(shape, 0);
    var r1 := Refine.Refine(r0.value, s1, 1);
    if r1.Err? {
      return Err(r1.error);
    }
    var s2 := NewShape(s1, 1);
    var r2 := Refine.Refine(r1.value, s2, 2);
    if r2.Err? {
      return Err(r2.error);
    }
    var c0, c1, c2 := CellCount(jmax), CellCount(imax), CellCount(kmax);
    var cells := StructuredCells(c0, c1, c2);
    if cells.Err? {
      return Err(cells.error);
    }
    var written := WriteCells(cells.value);
    WrittenIs(written, cells.value, c0, c1, c2);
    var nodes := r2.value[..];
    r := Ok(MeshFile(OutputHeader(NewShape(s2, 2), cells.value.Length0 * 8), nodes, written));
  }

  lemma {:induction false} WrittenIs(s: seq<nat>, a: array2<nat>, c0: nat, c1: nat, c2: nat)
    requires a.Length0 == Volume(c0, c1, c2) && a.Length1 == 8
    requires forall n, v :: 0 <= n < a.Length0 && 0 <= v < 8 ==> a[n, v] == CellRow(c0, c1, c2, n)[v]
    requires |s| == a.Length0 * 8
    requires forall q :: 0 <= q < |s| ==> s[q] == OneBased(a[q / 8, q % 8])
    ensures s == WrittenCells(c0, c1, c2)
  {
  }
}
