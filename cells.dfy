/** `structured_cells` (refine.py:39-55): the connectivity table of the
    regular hexahedral mesh with c0 x c1 x c2 cells on the node lattice of
    shape (c0 + 1, c1 + 1, c2 + 1). Cells are enumerated as
    `itertools.product` enumerates their lattice offsets (axis 0 outermost,
    axis 2 fastest); each row holds the eight node indices of one cell in
    the linear-hexahedron vertex order, stored as unsigned 32-bit integers. */
module Cells {
  import opened Failures
  import opened Lattice

  /** The value range of the `u4` dtype. */
  const Modulus: nat := 0x1_0000_0000

  /** Storing a non-negative integer into a `u4` array element keeps it
      modulo 2^32. */
  function U4(v: nat): (w: nat)
    ensures w < Modulus
    ensures v < Modulus ==> w == v
  {
    v % Modulus
  }

  /** A row of node indices as stored in the `u4` table. */
  function Stored(h: seq<nat>): (s: seq<nat>)
    ensures |s| == |h| && forall v :: 0 <= v < |h| ==> s[v] == U4(h[v])
  {
    seq(|h|, v requires 0 <= v < |h| => U4(h[v]))
  }

  /** `np.ravel_multi_index((x, y, z), nodeshape)` for the node lattice of
      shape (c0 + 1, c1 + 1, c2 + 1). */
  function NodeIndex(c0: nat, c1: nat, c2: nat, x: nat, y: nat, z: nat): (k: nat)
    requires x <= c0 && y <= c1 && z <= c2
    ensures k < Volume(c0 + 1, c1 + 1, c2 + 1)
  {
    Idx3(c0 + 1, c1 + 1, c2 + 1, x, y, z)
  }

  /** The eight node indices of the cell at lattice offset (x, y, z), in the
      column order of refine.py:46-53. */
  function Hex(c0: nat, c1: nat, c2: nat, x: nat, y: nat, z: nat): (h: seq<nat>)
    requires x < c0 && y < c1 && z < c2
    ensures |h| == 8
    ensures forall v :: 0 <= v < 8 ==> h[v] < Volume(c0 + 1, c1 + 1, c2 + 1)
  {
    [ NodeIndex(c0, c1, c2, x, y, z),
      NodeIndex(c0, c1, c2, x, y + 1, z),
      NodeIndex(c0, c1, c2, x + 1, y + 1, z),
      NodeIndex(c0, c1, c2, x + 1, y, z),
      NodeIndex(c0, c1, c2, x, y, z + 1),
      NodeIndex(c0, c1, c2, x, y + 1, z + 1),
      NodeIndex(c0, c1, c2, x + 1, y + 1, z + 1),
      NodeIndex(c0, c1, c2, x + 1, y, z + 1) ]
  }

  /** Row n of the table: the cell whose offset is the n-th in product order. */
  function CellRow(c0: nat, c1: nat, c2: nat, n: nat): (row: seq<nat>)
    requires n < Volume(c0, c1, c2)
    ensures |row| == 8 && forall v :: 0 <= v < 8 ==> row[v] < Modulus
  {
    Decode(c0, c1, c2, n);
    Stored(Hex(c0, c1, c2, Hi(c1, c2, n), Mid(c1, c2, n), Lo(c2, n)))
  }

  /** Product order: the cell at offset (x, y, z) is row x*c1*c2 + y*c2 + z,
      and its first node is x*(c1+1)*(c2+1) + y*(c2+1) + z. */
  lemma {:induction false} CellAt(c0: nat, c1: nat, c2: nat, x: nat, y: nat, z: nat)
    requires x < c0 && y < c1 && z < c2
    ensures Idx3(c0, c1, c2, x, y, z) == x * c1 * c2 + y * c2 + z
    ensures CellRow(c0, c1, c2, Idx3(c0, c1, c2, x, y, z)) == Stored(Hex(c0, c1, c2, x, y, z))
    ensures Hex(c0, c1, c2, x, y, z)[0] == x * (c1 + 1) * (c2 + 1) + y * (c2 + 1) + z
  {
    DecodeIdx3(c0, c1, c2, x, y, z);
    Idx3Is(c0, c1, c2, x, y, z);
    Idx3Is(c0 + 1, c1 + 1, c2 + 1, x, y, z);
  }

  /** The top face (columns 4-7) is the bottom face (columns 0-3) one node
      further along axis 2. */
  lemma {:induction false} HexTop(c0: nat, c1: nat, c2: nat, x: nat, y: nat, z: nat, v: nat)
    requires x < c0 && y < c1 && z < c2 && v < 4
    ensures Hex(c0, c1, c2, x, y, z)[v + 4] == Hex(c0, c1, c2, x, y, z)[v] + 1
  {
  }

  /** The bottom face runs (x, y) -> (x, y+1) -> (x+1, y+1) -> (x+1, y): each
      step is one node stride, along axis 1 (c2 + 1) or along axis 0
      ((c1 + 1) * (c2 + 1)). */
  lemma {:induction false} HexStrides(c0: nat, c1: nat, c2: nat, x: nat, y: nat, z: nat)
    requires x < c0 && y < c1 && z < c2
    ensures var h := Hex(c0, c1, c2, x, y, z);
      h[1] == h[0] + (c2 + 1) && h[2] == h[3] + (c2 + 1) &&
      h[3] == h[0] + (c1 + 1) * (c2 + 1) && h[2] == h[1] + (c1 + 1) * (c2 + 1)
  {
    var w1, w2 := c1 + 1, c2 + 1;
    Idx3Is(c0 + 1, w1, w2, x, y, z);
    Idx3Is(c0 + 1, w1, w2, x, y + 1, z);
    Idx3Is(c0 + 1, w1, w2, x + 1, y + 1, z);
    Idx3Is(c0 + 1, w1, w2, x + 1, y, z);
    StrideSteps(x, y, w1, w2);
  }

  lemma {:induction false} StrideSteps(x: nat, y: nat, w1: nat, w2: nat)
    ensures (y + 1) * w2 == y * w2 + w2
    ensures (x + 1) * w1 * w2 == x * w1 * w2 + w1 * w2
  {
    MulDistrib(y, 1, w2);
    MulDistrib(x, 1, w1);
    MulDistrib(x * w1, w1, w2);
  }

  /** The vertices of cell (x, y, z) as lattice coordinates: the bottom face
      is walked around the quad (x, y), (x, y+1), (x+1, y+1), (x+1, y), and
      vertex v + 4 lies one step above vertex v along axis 2. */
  function Corner(x: nat, y: nat, z: nat, v: nat): (nat, nat, nat)
    requires v < 8
  {
    var f := v % 4;
    (x + (if f == 2 || f == 3 then 1 else 0), y + (if f == 1 || f == 2 then 1 else 0), z + v / 4)
  }

  /** Column v of the table is the node at the v-th corner. */
  lemma {:induction false} HexVertex(c0: nat, c1: nat, c2: nat, x: nat, y: nat, z: nat, v: nat)
    requires x < c0 && y < c1 && z < c2 && v < 8
    ensures Corner(x, y, z, v).0 <= c0 && Corner(x, y, z, v).1 <= c1 && Corner(x, y, z, v).2 <= c2
    ensures Hex(c0, c1, c2, x, y, z)[v] == NodeIndex(c0, c1, c2, Corner(x, y, z, v).0, Corner(x, y, z, v).1, Corner(x, y, z, v).2)
  {
  }

  /** The eight vertices are eight different nodes... */
  lemma {:induction false} HexDistinct(c0: nat, c1: nat, c2: nat, x: nat, y: nat, z: nat, v: nat, v': nat)
    requires x < c0 && y < c1 && z < c2 && v < 8 && v' < 8 && v != v'
    ensures Hex(c0, c1, c2, x, y, z)[v] != Hex(c0, c1, c2, x, y, z)[v']
  {
    HexVertex(c0, c1, c2, x, y, z, v);
    HexVertex(c0, c1, c2, x, y, z, v');
    var (a, b, c) := Corner(x, y, z, v);
    var (a', b', c') := Corner(x, y, z, v');
    Idx3Distinct(c0 + 1, c1 + 1, c2 + 1, a, b, c, a', b', c');
  }

  /** ... namely the node lattice corners of the cell: node (a, b, c) is a
      vertex of cell (x, y, z) exactly when each coordinate is the cell's own
      or the next one. */
  lemma {:induction false} HexCorners(c0: nat, c1: nat, c2: nat, x: nat, y: nat, z: nat, a: nat, b: nat, c: nat)
    requires x < c0 && y < c1 && z < c2 && a <= c0 && b <= c1 && c <= c2
    ensures NodeIndex(c0, c1, c2, a, b, c) in Hex(c0, c1, c2, x, y, z) <==>
      x <= a <= x + 1 && y <= b <= y + 1 && z <= c <= z + 1
  {
    var h := Hex(c0, c1, c2, x, y, z);
    if NodeIndex(c0, c1, c2, a, b, c) in h {
      var v :| 0 <= v < 8 && h[v] == NodeIndex(c0, c1, c2, a, b, c);
      HexVertex(c0, c1, c2, x, y, z, v);
      var (a', b', c') := Corner(x, y, z, v);
      Idx3Injective(c0 + 1, c1 + 1, c2 + 1, a, b, c, a', b', c');
    }
  }

  /** Different cells have different first nodes, so no row is repeated. */
  lemma {:induction false} CellsDistinct(c0: nat, c1: nat, c2: nat, x: nat, y: nat, z: nat, x': nat, y': nat, z': nat)
    requires x < c0 && y < c1 && z < c2 && x' < c0 && y' < c1 && z' < c2
    requires x != x' || y != y' || z != z'
    ensures Hex(c0, c1, c2, x, y, z)[0] != Hex(c0, c1, c2, x', y', z')[0]
  {
    Idx3Distinct(c0 + 1, c1 + 1, c2 + 1, x, y, z, x', y', z');
  }

  /** On a lattice with at most 2^32 nodes the `u4` table holds the node
      indices themselves. */
  lemma {:induction false} StoredExact(c0: nat, c1: nat, c2: nat, x: nat, y: nat, z: nat)
    requires x < c0 && y < c1 && z < c2 && Volume(c0 + 1, c1 + 1, c2 + 1) <= Modulus
    ensures Stored(Hex(c0, c1, c2, x, y, z)) == Hex(c0, c1, c2, x, y, z)
  {
  }

  /** Cell (x', y', z') comes before cell (x, y, z) in product order. */
  predicate Before(x': nat, y': nat, z': nat, x: nat, y: nat, z: nat)
  {
    x' < x || (x' == x && (y' < y || (y' == y && z' < z)))
  }

  /** The eight column assignments of refine.py:46-53, for one row. */
  method FillRow(a: array2<nat>, c0: nat, c1: nat, c2: nat, n: nat, x: nat, y: nat, z: nat)
    requires a.Length1 == 8 && n < a.Length0
    requires x < c0 && y < c1 && z < c2
    modifies a
    ensures forall n', v :: 0 <= n' < a.Length0 && 0 <= v < 8 ==>
      a[n', v] == if n' == n then Stored(Hex(c0, c1, c2, x, y, z))[v] else old(a[n', v])
  {
    a[n, 0] := U4(NodeIndex(c0, c1, c2, x, y, z));
    a[n, 3] := U4(NodeIndex(c0, c1, c2, x + 1, y, z));
    a[n, 2] := U4(NodeIndex(c0, c1, c2, x + 1, y + 1, z));
    a[n, 1] := U4(NodeIndex(c0, c1, c2, x, y + 1, z));
    a[n, 4] := U4(NodeIndex(c0, c1, c2, x, y, z + 1));
    a[n, 7] := U4(NodeIndex(c0, c1, c2, x + 1, y, z + 1));
    a[n, 6] := U4(NodeIndex(c0, c1, c2, x + 1, y + 1, z + 1));
    a[n, 5] := U4(NodeIndex(c0, c1, c2, x, y + 1, z + 1));
  }

  /** `structured_cells(c0, c1, c2)`: a fresh table of c0*c1*c2 rows of eight
      `u4` node indices, row n describing the n-th cell in product order. When
      some count is 0, `product` yields nothing and `nidxs[0]` fails. */
  method StructuredCells(c0: nat, c1: nat, c2: nat) returns (r: Result<array2<nat>>)
    ensures r.Err? <==> c0 == 0 || c1 == 0 || c2 == 0
    ensures r.Err? ==> r.error == NoCells
    ensures r.Ok? ==> fresh(r.value) && r.value.Length0 == Volume(c0, c1, c2) && r.value.Length1 == 8
    ensures r.Ok? ==> forall n, v :: 0 <= n < r.value.Length0 && 0 <= v < 8 ==>
      r.value[n, v] == CellRow(c0, c1, c2, n)[v]
  {
    if c0 == 0 || c1 == 0 || c2 == 0 {
      return Err(NoCells);
    }
    var a := new nat[Volume(c0, c1, c2), 8]((_, _) => 0);
    var n := 0;
    var x := 0;
    while x < c0
      invariant x <= c0 && n == Mul(Mul(x, c1), c2)
      invariant forall x': nat, y': nat, z': nat, v: nat :: x' < c0 && y' < c1 && z' < c2 && v < 8 && Before(x', y', z', x, 0, 0) ==>
        a[Idx3(c0, c1, c2, x', y', z'), v] == Stored(Hex(c0, c1, c2, x', y', z'))[v]
    {
      var y := 0;
      while y < c1
        invariant y <= c1 && n == Mul(Mul(x, c1) + y, c2)
        invariant forall x': nat, y': nat, z': nat, v: nat :: x' < c0 && y' < c1 && z' < c2 && v < 8 && Before(x', y', z', x, y, 0) ==>
          a[Idx3(c0, c1, c2, x', y', z'), v] == Stored(Hex(c0, c1, c2, x', y', z'))[v]
      {
        var z := 0;
        while z < c2
          invariant z <= c2 && n == Mul(Mul(x, c1) + y, c2) + z
          invariant forall x': nat, y': nat, z': nat, v: nat :: x' < c0 && y' < c1 && z' < c2 && v < 8 && Before(x', y', z', x, y, z) ==>
            a[Idx3(c0, c1, c2, x', y', z'), v] == Stored(Hex(c0, c1, c2, x', y', z'))[v]
        {
          assert n == Idx3(c0, c1, c2, x, y, z);
          FillRow(a, c0, c1, c2, n, x, y, z);
          forall x': nat, y': nat, z': nat, v: nat | x' < c0 && y' < c1 && z' < c2 && v < 8 && Before(x', y', z', x, y, z + 1)
            ensures a[Idx3(c0, c1, c2, x', y', z'), v] == Stored(Hex(c0, c1, c2, x', y', z'))[v]
          {
            if x' != x || y' != y || z' != z {
              Idx3Distinct(c0, c1, c2, x', y', z', x, y, z);
            }
          }
          n := n + 1;
          z := z + 1;
        }
        y := y + 1;
      }
      x := x + 1;
    }
    forall n', v | 0 <= n' < a.Length0 && 0 <= v < 8
      ensures a[n', v] == CellRow(c0, c1, c2, n')[v]
    {
      Decode(c0, c1, c2, n');
      CellAt(c0, c1, c2, Hi(c1, c2, n'), Mid(c1, c2, n'), Lo(c2, n'));
    }
    return Ok(a);
  }
}
