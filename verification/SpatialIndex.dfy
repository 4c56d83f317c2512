/** A uniform-grid spatial hash with 3 x 3 x 3 neighbour queries, in exact arithmetic
    (crates/atomr-accel-cuda-realtime/src/spatial_index.rs). */
module SpatialIndex {
  import opened Wrappers

  type i32 = n: int | -0x8000_0000 <= n < 0x8000_0000

  datatype CellKey = CellKey(x: i32, y: i32, z: i32)

  datatype Point3 = Point3(id: nat, x: real, y: real, z: real)

  const MIN_CELL := 0.000001

  /** `cell_size.max(1e-6)`. */
  function CellSize(configured: real): real {
    if configured > MIN_CELL then configured else MIN_CELL
  }

  /** `as i32`: saturating. */
  function Saturate(n: int): i32 {
    if n < -0x8000_0000 then -0x8000_0000 else if n > 0x7fff_ffff then 0x7fff_ffff else n
  }

  function Coord(v: real, cs: real): i32
    requires cs > 0.0
  {
    Saturate((v / cs).Floor)
  }

  function CellFor(x: real, y: real, z: real, cs: real): CellKey
    requires cs > 0.0
  {
    CellKey(Coord(x, cs), Coord(y, cs), Coord(z, cs))
  }

  function CellOf(p: Point3, cs: real): CellKey
    requires cs > 0.0
  {
    CellFor(p.x, p.y, p.z, cs)
  }

  /** `center + d` for d in -1..=1, wrapping as in a release build. */
  function Shift(c: i32, d: int): i32
    requires -1 <= d <= 1
  {
    if c + d < -0x8000_0000 then 0x7fff_ffff else if c + d > 0x7fff_ffff then -0x8000_0000 else c + d
  }

  // ----- the table -----

  /** The ids of the points in one cell, in input order. */
  function Bucket(ps: seq<Point3>, k: CellKey, cs: real): seq<nat>
    requires cs > 0.0
  {
    if ps == [] then []
    else
      var p := ps[|ps| - 1];
      Bucket(ps[..|ps| - 1], k, cs) + (if CellOf(p, cs) == k then [p.id] else [])
  }

  /** The ids of the points whose cell is among `ks`: the brute-force answer. */
  function BruteForce(ps: seq<Point3>, ks: seq<CellKey>, cs: real): seq<nat>
    requires cs > 0.0
  {
    if ps == [] then []
    else
      var p := ps[|ps| - 1];
      BruteForce(ps[..|ps| - 1], ks, cs) + (if CellOf(p, cs) in ks then [p.id] else [])
  }

  /** The buckets of the listed cells from index `i` up to `j`, one after the other. */
  function Gather(ps: seq<Point3>, ks: seq<CellKey>, i: nat, j: nat, cs: real): seq<nat>
    requires i <= j <= |ks| && cs > 0.0
    decreases j - i
  {
    if i == j then [] else Gather(ps, ks, i, j - 1, cs) + Bucket(ps, ks[j - 1], cs)
  }

  lemma {:induction false} GatherNothing(ks: seq<CellKey>, n: nat, cs: real)
    requires n <= |ks| && cs > 0.0
    ensures Gather([], ks, 0, n, cs) == []
  {
    if n > 0 {
      GatherNothing(ks, n - 1, cs);
    }
  }

  lemma BucketOneMore(ps: seq<Point3>, p: Point3, k: CellKey, cs: real)
    requires cs > 0.0
    ensures Bucket(ps + [p], k, cs) == Bucket(ps, k, cs) + (if CellOf(p, cs) == k then [p.id] else [])
  {
    assert (ps + [p])[..|ps|] == ps;
  }

  /** A list without repetitions has a value among its first `n` elements at one place. */
  lemma AmongFirst<T>(ks: seq<T>, n: nat, x: T)
    requires NoDup(ks) && 0 < n <= |ks|
    ensures x in ks[..n] <==> x in ks[..n - 1] || x == ks[n - 1]
    ensures ks[n - 1] !in ks[..n - 1]
  {
    assert ks[..n] == ks[..n - 1] + [ks[n - 1]];
  }

  function Once(present: bool, id: nat): multiset<nat> {
    if present then multiset{id} else multiset{}
  }

  lemma OneMoreId(g: seq<nat>, g': seq<nat>, b: seq<nat>, id: nat, was: bool, now: bool)
    requires multiset(g') == multiset(g) + Once(was, id) && !(was && now)
    ensures multiset(g' + (b + if now then [id] else [])) == multiset(g + b) + Once(was || now, id)
  {}

  /** One more point adds its id once if its cell is listed, for cells listed at most once. */
  lemma {:induction false} GatherOneMore(ps: seq<Point3>, p: Point3, ks: seq<CellKey>, n: nat, cs: real)
    requires cs > 0.0 && NoDup(ks) && n <= |ks|
    ensures multiset(Gather(ps + [p], ks, 0, n, cs)) ==
            multiset(Gather(ps, ks, 0, n, cs)) + Once(CellOf(p, cs) in ks[..n], p.id)
  {
    if n > 0 {
      var (k, cell) := (ks[n - 1], CellOf(p, cs));
      GatherOneMore(ps, p, ks, n - 1, cs);
      BucketOneMore(ps, p, k, cs);
      AmongFirst(ks, n, cell);
      OneMoreId(Gather(ps, ks, 0, n - 1, cs), Gather(ps + [p], ks, 0, n - 1, cs), Bucket(ps, k, cs), p.id,
                cell in ks[..n - 1], cell == k);
    }
  }

  lemma BruteForceOneMore(ps: seq<Point3>, p: Point3, ks: seq<CellKey>, cs: real)
    requires cs > 0.0
    ensures multiset(BruteForce(ps + [p], ks, cs)) == multiset(BruteForce(ps, ks, cs)) + Once(CellOf(p, cs) in ks, p.id)
  {
    assert (ps + [p])[..|ps|] == ps;
  }

  /** Gathering buckets and filtering all points give the same ids, each the same number of times. */
  lemma GatherIsBruteForce(ps: seq<Point3>, ks: seq<CellKey>, cs: real)
    requires cs > 0.0 && NoDup(ks)
    ensures multiset(Gather(ps, ks, 0, |ks|, cs)) == multiset(BruteForce(ps, ks, cs))
  {
    FirstAreBruteForce(ps, ks, |ks|, cs);
    assert ks[..|ks|] == ks;
  }

  lemma {:induction false} FirstAreBruteForce(ps: seq<Point3>, ks: seq<CellKey>, n: nat, cs: real)
    requires cs > 0.0 && NoDup(ks) && n <= |ks|
    ensures multiset(Gather(ps, ks, 0, n, cs)) == multiset(BruteForce(ps, ks[..n], cs))
  {
    if ps == [] {
      GatherNothing(ks, n, cs);
    } else {
      var (before, p) := (ps[..|ps| - 1], ps[|ps| - 1]);
      FirstAreBruteForce(before, ks, n, cs);
      assert before + [p] == ps;
      OnePointMore(before, p, ks, n, cs);
    }
  }

  lemma OnePointMore(ps: seq<Point3>, p: Point3, ks: seq<CellKey>, n: nat, cs: real)
    requires cs > 0.0 && NoDup(ks) && n <= |ks|
    requires multiset(Gather(ps, ks, 0, n, cs)) == multiset(BruteForce(ps, ks[..n], cs))
    ensures multiset(Gather(ps + [p], ks, 0, n, cs)) == multiset(BruteForce(ps + [p], ks[..n], cs))
  {
    GatherOneMore(ps, p, ks, n, cs);
    BruteForceOneMore(ps, p, ks[..n], cs);
  }

  lemma GatherOne(ps: seq<Point3>, ks: seq<CellKey>, i: nat, j: nat, cs: real, found: seq<nat>)
    requires i <= j < |ks| && cs > 0.0
    ensures (found + Gather(ps, ks, i, j, cs)) + Bucket(ps, ks[j], cs) == found + Gather(ps, ks, i, j + 1, cs)
  {
    Assoc(found, Gather(ps, ks, i, j, cs), Bucket(ps, ks[j], cs));
  }

  /** Two neighbouring stretches. */
  lemma {:induction false} GatherTwo(ps: seq<Point3>, ks: seq<CellKey>, i: nat, j: nat, k: nat, cs: real, found: seq<nat>)
    requires i <= j <= k <= |ks| && cs > 0.0
    ensures (found + Gather(ps, ks, i, j, cs)) + Gather(ps, ks, j, k, cs) == found + Gather(ps, ks, i, k, cs)
    decreases k - j
  {
    if j < k {
      var last := Bucket(ps, ks[k - 1], cs);
      GatherTwo(ps, ks, i, j, k - 1, cs, found);
      Assoc(found + Gather(ps, ks, i, j, cs), Gather(ps, ks, j, k - 1, cs), last);
      Assoc(found, Gather(ps, ks, i, k - 1, cs), last);
    }
  }

  // ----- the block -----

  function CellAt(c: CellKey, dz: int, dy: int, dx: int): CellKey
    requires -1 <= dz <= 1 && -1 <= dy <= 1 && -1 <= dx <= 1
  {
    CellKey(Shift(c.x, dx), Shift(c.y, dy), Shift(c.z, dz))
  }

  /** The cells around `c` in query order: z outermost, x innermost. */
  function Block(c: CellKey): seq<CellKey> {
    seq(27, i requires 0 <= i < 27 => CellAt(c, i / 9 - 1, i / 3 % 3 - 1, i % 3 - 1))
  }

  ghost predicate InOrder(ks: seq<CellKey>, c: CellKey) {
    && |ks| == 27
    && forall dz, dy, dx :: -1 <= dz <= 1 && -1 <= dy <= 1 && -1 <= dx <= 1 ==>
         ks[(dz + 1) * 9 + (dy + 1) * 3 + (dx + 1)] == CellAt(c, dz, dy, dx)
  }

  lemma BlockInOrder(c: CellKey)
    ensures InOrder(Block(c), c)
  {
    forall dz, dy, dx | -1 <= dz <= 1 && -1 <= dy <= 1 && -1 <= dx <= 1
      ensures Block(c)[(dz + 1) * 9 + (dy + 1) * 3 + (dx + 1)] == CellAt(c, dz, dy, dx)
    {
      var (row, i) := ((dz + 1) * 3 + (dy + 1), (dz + 1) * 9 + (dy + 1) * 3 + (dx + 1));
      assert i == row * 3 + (dx + 1);
      assert i / 3 == row && i % 3 == dx + 1 && i / 9 == dz + 1;
    }
  }

  lemma ShiftInjective(c: i32, d: int, e: int)
    requires -1 <= d <= 1 && -1 <= e <= 1 && Shift(c, d) == Shift(c, e)
    ensures d == e
  {}

  /** The 27 cells are different, also where coordinates wrap. */
  lemma BlockDistinct(c: CellKey)
    ensures NoDup(Block(c))
  {
    forall i, j | 0 <= i < j < 27 ensures Block(c)[i] != Block(c)[j] {
      if Block(c)[i] == Block(c)[j] {
        ShiftInjective(c.x, i % 3 - 1, j % 3 - 1);
        ShiftInjective(c.y, i / 3 % 3 - 1, j / 3 % 3 - 1);
        ShiftInjective(c.z, i / 9 - 1, j / 9 - 1);
        Digits(i);
        Digits(j);
      }
    }
  }

  lemma Digits(i: nat)
    ensures i == i / 9 * 9 + i / 3 % 3 * 3 + i % 3
  {
    var j := i / 3;
    assert i == j * 3 + i % 3;
    assert j == j / 3 * 3 + j % 3;
    assert j / 3 == i / 9;
  }

  predicate Near(a: i32, b: i32) {
    -1 <= a - b <= 1
  }

  /** No neighbour coordinate leaves the 32-bit range. */
  predicate Inner(c: CellKey) {
    && -0x8000_0000 < c.x < 0x7fff_ffff
    && -0x8000_0000 < c.y < 0x7fff_ffff
    && -0x8000_0000 < c.z < 0x7fff_ffff
  }

  /** Every near cell is in the block; away from the rim of the key space nothing else is. */
  lemma BlockIsNeighbourhood(c: CellKey, k: CellKey)
    ensures Near(k.x, c.x) && Near(k.y, c.y) && Near(k.z, c.z) ==> k in Block(c)
    ensures Inner(c) && k in Block(c) ==> Near(k.x, c.x) && Near(k.y, c.y) && Near(k.z, c.z)
  {
    BlockInOrder(c);
    if Near(k.x, c.x) && Near(k.y, c.y) && Near(k.z, c.z) {
      assert k == CellAt(c, k.z - c.z, k.y - c.y, k.x - c.x);
    }
  }

  // ----- geometry -----

  /** No cell that a query at this coordinate looks into is one where the cast to 32 bits saturates. */
  predicate Central(v: real, cs: real)
    requires cs > 0.0
  {
    -0x8000_0000 + 2 <= (v / cs).Floor <= 0x7fff_ffff - 2
  }

  /** Scaling by a positive number keeps the order. */
  lemma ScaledLess(a: real, b: real, c: real, ac: real, bc: real)
    requires a < b && c > 0.0 && ac == a * c && bc == b * c
    ensures ac < bc
  {
    var gap := b - a;
    assert gap * c > 0.0;
    assert gap * c == bc - ac;
  }

  lemma Floors(p: real, q: real)
    ensures -1.0 <= p - q <= 1.0 ==> -1 <= p.Floor - q.Floor <= 1
    ensures -1 <= p.Floor - q.Floor <= 1 ==> -2.0 < p - q < 2.0
  {}

  /** `d` is `t` cell sizes. */
  lemma Bounds(t: real, cs: real, d: real)
    requires cs > 0.0 && d == t * cs
    ensures -cs <= d <= cs ==> -1.0 <= t <= 1.0
    ensures -2.0 < t < 2.0 ==> -(cs + cs) < d < cs + cs
  {
    if t > 1.0 {
      ScaledLess(1.0, t, cs, cs, d);
    } else if t < -1.0 {
      ScaledLess(t, -1.0, cs, d, -cs);
    }
    if t < 2.0 {
      ScaledLess(t, 2.0, cs, d, cs + cs);
    }
    if t > -2.0 {
      ScaledLess(-2.0, t, cs, -(cs + cs), d);
    }
  }

  lemma Scaled(p: real, q: real, cs: real, d: real)
    requires -cs <= d <= cs ==> -1.0 <= p - q <= 1.0
    requires -2.0 < p - q < 2.0 ==> -(cs + cs) < d < cs + cs
    ensures -cs <= d <= cs ==> -1 <= p.Floor - q.Floor <= 1
    ensures -1 <= p.Floor - q.Floor <= 1 ==> -(cs + cs) < d < cs + cs
  {
    Floors(p, q);
  }

  lemma Quotients(a: real, b: real, p: real, q: real, t: real, cs: real)
    requires cs > 0.0 && p == a / cs && q == b / cs && t == p - q
    ensures t * cs == a - b
  {
    assert p * cs == a && q * cs == b;
  }

  /** Within one cell size the cells are near, also where the cast saturates; cells near a central one
      are less than two cell sizes apart. */
  lemma CloseAndNear(a: real, b: real, cs: real)
    requires cs > 0.0
    ensures -cs <= a - b <= cs ==> Near(Coord(a, cs), Coord(b, cs))
    ensures Central(b, cs) && Near(Coord(a, cs), Coord(b, cs)) ==> -(cs + cs) < a - b < cs + cs
  {
    var (p, q) := (a / cs, b / cs);
    var t := p - q;
    Quotients(a, b, p, q, t, cs);
    Bounds(t, cs, a - b);
    Scaled(p, q, cs, a - b);
  }

  // ----- the actor -----

  class SpatialIndexActor {
    const cellSize: real
    var cells: map<CellKey, seq<nat>>
    var total: nat
    /** The points of the last rebuild. */
    ghost var points: seq<Point3>

    ghost predicate Valid() reads this {
      && total == |points|
      && forall k :: (if k in cells then cells[k] else []) == Bucket(points, k, CellSize(cellSize))
    }

    constructor (cellSize: real)
      ensures Valid() && points == [] && this.cellSize == cellSize
    {
      this.cellSize := cellSize;
      cells, total, points := map[], 0, [];
    }

    method AddPoint(p: Point3)
      requires Valid()
      modifies this
      ensures Valid() && points == old(points) + [p]
    {
      var key := CellOf(p, CellSize(cellSize));
      cells := cells[key := (if key in cells then cells[key] else []) + [p.id]];
      total := total + 1;
      points := points + [p];
      assert points[..|points| - 1] == old(points);
    }

    method Rebuild(ps: seq<Point3>) returns (n: nat)
      modifies this
      ensures Valid() && points == ps && n == |ps|
    {
      cells := map[];
      total := 0;
      points := [];
      for i := 0 to |ps|
        invariant Valid() && points == ps[..i]
      {
        AddPoint(ps[i]);
        assert ps[..i + 1] == ps[..i] + [ps[i]];
      }
      assert ps[..|ps|] == ps;
      n := total;
    }

    /** Append one bucket. */
    method Visit(k: CellKey, found: seq<nat>) returns (out: seq<nat>)
      requires Valid()
      ensures out == found + Bucket(points, k, CellSize(cellSize))
    {
      out := if k in cells then found + cells[k] else found;
    }

    /** The innermost loop. `ks` is the whole block, in which the row starts at `i`. */
    method VisitRow(center: CellKey, dz: int, dy: int, ghost ks: seq<CellKey>, ghost i: nat, found: seq<nat>)
      returns (out: seq<nat>)
      requires Valid() && -1 <= dz <= 1 && -1 <= dy <= 1 && InOrder(ks, center)
      requires i == (dz + 1) * 9 + (dy + 1) * 3
      ensures out == found + Gather(points, ks, i, i + 3, CellSize(cellSize))
    {
      out := found;
      ghost var j := i;
      for dx := -1 to 2
        invariant j == i + dx + 1 && out == found + Gather(points, ks, i, j, CellSize(cellSize))
      {
        var k := CellKey(Shift(center.x, dx), Shift(center.y, dy), Shift(center.z, dz));
        assert ks[j] == CellAt(center, dz, dy, dx) == k;
        GatherOne(points, ks, i, j, CellSize(cellSize), found);
        out := Visit(k, out);
        j := j + 1;
      }
    }

    /** The two inner loops. */
    method VisitLayer(center: CellKey, dz: int, ghost ks: seq<CellKey>, ghost i: nat, found: seq<nat>)
      returns (out: seq<nat>)
      requires Valid() && -1 <= dz <= 1 && InOrder(ks, center) && i == (dz + 1) * 9
      ensures out == found + Gather(points, ks, i, i + 9, CellSize(cellSize))
    {
      out := found;
      ghost var j := i;
      for dy := -1 to 2
        invariant j == i + (dy + 1) * 3 && out == found + Gather(points, ks, i, j, CellSize(cellSize))
      {
        out := VisitRow(center, dz, dy, ks, j, out);
        GatherTwo(points, ks, i, j, j + 3, CellSize(cellSize), found);
        j := j + 3;
      }
    }

    /** The triple loop over the block. */
    method VisitBlock(center: CellKey, ghost ks: seq<CellKey>, ghost i: nat, found: seq<nat>) returns (out: seq<nat>)
      requires Valid() && InOrder(ks, center) && |ks| == i + 27
      ensures out == found + Gather(points, ks, i, |ks|, CellSize(cellSize))
    {
      out := found;
      ghost var j := i;
      for dz := -1 to 2
        invariant j == i + (dz + 1) * 9 && out == found + Gather(points, ks, i, j, CellSize(cellSize))
      {
        out := VisitLayer(center, dz, ks, j, out);
        GatherTwo(points, ks, i, j, j + 9, CellSize(cellSize), found);
        j := j + 9;
      }
    }

    /** The ids of all points in the block, each as often as it was inserted. */
    method QueryNeighbors(x: real, y: real, z: real) returns (out: seq<nat>)
      requires Valid()
      ensures multiset(out) == multiset(BruteForce(points, Block(CellFor(x, y, z, CellSize(cellSize))), CellSize(cellSize)))
      ensures Neighbours(points, x, y, z, cellSize, out)
    {
      var center := CellFor(x, y, z, CellSize(cellSize));
      BlockInOrder(center);
      BlockDistinct(center);
      GatherIsBruteForce(points, Block(center), CellSize(cellSize));
      out := VisitBlock(center, Block(center), 0, []);
      AnswersForSize(points, x, y, z, cellSize, out);
    }
  }

  lemma {:induction false} BruteForceMember(ps: seq<Point3>, ks: seq<CellKey>, cs: real, id: nat)
    requires cs > 0.0
    ensures id in BruteForce(ps, ks, cs) <==> exists p :: p in ps && p.id == id && CellOf(p, cs) in ks
  {
    if ps != [] {
      BruteForceMember(ps[..|ps| - 1], ks, cs, id);
      assert ps == ps[..|ps| - 1] + [ps[|ps| - 1]];
    }
  }

  /** A point within one cell size of the query along each axis. */
  predicate Within(p: Point3, x: real, y: real, z: real, d: real) {
    -d <= p.x - x <= d && -d <= p.y - y <= d && -d <= p.z - z <= d
  }

  predicate StrictlyWithin(p: Point3, x: real, y: real, z: real, d: real) {
    -d < p.x - x < d && -d < p.y - y < d && -d < p.z - z < d
  }

  /** A query misses no point within one cell size per axis, wherever it is. */
  lemma QueryIsComplete(ps: seq<Point3>, x: real, y: real, z: real, cs: real, p: Point3)
    requires cs > 0.0 && p in ps && Within(p, x, y, z, cs)
    ensures p.id in BruteForce(ps, Block(CellFor(x, y, z, cs)), cs)
  {
    CloseAndNear(p.x, x, cs);
    CloseAndNear(p.y, y, cs);
    CloseAndNear(p.z, z, cs);
    BlockIsNeighbourhood(CellFor(x, y, z, cs), CellOf(p, cs));
    BruteForceMember(ps, Block(CellFor(x, y, z, cs)), cs, p.id);
  }

  /** What an answer says in terms of the configured cell size: it has every point within one cell size per axis and,
      away from the rim of the key space, only points less than two cell sizes away. */
  ghost predicate Neighbours(ps: seq<Point3>, x: real, y: real, z: real, cellSize: real, ids: seq<nat>) {
    && (forall p :: p in ps && Within(p, x, y, z, cellSize) ==> p.id in ids)
    && (cellSize >= 0.000001 && Central(x, cellSize) && Central(y, cellSize) && Central(z, cellSize) ==>
          forall id :: id in ids ==> exists p :: p in ps && p.id == id && StrictlyWithin(p, x, y, z, cellSize + cellSize))
  }

  lemma AnswersForSize(ps: seq<Point3>, x: real, y: real, z: real, configured: real, ids: seq<nat>)
    requires var cs := CellSize(configured);
             multiset(ids) == multiset(BruteForce(ps, Block(CellFor(x, y, z, cs)), cs))
    ensures Neighbours(ps, x, y, z, configured, ids)
  {
    var cs := CellSize(configured);
    var block := Block(CellFor(x, y, z, cs));
    var answer := BruteForce(ps, block, cs);
    SameMembers(ids, answer);
    forall p | p in ps && Within(p, x, y, z, configured) ensures p.id in ids {
      QueryIsComplete(ps, x, y, z, cs, p);
    }
    if configured >= 0.000001 && Central(x, configured) && Central(y, configured) && Central(z, configured) {
      QueryIsLocalIff(x, y, z, cs);
      forall id | id in ids
        ensures exists p :: p in ps && p.id == id && StrictlyWithin(p, x, y, z, configured + configured)
      {
        BruteForceMember(ps, block, cs, id);
        var p :| p in ps && p.id == id && CellOf(p, cs) in block;
        assert StrictlyWithin(p, x, y, z, cs + cs);
      }
    }
  }

  lemma SameMembers(a: seq<nat>, b: seq<nat>)
    requires multiset(a) == multiset(b)
    ensures forall x :: x in a <==> x in b
  {
    assert forall x :: x in a <==> x in multiset(a);
    assert forall x :: x in b <==> x in multiset(b);
  }

  /** The cell of a coordinate is the interval of the cell size that it lies in. */
  lemma CoordIsFloor(v: real, cs: real)
    requires cs > 0.0 && -0x8000_0000 <= (v / cs).Floor <= 0x7fff_ffff
    ensures (Coord(v, cs) as real) * cs <= v < (Coord(v, cs) as real) * cs + cs
  {
    var (q, n) := (v / cs, Coord(v, cs));
    assert q * cs == v;
    Slope(n as real, q, cs);
    ScaledLess(q, n as real + 1.0, cs, v, (n as real) * cs + cs);
  }

  lemma Slope(a: real, b: real, cs: real)
    requires a <= b && cs > 0.0
    ensures a * cs <= b * cs
  {
    assert (b - a) * cs >= 0.0;
  }

  /** Points that all lie in listed cells are all found, in order. */
  lemma {:induction false} AllListed(ps: seq<Point3>, ks: seq<CellKey>, cs: real)
    requires cs > 0.0 && forall p :: p in ps ==> CellOf(p, cs) in ks
    ensures BruteForce(ps, ks, cs) == seq(|ps|, i requires 0 <= i < |ps| => ps[i].id)
  {
    if ps != [] {
      AllListed(ps[..|ps| - 1], ks, cs);
    }
  }

  /** Every point that a query here finds is less than two cell sizes away per axis. */
  ghost predicate Local(x: real, y: real, z: real, cs: real)
    requires cs > 0.0
  {
    forall p :: CellOf(p, cs) in Block(CellFor(x, y, z, cs)) ==> StrictlyWithin(p, x, y, z, cs + cs)
  }

  /** That holds exactly for queries away from the cells where the cast saturates: those cells hold
      points at any distance. */
  lemma QueryIsLocalIff(x: real, y: real, z: real, cs: real)
    requires cs > 0.0
    ensures Local(x, y, z, cs) <==> Central(x, cs) && Central(y, cs) && Central(z, cs)
  {
    if Central(x, cs) && Central(y, cs) && Central(z, cs) {
      forall p | CellOf(p, cs) in Block(CellFor(x, y, z, cs)) ensures StrictlyWithin(p, x, y, z, cs + cs) {
        BlockIsNeighbourhood(CellFor(x, y, z, cs), CellOf(p, cs));
        CloseAndNear(p.x, x, cs);
        CloseAndNear(p.y, y, cs);
        CloseAndNear(p.z, z, cs);
      }
    } else {
      var fx := Away(x, cs);
      var fy := Away(y, cs);
      var fz := Away(z, cs);
      var far := Point3(0, if Central(x, cs) then x else fx, if Central(y, cs) then y else fy,
                        if Central(z, cs) then z else fz);
      BlockIsNeighbourhood(CellFor(x, y, z, cs), CellOf(far, cs));
      assert CellOf(far, cs) in Block(CellFor(x, y, z, cs)) && !StrictlyWithin(far, x, y, z, cs + cs);
    }
  }

  /** At the rim, three cell sizes further out is still a near cell. */
  lemma Away(v: real, cs: real) returns (w: real)
    requires cs > 0.0
    ensures !Central(v, cs) ==> Near(Coord(w, cs), Coord(v, cs)) && !(-(cs + cs) < w - v < cs + cs)
  {
    var step := if v / cs >= 0.0 then 3.0 else -3.0;
    w := v + step * cs;
    Moved(v, cs, step, w);
    FloorShift(v / cs, w / cs, if v / cs >= 0.0 then 3 else -3);
  }

  lemma Moved(v: real, cs: real, step: real, w: real)
    requires cs > 0.0 && w == v + step * cs
    ensures w / cs == v / cs + step
  {
    assert (v / cs) * cs == v;
    var q := v / cs + step;
    assert q * cs == w;
  }

  lemma FloorShift(a: real, b: real, n: int)
    requires b == a + n as real
    ensures b.Floor == a.Floor + n
  {}
}
