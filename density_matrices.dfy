/**
 * The density grid (class DensityMatrix of pdb_eda/ccp4.py): the flat list of
 * densities reshaped to (sections, rows, columns), the lookup of one grid
 * point through validCRS, the enumeration of the grid points around a
 * centre, their total density, and the union over several centres that
 * findAberrantBlobs passes on to blob construction.
 */
module DensityMatrices {
  import opened Results
  import opened DensityHeaders
  import opened Sums

  /** Exceptions the grid operations raise. */
  datatype MatrixError =
    | ShapeMismatch // ValueError: the densities do not fill the grid the header describes
    | IndexError    // numpy index out of range, or an empty list of centres
    | TypeError     // validCRS assigning into a tuple

  datatype DensityMatrix = DensityMatrix(header: Header, origin: Origin, densityArray: seq<real>, pdbid: string)

  /** `reshape(ncrs[2], ncrs[1], ncrs[0])` accepts `count` elements. */
  predicate Reshapes(n: Int3, count: int) {
    n.0 >= 0 && n.1 >= 0 && n.2 >= 0 && n.0 * n.1 * n.2 == count
  }

  /** The density list fills the grid exactly. */
  predicate Valid(m: DensityMatrix) {
    Reshapes(m.header.ncrs, |m.densityArray|)
  }

  /** DensityMatrix.__init__: the reshape fails unless the counts agree. */
  function NewDensityMatrix(header: Header, origin: Origin, density: seq<real>, pdbid: string)
    : (r: Result<DensityMatrix, MatrixError>)
    ensures r.Ok? <==> Reshapes(header.ncrs, |density|)
    ensures r.Err? ==> r.error == ShapeMismatch
    ensures r.Ok? ==> Valid(r.value) && r.value.header == header && r.value.densityArray == density
  {
    if Reshapes(header.ncrs, |density|) then Ok(DensityMatrix(header, origin, density, pdbid))
    else Err(ShapeMismatch)
  }

  // ---------------------------------------------------------------------------
  // Grid indexing
  // ---------------------------------------------------------------------------

  /** Where `density[s, r, c]` of the reshaped array sits in the flat list. */
  function FlatIndex(n: Int3, v: Int3): int {
    v.0 + n.0 * (v.1 + n.1 * v.2)
  }

  lemma MulMono(a: int, x: int, y: int)
    requires a >= 0 && x <= y
    ensures a * x <= a * y
  {
    assert a * y - a * x == a * (y - x);
  }

  /** Every grid point has its own place in the flat list. */
  lemma FlatIndexInBounds(n: Int3, v: Int3)
    requires InGrid(n, v)
    ensures 0 <= FlatIndex(n, v) < n.0 * n.1 * n.2
  {
    var t := v.1 + n.1 * v.2;
    MulMono(n.1, 0, v.2);
    MulMono(n.1, v.2, n.2 - 1);
    assert 0 <= t <= n.1 * n.2 - 1;
    MulMono(n.0, 0, t);
    MulMono(n.0, t, n.1 * n.2 - 1);
    assert n.0 * (n.1 * n.2 - 1) == n.0 * n.1 * n.2 - n.0;
  }

  /** `a + n * b` with `0 <= a < n` determines `a` and `b`. */
  lemma {:induction false} MixedRadixUnique(n: int, a: int, b: int, a': int, b': int)
    requires 0 <= a < n && 0 <= a' < n && a + n * b == a' + n * b'
    ensures a == a' && b == b'
  {
    assert n * (b - b') == a' - a;
    if b > b' {
      MulMono(n, 1, b - b');
    } else if b < b' {
      MulMono(n, 1, b' - b);
    }
  }

  /** Distinct grid points never share a place in the flat list. */
  lemma FlatIndexInjective(n: Int3, v: Int3, w: Int3)
    requires InGrid(n, v) && InGrid(n, w) && FlatIndex(n, v) == FlatIndex(n, w)
    ensures v == w
  {
    MixedRadixUnique(n.0, v.0, v.1 + n.1 * v.2, w.0, w.1 + n.1 * w.2);
    MixedRadixUnique(n.1, v.1, v.2, w.1, w.2);
  }

  /** The density stored at a grid point. */
  function GridDensity(m: DensityMatrix, v: Int3): real
    requires Valid(m) && InGrid(m.header.ncrs, v)
  {
    FlatIndexInBounds(m.header.ncrs, v);
    m.densityArray[FlatIndex(m.header.ncrs, v)]
  }

  /** numpy's reading of index `k` on an axis of length `n`: negative indices count from the end. */
  function NpIndex(k: int, n: int): (r: Option<int>)
    ensures r.Some? <==> -n <= k < n
    ensures 0 <= k < n ==> r == Some(k)
    ensures r.Some? ==> 0 <= r.value < n && (k < 0 ==> r.value == k + n)
  {
    if 0 <= k < n then Some(k) else if -n <= k < 0 then Some(k + n) else None
  }

  /** `density[c[2], c[1], c[0]]` on the reshaped numpy array. */
  function Lookup(m: DensityMatrix, c: Int3): (r: Result<real, MatrixError>)
    requires Valid(m)
    ensures var n := m.header.ncrs;
      r.Ok? <==> -n.0 <= c.0 < n.0 && -n.1 <= c.1 < n.1 && -n.2 <= c.2 < n.2
    ensures r.Err? ==> r.error == IndexError
    ensures InGrid(m.header.ncrs, c) ==> r == Ok(GridDensity(m, c))
  {
    var n := m.header.ncrs;
    var s, row, col := NpIndex(c.2, n.2), NpIndex(c.1, n.1), NpIndex(c.0, n.0);
    if s.Some? && row.Some? && col.Some? then Ok(GridDensity(m, Int3(col.value, row.value, s.value)))
    else Err(IndexError)
  }

  /** getPointDensityFromCrs on a list: 0 for a coordinate validCRS rejects. */
  function PointDensitySpec(m: DensityMatrix, c: Int3): Result<real, MatrixError>
    requires Valid(m) && IntervalsNonZero(m.header)
  {
    var chk := ValidCrsSpec(m.header, c);
    if chk.valid then Lookup(m, chk.crs) else Ok(0.0)
  }

  /**
   * With positive interval counts the lookup never fails: a coordinate
   * validCRS accepts is wrapped into the grid and read at its flat index,
   * and that index lies inside the density list.
   */
  lemma PointDensityPositiveIntervals(m: DensityMatrix, c: Int3)
    requires Valid(m) && IntervalsNonZero(m.header)
    requires m.header.crsInterval.0 > 0 && m.header.crsInterval.1 > 0 && m.header.crsInterval.2 > 0
    ensures var chk := ValidCrsSpec(m.header, c);
      && (chk.valid ==> InGrid(m.header.ncrs, chk.crs)
                        && 0 <= FlatIndex(m.header.ncrs, chk.crs) < |m.densityArray|
                        && PointDensitySpec(m, c) == Ok(m.densityArray[FlatIndex(m.header.ncrs, chk.crs)]))
      && (!chk.valid ==> PointDensitySpec(m, c) == Ok(0.0))
  {
    var chk := ValidCrsSpec(m.header, c);
    if chk.valid {
      ValidCrsTrueInGrid(m.header, c);
      FlatIndexInBounds(m.header.ncrs, chk.crs);
    }
  }

  /** DensityMatrix.getPointDensityFromCrs: validCRS wraps the list in place, then the grid is read. */
  method PointDensityFromCrs(m: DensityMatrix, crsCoord: array<int>) returns (r: Result<real, MatrixError>)
    requires Valid(m) && IntervalsNonZero(m.header) && crsCoord.Length == 3
    modifies crsCoord
    ensures var start := Int3(old(crsCoord[0]), old(crsCoord[1]), old(crsCoord[2]));
      && Int3(crsCoord[0], crsCoord[1], crsCoord[2]) == ValidCrsSpec(m.header, start).crs
      && r == PointDensitySpec(m, start)
  {
    var valid := ValidCrs(m.header, crsCoord);
    if valid {
      r := Lookup(m, Int3(crsCoord[0], crsCoord[1], crsCoord[2]));
    } else {
      r := Ok(0.0);
    }
  }

  /**
   * getPointDensityFromCrs on a tuple: validCRS cannot assign into it, so a
   * coordinate outside the grid raises TypeError instead of being wrapped.
   */
  function TupleDensity(m: DensityMatrix, c: Int3): (r: Result<real, MatrixError>)
    requires Valid(m)
    ensures r.Ok? <==> InGrid(m.header.ncrs, c)
    ensures r.Err? ==> r.error == TypeError
  {
    if InGrid(m.header.ncrs, c) then Ok(GridDensity(m, c)) else Err(TypeError)
  }

  /** On a point inside the grid the tuple and the list give the same density. */
  lemma TupleAgreesWithList(m: DensityMatrix, c: Int3)
    requires Valid(m) && IntervalsNonZero(m.header) && InGrid(m.header.ncrs, c)
    ensures ValidCrsSpec(m.header, c) == Checked(c, true)
    ensures PointDensitySpec(m, c) == TupleDensity(m, c) == Ok(GridDensity(m, c))
  {
    ValidCrsCharacterized(m.header, c);
  }

  // ---------------------------------------------------------------------------
  // Sphere query
  // ---------------------------------------------------------------------------

  /** The density cutoff of getSphereCrsFromXyz, as the chained comparison reads. */
  predicate Keeps(cutoff: real, density: real): (k: bool)
    ensures cutoff == 0.0 ==> k
    ensures cutoff > 0.0 ==> (k <==> density > cutoff)
    ensures cutoff < 0.0 ==> (k <==> density < cutoff)
  {
    0.0 < cutoff < density || density < cutoff < 0.0 || cutoff == 0.0
  }

  /** A half-open box of grid points, `lo <= p < hi` on every axis. */
  datatype Box = Box(lo: Int3, hi: Int3)

  /** The three `range` calls: `[c - r - 1, c + r]` on every axis. */
  function SphereBox(center: Int3, rad: Int3): Box {
    Box(Int3(center.0 - rad.0 - 1, center.1 - rad.1 - 1, center.2 - rad.2 - 1),
        Int3(center.0 + rad.0 + 1, center.1 + rad.1 + 1, center.2 + rad.2 + 1))
  }

  predicate InBox(b: Box, p: Int3) {
    b.lo.0 <= p.0 < b.hi.0 && b.lo.1 <= p.1 < b.hi.1 && b.lo.2 <= p.2 < b.hi.2
  }

  /** No point of the box lies outside the grid (else the tuple lookup raises). */
  ghost predicate BoxInGrid(n: Int3, b: Box) {
    forall p :: InBox(b, p) ==> InGrid(n, p)
  }

  /** The order `itertools.product` visits the box in: first axis slowest. */
  predicate LexLess(p: Int3, q: Int3) {
    p.0 < q.0 || (p.0 == q.0 && (p.1 < q.1 || (p.1 == q.1 && p.2 < q.2)))
  }

  predicate StrictlyIncreasing(s: seq<Int3>) {
    forall i, j :: 0 <= i < j < |s| ==> LexLess(s[i], s[j])
  }

  lemma IncreasingIsDistinct(s: seq<Int3>)
    requires StrictlyIncreasing(s)
    ensures Distinct(s)
  {
  }

  /**
   * A grid point passes both tests: the density cutoff and the distance
   * test. The distance test (the Euclidean distance of the point's xyz
   * coordinates from the centre is at most the radius) is a parameter.
   */
  predicate Selected(m: DensityMatrix, cutoff: real, within: Int3 -> bool, p: Int3)
    requires Valid(m) && InGrid(m.header.ncrs, p)
  {
    Keeps(cutoff, GridDensity(m, p)) && within(p)
  }

  /** The grid points the query keeps, as a set. */
  ghost function SphereSet(m: DensityMatrix, b: Box, cutoff: real, within: Int3 -> bool): set<Int3>
    requires Valid(m)
  {
    set x, y, z | b.lo.0 <= x < b.hi.0 && b.lo.1 <= y < b.hi.1 && b.lo.2 <= z < b.hi.2
                  && InGrid(m.header.ncrs, Int3(x, y, z)) && Selected(m, cutoff, within, Int3(x, y, z))
                :: Int3(x, y, z)
  }

  /** The box has been scanned up to (not including) `q`, and `out` holds what was kept. */
  ghost predicate Scanned(m: DensityMatrix, b: Box, cutoff: real, within: Int3 -> bool, out: seq<Int3>, q: Int3)
    requires Valid(m)
  {
    && (forall p :: InBox(b, p) && LexLess(p, q) ==> InGrid(m.header.ncrs, p))
    && (forall p :: p in out <==>
          InBox(b, p) && LexLess(p, q) && InGrid(m.header.ncrs, p) && Selected(m, cutoff, within, p))
    && StrictlyIncreasing(out)
  }

  lemma ScanStart(m: DensityMatrix, b: Box, cutoff: real, within: Int3 -> bool)
    requires Valid(m)
    ensures Scanned(m, b, cutoff, within, [], b.lo)
  {
  }

  lemma ScanStep(m: DensityMatrix, b: Box, cutoff: real, within: Int3 -> bool, out: seq<Int3>, q: Int3)
    requires Valid(m) && Scanned(m, b, cutoff, within, out, q) && InBox(b, q) && InGrid(m.header.ncrs, q)
    ensures Scanned(m, b, cutoff, within,
                    if Selected(m, cutoff, within, q) then out + [q] else out, Int3(q.0, q.1, q.2 + 1))
  {
  }

  /** The innermost range is exhausted: move to the next row of the box. */
  lemma ScanNextRow(m: DensityMatrix, b: Box, cutoff: real, within: Int3 -> bool, out: seq<Int3>, x: int, y: int, z: int)
    requires Valid(m) && Scanned(m, b, cutoff, within, out, Int3(x, y, z)) && z >= b.hi.2
    ensures Scanned(m, b, cutoff, within, out, Int3(x, y + 1, b.lo.2))
  {
  }

  /** The middle range is exhausted: move to the next plane of the box. */
  lemma ScanNextPlane(m: DensityMatrix, b: Box, cutoff: real, within: Int3 -> bool, out: seq<Int3>, x: int, y: int)
    requires Valid(m) && Scanned(m, b, cutoff, within, out, Int3(x, y, b.lo.2)) && y >= b.hi.1
    ensures Scanned(m, b, cutoff, within, out, Int3(x + 1, b.lo.1, b.lo.2))
  {
  }

  lemma ScanEnd(m: DensityMatrix, b: Box, cutoff: real, within: Int3 -> bool, out: seq<Int3>, x: int)
    requires Valid(m) && Scanned(m, b, cutoff, within, out, Int3(x, b.lo.1, b.lo.2)) && x >= b.hi.0
    ensures BoxInGrid(m.header.ncrs, b)
    ensures Elems(out) == SphereSet(m, b, cutoff, within)
  {
    forall p | InBox(b, p) ensures LexLess(p, Int3(x, b.lo.1, b.lo.2)) { }
    forall p | p in SphereSet(m, b, cutoff, within) ensures p in out {
      assert InBox(b, p) && LexLess(p, Int3(x, b.lo.1, b.lo.2));
    }
  }

  /**
   * DensityMatrix.getSphereCrsFromXyz, from the grid position of the centre
   * and of the radius on. The box is walked in `itertools.product` order;
   * the first box point outside the grid raises TypeError; otherwise the
   * answer is exactly the selected points of the box, each once, in the
   * order visited.
   */
  method SphereCrs(m: DensityMatrix, center: Int3, rad: Int3, cutoff: real, within: Int3 -> bool)
    returns (r: Result<seq<Int3>, MatrixError>)
    requires Valid(m)
    ensures r.Err? <==> !BoxInGrid(m.header.ncrs, SphereBox(center, rad))
    ensures r.Err? ==> r.error == TypeError
    ensures r.Ok? ==> forall p :: p in r.value <==>
      InBox(SphereBox(center, rad), p) && InGrid(m.header.ncrs, p) && Selected(m, cutoff, within, p)
    ensures r.Ok? ==> Elems(r.value) == SphereSet(m, SphereBox(center, rad), cutoff, within)
    ensures r.Ok? ==> StrictlyIncreasing(r.value) && Distinct(r.value)
  {
    var b := SphereBox(center, rad);
    var out: seq<Int3> := [];
    ScanStart(m, b, cutoff, within);
    var x := b.lo.0;
    while x < b.hi.0
      invariant b.lo.0 <= x
      invariant Scanned(m, b, cutoff, within, out, Int3(x, b.lo.1, b.lo.2))
      decreases b.hi.0 - x
    {
      var y := b.lo.1;
      while y < b.hi.1
        invariant b.lo.1 <= y
        invariant Scanned(m, b, cutoff, within, out, Int3(x, y, b.lo.2))
        decreases b.hi.1 - y
      {
        var z := b.lo.2;
        while z < b.hi.2
          invariant b.lo.2 <= z
          invariant Scanned(m, b, cutoff, within, out, Int3(x, y, z))
          decreases b.hi.2 - z
        {
          var crs := Int3(x, y, z);
          var density := TupleDensity(m, crs);
          if density.Err? {
            assert InBox(b, crs);
            return Err(TypeError);
          }
          ScanStep(m, b, cutoff, within, out, crs);
          if Keeps(cutoff, density.value) && within(crs) {
            out := out + [crs];
          }
          z := z + 1;
        }
        ScanNextRow(m, b, cutoff, within, out, x, y, z);
        y := y + 1;
      }
      ScanNextPlane(m, b, cutoff, within, out, x, y);
      x := x + 1;
    }
    ScanEnd(m, b, cutoff, within, out, x);
    IncreasingIsDistinct(out);
    return Ok(out);
  }

  /** The density of a grid point, 0 elsewhere (never used off the grid). */
  function DensityOrZero(m: DensityMatrix, p: Int3): real
    requires Valid(m)
  {
    if InGrid(m.header.ncrs, p) then GridDensity(m, p) else 0.0
  }

  /**
   * DensityMatrix.getTotalDensityFromXyz: the sum of the densities of the
   * points the sphere query returns, which is the sum over the set of
   * selected points.
   */
  method TotalDensity(m: DensityMatrix, center: Int3, rad: Int3, cutoff: real, within: Int3 -> bool)
    returns (r: Result<real, MatrixError>)
    requires Valid(m)
    ensures r.Err? <==> !BoxInGrid(m.header.ncrs, SphereBox(center, rad))
    ensures r.Err? ==> r.error == TypeError
    ensures r.Ok? ==> r.value == SetSum(SphereSet(m, SphereBox(center, rad), cutoff, within), p => DensityOrZero(m, p))
  {
    var crsList :- SphereCrs(m, center, rad, cutoff, within);
    var f := p => DensityOrZero(m, p);
    var total := 0.0;
    for i := 0 to |crsList|
      invariant total == SeqSum(crsList[..i], f)
    {
      var density := TupleDensity(m, crsList[i]);
      assert crsList[..i + 1][..i] == crsList[..i];
      total := total + density.value;
    }
    assert crsList[..|crsList|] == crsList;
    SeqSumIsSetSum(crsList, f);
    return Ok(total);
  }

  // ---------------------------------------------------------------------------
  // Several centres
  // ---------------------------------------------------------------------------

  /** One sphere centre: its grid position and its distance test. */
  datatype Centre = Centre(crs: Int3, within: Int3 -> bool)

  /** findAberrantBlobs accepts one coordinate or a list of them. */
  datatype Query = Single(centre: Centre) | Many(centres: seq<Centre>)

  /** Every centre's box lies inside the grid. */
  ghost predicate AllBoxesInGrid(m: DensityMatrix, cs: seq<Centre>, rad: Int3) {
    forall i :: 0 <= i < |cs| ==> BoxInGrid(m.header.ncrs, SphereBox(cs[i].crs, rad))
  }

  /** The points selected around any of the centres. */
  ghost function Covered(m: DensityMatrix, cs: seq<Centre>, rad: Int3, cutoff: real): set<Int3>
    requires Valid(m)
  {
    if |cs| == 0 then {}
    else Covered(m, cs[..|cs| - 1], rad, cutoff)
         + SphereSet(m, SphereBox(cs[|cs| - 1].crs, rad), cutoff, cs[|cs| - 1].within)
  }

  /** One more centre adds its sphere to the union. */
  lemma CoveredSnoc(m: DensityMatrix, cs: seq<Centre>, i: nat, rad: Int3, cutoff: real)
    requires Valid(m) && i < |cs|
    ensures Covered(m, cs[..i + 1], rad, cutoff)
            == Covered(m, cs[..i], rad, cutoff) + SphereSet(m, SphereBox(cs[i].crs, rad), cutoff, cs[i].within)
  {
    var cs' := cs[..i + 1];
    assert cs'[..i] == cs[..i] && cs'[i] == cs[i];
  }

  /** The union of the sets `f` assigns to the centres. */
  ghost function UnionOver(cs: seq<Centre>, f: Centre -> set<Int3>): set<Int3> {
    if |cs| == 0 then {} else UnionOver(cs[..|cs| - 1], f) + f(cs[|cs| - 1])
  }

  lemma {:induction false} UnionOverMembership(cs: seq<Centre>, f: Centre -> set<Int3>, p: Int3)
    ensures p in UnionOver(cs, f) <==> exists i :: 0 <= i < |cs| && p in f(cs[i])
    decreases |cs|
  {
    if |cs| > 0 {
      var n := |cs| - 1;
      UnionOverMembership(cs[..n], f, p);
      assert forall i :: 0 <= i < n ==> cs[..n][i] == cs[i];
    }
  }

  /** Covered is the union of the centres' spheres. */
  lemma {:induction false} CoveredIsUnion(m: DensityMatrix, cs: seq<Centre>, rad: Int3, cutoff: real)
    requires Valid(m)
    ensures Covered(m, cs, rad, cutoff) == UnionOver(cs, (c: Centre) => SphereSet(m, SphereBox(c.crs, rad), cutoff, c.within))
    decreases |cs|
  {
    if |cs| > 0 {
      CoveredIsUnion(m, cs[..|cs| - 1], rad, cutoff);
    }
  }

  /** A point is covered iff it lies in the sphere of some centre. */
  lemma CoveredMembership(m: DensityMatrix, cs: seq<Centre>, rad: Int3, cutoff: real, p: Int3)
    requires Valid(m)
    ensures p in Covered(m, cs, rad, cutoff) <==>
      exists i :: 0 <= i < |cs| && p in SphereSet(m, SphereBox(cs[i].crs, rad), cutoff, cs[i].within)
  {
    var f := (c: Centre) => SphereSet(m, SphereBox(c.crs, rad), cutoff, c.within);
    CoveredIsUnion(m, cs, rad, cutoff);
    UnionOverMembership(cs, f, p);
  }

  /** One more centre adds its box to the condition that every box is in the grid. */
  lemma AllBoxesSnoc(m: DensityMatrix, cs: seq<Centre>, i: nat, rad: Int3)
    requires i < |cs|
    ensures AllBoxesInGrid(m, cs[..i + 1], rad)
            <==> AllBoxesInGrid(m, cs[..i], rad) && BoxInGrid(m.header.ncrs, SphereBox(cs[i].crs, rad))
  {
    assert cs[..i + 1][i] == cs[i];
    assert forall j :: 0 <= j < i ==> cs[..i + 1][j] == cs[..i][j];
  }

  /** The set comprehension over every centre's sphere list; the first failing sphere raises. */
  method SphereUnion(m: DensityMatrix, cs: seq<Centre>, rad: Int3, cutoff: real)
    returns (r: Result<set<Int3>, MatrixError>)
    requires Valid(m)
    ensures r.Ok? <==> AllBoxesInGrid(m, cs, rad)
    ensures r.Err? ==> r.error == TypeError
    ensures r.Ok? ==> r.value == Covered(m, cs, rad, cutoff)
  {
    var union: set<Int3> := {};
    for i := 0 to |cs|
      invariant AllBoxesInGrid(m, cs[..i], rad)
      invariant union == Covered(m, cs[..i], rad, cutoff)
    {
      var sphere := SphereCrs(m, cs[i].crs, rad, cutoff, cs[i].within);
      if sphere.Err? {
        AllBoxesSnoc(m, cs, i, rad);
        return Err(sphere.error);
      }
      CoveredSnoc(m, cs, i, rad, cutoff);
      AllBoxesSnoc(m, cs, i, rad);
      union := union + Elems(sphere.value);
    }
    assert cs[..|cs|] == cs;
    return Ok(union);
  }

  /**
   * The coordinate list findAberrantBlobs builds before grouping it into
   * blobs: one centre gives its sphere list; an empty list of centres
   * raises IndexError; several give the union of their spheres, each point
   * once, in an order the model does not fix.
   */
  method AberrantCrs(m: DensityMatrix, query: Query, rad: Int3, cutoff: real)
    returns (r: Result<seq<Int3>, MatrixError>)
    requires Valid(m)
    ensures query.Many? && |query.centres| == 0 ==> r == Err(IndexError)
    ensures r.Err? && (query.Single? || |query.centres| > 0) ==> r.error == TypeError
    ensures query.Single? ==> (r.Ok? <==> BoxInGrid(m.header.ncrs, SphereBox(query.centre.crs, rad)))
    ensures query.Many? && |query.centres| > 0 ==> (r.Ok? <==> AllBoxesInGrid(m, query.centres, rad))
    ensures r.Ok? ==> Distinct(r.value)
    ensures r.Ok? && query.Single? ==>
      Elems(r.value) == SphereSet(m, SphereBox(query.centre.crs, rad), cutoff, query.centre.within)
    ensures r.Ok? && query.Many? ==> Elems(r.value) == Covered(m, query.centres, rad, cutoff)
  {
    if query.Single? {
      r := SphereCrs(m, query.centre.crs, rad, cutoff, query.centre.within);
      return;
    }
    var cs := query.centres;
    if |cs| == 0 {
      return Err(IndexError);
    }
    if |cs| == 1 {
      r := SphereCrs(m, cs[0].crs, rad, cutoff, cs[0].within);
      assert cs[..0] == [];
      return;
    }
    var union :- SphereUnion(m, cs, rad, cutoff);
    var crsList := Enumerate(union);
    return Ok(crsList);
  }
}
