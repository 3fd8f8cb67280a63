/**
 * Blobs of aberrant density (class DensityBlob of pdb_eda/ccp4.py): a set of
 * grid points with the total density, volume, density-weighted centroid and
 * plain centre computed from them; the overlap test, the in-place merge and
 * the approximate equality; and the construction of one blob per component
 * of a coordinate list.
 */
module DensityBlobs {
  import opened Results
  import opened DensityHeaders
  import opened Sums
  import opened DensityMatrices

  /**
   * What a blob takes from the header: the volume of one grid cell and the
   * crs-to-xyz transform (both computed with trigonometry in the source).
   */
  datatype Geometry = Geometry(unitVolume: real, crs2xyz: Int3 -> Vec3)

  /** Exceptions raised while blobs are built. */
  datatype BlobError =
    | EmptyBlob           // ZeroDivisionError: the centroid of an empty list
    | Grid(e: MatrixError) // raised by the grid: numpy IndexError, or the sphere query's errors

  /** The numbers a blob carries, and that `__eq__` compares. */
  datatype BlobSummary = BlobSummary(centroid: Vec3, coordCenter: Vec3, totalDensity: real, volume: real)

  /** Every point can be read from the 3-d density array (negative indices wrap, as in numpy). */
  predicate Readable(m: DensityMatrix, points: set<Int3>)
    requires Valid(m)
  {
    forall p :: p in points ==> Lookup(m, p).Ok?
  }

  predicate ReadableList(m: DensityMatrix, points: seq<Int3>)
    requires Valid(m)
  {
    forall p :: p in points ==> Lookup(m, p).Ok?
  }

  /** A listing of a set is readable iff the set is, and is non-empty iff the set is. */
  lemma ReadableEnumeration(m: DensityMatrix, xs: set<Int3>, points: seq<Int3>)
    requires Valid(m) && Elems(points) == xs
    ensures ReadableList(m, points) <==> Readable(m, xs)
    ensures |points| > 0 <==> xs != {}
  {
    forall p ensures p in points <==> p in xs {
      assert p in points <==> p in Elems(points);
    }
    if |points| > 0 {
      assert points[0] in Elems(points);
    }
  }

  /** `densityMatrix[p[2], p[1], p[0]]`, or 0 where that raises. */
  function Density(m: DensityMatrix, p: Int3): real
    requires Valid(m)
  {
    match Lookup(m, p)
    case Ok(d) => d
    case Err(_) => 0.0
  }

  function DensityOf(m: DensityMatrix): Int3 -> real
    requires Valid(m)
  {
    p => Density(m, p)
  }

  /** The density-weighted coordinate `i` of a point. */
  function Weight(g: Geometry, m: DensityMatrix, i: nat): Int3 -> real
    requires Valid(m) && i < 3
  {
    p => Density(m, p) * g.crs2xyz(p).At(i)
  }

  /** Coordinate `i` of a point's xyz position. */
  function Coord(g: Geometry, i: nat): Int3 -> real
    requires i < 3
  {
    p => g.crs2xyz(p).At(i)
  }

  /** The sums fromCrsList builds up: total density, weighted coordinates, plain coordinates. */
  datatype Totals = Totals(density: real, weights: Vec3, coords: Vec3)

  function SeqTotals(points: seq<Int3>, g: Geometry, m: DensityMatrix): Totals
    requires Valid(m)
  {
    Totals(SeqSum(points, DensityOf(m)),
           Vec3(SeqSum(points, Weight(g, m, 0)), SeqSum(points, Weight(g, m, 1)), SeqSum(points, Weight(g, m, 2))),
           Vec3(SeqSum(points, Coord(g, 0)), SeqSum(points, Coord(g, 1)), SeqSum(points, Coord(g, 2))))
  }

  ghost function SetTotals(points: set<Int3>, g: Geometry, m: DensityMatrix): Totals
    requires Valid(m)
  {
    Totals(SetSum(points, DensityOf(m)),
           Vec3(SetSum(points, Weight(g, m, 0)), SetSum(points, Weight(g, m, 1)), SetSum(points, Weight(g, m, 2))),
           Vec3(SetSum(points, Coord(g, 0)), SetSum(points, Coord(g, 1)), SetSum(points, Coord(g, 2))))
  }

  /** `w + d * v`, component by component: one point's contribution to the weighted coordinates. */
  function AddWeighted(w: Vec3, d: real, v: Vec3): Vec3 {
    Vec3(w.0 + d * v.0, w.1 + d * v.1, w.2 + d * v.2)
  }

  /** One more point adds its density, its weighted coordinates and its coordinates. */
  lemma SeqTotalsSnoc(points: seq<Int3>, p: Int3, g: Geometry, m: DensityMatrix)
    requires Valid(m)
    ensures var t, d, xyz := SeqTotals(points, g, m), Density(m, p), g.crs2xyz(p);
      SeqTotals(points + [p], g, m)
      == Totals(t.density + d,
                AddWeighted(t.weights, d, xyz),
                Vec3(t.coords.0 + xyz.0, t.coords.1 + xyz.1, t.coords.2 + xyz.2))
  {
    var t, t', d, xyz := SeqTotals(points, g, m), SeqTotals(points + [p], g, m), Density(m, p), g.crs2xyz(p);
    assert t'.density == t.density + d by { SeqSumSnoc(points, p, DensityOf(m)); }
    assert t'.weights.0 == t.weights.0 + d * xyz.0 by { SeqSumSnoc(points, p, Weight(g, m, 0)); }
    assert t'.weights.1 == t.weights.1 + d * xyz.1 by { SeqSumSnoc(points, p, Weight(g, m, 1)); }
    assert t'.weights.2 == t.weights.2 + d * xyz.2 by { SeqSumSnoc(points, p, Weight(g, m, 2)); }
    assert t'.coords.0 == t.coords.0 + xyz.0 by { SeqSumSnoc(points, p, Coord(g, 0)); }
    assert t'.coords.1 == t.coords.1 + xyz.1 by { SeqSumSnoc(points, p, Coord(g, 1)); }
    assert t'.coords.2 == t.coords.2 + xyz.2 by { SeqSumSnoc(points, p, Coord(g, 2)); }
  }

  /** Summing a duplicate-free list gives the sums over its set of points. */
  lemma SeqTotalsIsSetTotals(points: seq<Int3>, g: Geometry, m: DensityMatrix)
    requires Valid(m) && Distinct(points)
    ensures SeqTotals(points, g, m) == SetTotals(Elems(points), g, m)
  {
    SeqSumIsSetSum(points, DensityOf(m));
    SeqSumIsSetSum(points, Weight(g, m, 0));
    SeqSumIsSetSum(points, Weight(g, m, 1));
    SeqSumIsSetSum(points, Weight(g, m, 2));
    SeqSumIsSetSum(points, Coord(g, 0));
    SeqSumIsSetSum(points, Coord(g, 1));
    SeqSumIsSetSum(points, Coord(g, 2));
  }

  /**
   * The final divisions of fromCrsList. A zero total density gives numpy's
   * inf/nan in the source; the model puts the zero vector there.
   */
  function Finish(g: Geometry, t: Totals, count: nat): BlobSummary
    requires count > 0
  {
    var total := t.density;
    var centroid := if total != 0.0 then Vec3(t.weights.0 / total, t.weights.1 / total, t.weights.2 / total)
                    else Vec3(0.0, 0.0, 0.0);
    var n := count as real;
    BlobSummary(centroid, Vec3(t.coords.0 / n, t.coords.1 / n, t.coords.2 / n), total, g.unitVolume * n)
  }

  /** What fromCrsList computes from a list of points, or the exception it raises. */
  function Measure(points: seq<Int3>, g: Geometry, m: DensityMatrix): (r: Result<BlobSummary, BlobError>)
    requires Valid(m)
    ensures r.Ok? <==> |points| > 0 && ReadableList(m, points)
    ensures |points| == 0 ==> r == Err(EmptyBlob)
    ensures |points| > 0 && !ReadableList(m, points) ==> r == Err(Grid(IndexError))
  {
    if !ReadableList(m, points) then Err(Grid(IndexError))
    else if |points| == 0 then Err(EmptyBlob)
    else Ok(Finish(g, SeqTotals(points, g, m), |points|))
  }

  /** The same numbers for a set of points, whatever order it is visited in. */
  ghost function SetMeasure(points: set<Int3>, g: Geometry, m: DensityMatrix): (b: BlobSummary)
    requires Valid(m) && points != {}
    ensures b.volume == g.unitVolume * |points| as real
    ensures b.totalDensity == SetSum(points, DensityOf(m))
  {
    Finish(g, SetTotals(points, g, m), |points|)
  }

  /**
   * On a duplicate-free list the blob's numbers depend only on its set of
   * points: the sums are the sums over the set and the count is its size.
   */
  lemma MeasureIsSetMeasure(points: seq<Int3>, g: Geometry, m: DensityMatrix)
    requires Valid(m) && Distinct(points) && |points| > 0 && ReadableList(m, points)
    ensures Elems(points) != {}
    ensures Measure(points, g, m) == Ok(SetMeasure(Elems(points), g, m))
  {
    assert points[0] in Elems(points);
    DistinctCard(points);
    SeqTotalsIsSetTotals(points, g, m);
  }

  /** Measuring a duplicate-free listing of a set succeeds iff the set is non-empty and readable, and gives the set's numbers. */
  lemma MeasureOfListing(points: seq<Int3>, xs: set<Int3>, g: Geometry, m: DensityMatrix)
    requires Valid(m) && Distinct(points) && Elems(points) == xs
    ensures Measure(points, g, m).Ok? <==> xs != {} && Readable(m, xs)
    ensures Measure(points, g, m).Ok? ==> Measure(points, g, m).value == SetMeasure(xs, g, m)
  {
    ReadableEnumeration(m, xs, points);
    if Measure(points, g, m).Ok? {
      MeasureIsSetMeasure(points, g, m);
    }
  }

  /** Two duplicate-free listings of the same points give the same blob, or the same exception. */
  lemma MeasureOrderIrrelevant(s: seq<Int3>, t: seq<Int3>, g: Geometry, m: DensityMatrix)
    requires Valid(m) && Distinct(s) && Distinct(t) && Elems(s) == Elems(t)
    ensures Measure(s, g, m) == Measure(t, g, m)
  {
    if |s| > 0 { assert s[0] in Elems(t); }
    if |t| > 0 { assert t[0] in Elems(s); }
    assert ReadableList(m, s) <==> ReadableList(m, t) by {
      assert forall p :: p in s <==> p in t by {
        forall p ensures p in s <==> p in t {
          assert p in s <==> p in Elems(s);
          assert p in t <==> p in Elems(t);
        }
      }
    }
    if |s| > 0 && ReadableList(m, s) {
      MeasureIsSetMeasure(s, g, m);
      MeasureIsSetMeasure(t, g, m);
    }
  }

  /** A one-point blob sits on its point, with that point's density and one cell's volume. */
  lemma SinglePointBlob(p: Int3, g: Geometry, m: DensityMatrix)
    requires Valid(m) && Lookup(m, p).Ok?
    ensures Measure([p], g, m).Ok?
    ensures var b := Measure([p], g, m).value;
      && b.totalDensity == Lookup(m, p).value
      && b.volume == g.unitVolume
      && b.coordCenter == g.crs2xyz(p)
      && (b.totalDensity != 0.0 ==> b.centroid == g.crs2xyz(p))
  {
    var d, xyz := Density(m, p), g.crs2xyz(p);
    var t := SeqTotals([p], g, m);
    assert t == Totals(d, AddWeighted(Vec3(0.0, 0.0, 0.0), d, xyz), xyz) by {
      SeqTotalsSnoc([], p, g, m);
      assert [] + [p] == [p];
    }
    assert Measure([p], g, m) == Ok(Finish(g, t, 1));
    var b := Finish(g, t, 1);
    assert b.coordCenter == xyz;
    if d != 0.0 {
      assert b.centroid == xyz by {
        UnweightOne(d, xyz.0);
        UnweightOne(d, xyz.1);
        UnweightOne(d, xyz.2);
      }
    }
  }

  /** Dividing a single weighted coordinate by its own weight gives the coordinate back. */
  lemma UnweightOne(d: real, x: real)
    requires d != 0.0
    ensures (0.0 + d * x) / d == x
  {
  }

  /** One turn of fromCrsList's loop adds the point's density and weighted coordinates. */
  lemma TotalsStep(points: seq<Int3>, i: nat, g: Geometry, m: DensityMatrix)
    requires Valid(m) && i < |points| && Lookup(m, points[i]).Ok?
    ensures var t, d, xyz := SeqTotals(points[..i], g, m), Lookup(m, points[i]).value, g.crs2xyz(points[i]);
      && SeqTotals(points[..i + 1], g, m).density == t.density + d
      && SeqTotals(points[..i + 1], g, m).weights
         == AddWeighted(t.weights, d, xyz)
  {
    assert points[..i + 1] == points[..i] + [points[i]];
    SeqTotalsSnoc(points[..i], points[i], g, m);
  }

  /** A point that cannot be read makes the whole list unreadable. */
  lemma UnreadablePoint(points: seq<Int3>, i: nat, g: Geometry, m: DensityMatrix)
    requires Valid(m) && i < |points| && Lookup(m, points[i]).Err?
    ensures Measure(points, g, m) == Err(Grid(IndexError))
  {
    assert points[i] in points;
  }

  /** After the loop: the sums over the whole list give Measure's numbers, and its points are readable. */
  lemma MeasureFromTotals(points: seq<Int3>, g: Geometry, m: DensityMatrix)
    requires Valid(m) && forall j :: 0 <= j < |points| ==> Lookup(m, points[j]).Ok?
    ensures points[..|points|] == points
    ensures |points| == 0 ==> Measure(points, g, m) == Err(EmptyBlob)
    ensures |points| > 0 ==>
      && Measure(points, g, m) == Ok(Finish(g, SeqTotals(points, g, m), |points|))
      && Readable(m, Elems(points)) && Elems(points) != {}
  {
    assert ReadableList(m, points) by {
      forall p | p in points ensures Lookup(m, p).Ok? {
        var j :| 0 <= j < |points| && points[j] == p;
      }
    }
    if |points| > 0 {
      assert points[0] in Elems(points);
    }
  }

  // ---------------------------------------------------------------------------
  // Overlap and equality
  // ---------------------------------------------------------------------------

  /** The two points differ by at most 1 on every axis. */
  predicate Adjacent(x: Int3, y: Int3) {
    -1 <= x.0 - y.0 <= 1 && -1 <= x.1 - y.1 <= 1 && -1 <= x.2 - y.2 <= 1
  }

  function Abs(a: int): int { if a < 0 then -a else a }

  /** The Chebyshev (maximum-axis) distance between two grid points. */
  function Chebyshev(x: Int3, y: Int3): (d: nat)
    ensures d >= Abs(x.0 - y.0) && d >= Abs(x.1 - y.1) && d >= Abs(x.2 - y.2)
    ensures d == Abs(x.0 - y.0) || d == Abs(x.1 - y.1) || d == Abs(x.2 - y.2)
  {
    var a, b, c := Abs(x.0 - y.0), Abs(x.1 - y.1), Abs(x.2 - y.2);
    if a >= b && a >= c then a else if b >= c then b else c
  }

  /** Some point of one set lies next to, or on, some point of the other. */
  predicate Overlaps(s: set<Int3>, t: set<Int3>) {
    exists x, y :: x in s && y in t && Adjacent(x, y)
  }

  /** The adjacency test is a Chebyshev distance of at most 1. */
  lemma AdjacentIsChebyshev(x: Int3, y: Int3)
    ensures Adjacent(x, y) <==> Chebyshev(x, y) <= 1
  {
  }

  /** Overlap does not depend on which blob asks. */
  lemma OverlapsSymmetric(s: set<Int3>, t: set<Int3>)
    ensures Overlaps(s, t) <==> Overlaps(t, s)
  {
    if Overlaps(s, t) {
      var x, y :| x in s && y in t && Adjacent(x, y);
      assert Adjacent(y, x);
    }
    if Overlaps(t, s) {
      var y, x :| y in t && x in s && Adjacent(y, x);
      assert Adjacent(x, y);
    }
  }

  /** Blobs that share a point overlap. */
  lemma SharedPointOverlaps(s: set<Int3>, t: set<Int3>, p: Int3)
    requires p in s && p in t
    ensures Overlaps(s, t)
  {
    assert Adjacent(p, p);
  }

  /** Points two apart on one axis do not touch: overlap stops at distance 1. */
  lemma DistanceTwoApart(p: Int3)
    ensures !Overlaps({p}, {Int3(p.0 + 2, p.1, p.2)})
    ensures Overlaps({p}, {Int3(p.0 + 1, p.1 - 1, p.2 + 1)})
  {
    var q := Int3(p.0 + 1, p.1 - 1, p.2 + 1);
    assert p in {p} && q in {q} && Adjacent(p, q);
  }

  const Tolerance: real := 0.000001

  /** `__eq__`: volume, total density and every centroid coordinate agree to within 1e-6. */
  predicate ApproxSame(a: BlobSummary, b: BlobSummary) {
    && -Tolerance < a.volume - b.volume < Tolerance
    && -Tolerance < a.totalDensity - b.totalDensity < Tolerance
    && -Tolerance < a.centroid.0 - b.centroid.0 < Tolerance
    && -Tolerance < a.centroid.1 - b.centroid.1 < Tolerance
    && -Tolerance < a.centroid.2 - b.centroid.2 < Tolerance
  }

  /** The comparison is symmetric and ignores coordCenter ... */
  lemma ApproxSameSymmetric(a: BlobSummary, b: BlobSummary)
    ensures ApproxSame(a, b) <==> ApproxSame(b, a)
    ensures ApproxSame(a, a.(coordCenter := b.coordCenter))
  {
  }

  /** ... but is not transitive: small differences add up. */
  lemma ApproxSameNotTransitive()
    ensures exists a, b, c :: ApproxSame(a, b) && ApproxSame(b, c) && !ApproxSame(a, c)
  {
    var zero := Vec3(0.0, 0.0, 0.0);
    var a := BlobSummary(zero, zero, 0.0, 0.0);
    var b := a.(volume := 0.0000006);
    var c := a.(volume := 0.0000012);
    assert ApproxSame(a, b) && ApproxSame(b, c) && !ApproxSame(a, c);
  }

  /** `[atom for atom in others if atom not in atoms]`. */
  function NewAtoms<Atom(==)>(atoms: seq<Atom>, others: seq<Atom>): seq<Atom> {
    if |others| == 0 then []
    else
      var init, last := others[..|others| - 1], others[|others| - 1];
      NewAtoms(atoms, init) + (if last in atoms then [] else [last])
  }

  /**
   * Every atom of `others` absent from `atoms` keeps its number of
   * occurrences, and no other atom appears.
   */
  lemma {:induction false} NewAtomsCounts<Atom>(atoms: seq<Atom>, others: seq<Atom>)
    ensures forall x :: multiset(NewAtoms(atoms, others))[x] == if x in atoms then 0 else multiset(others)[x]
  {
    if |others| > 0 {
      var init, last := others[..|others| - 1], others[|others| - 1];
      assert others == init + [last];
      NewAtomsCounts(atoms, init);
    }
  }

  /**
   * Filtering two pieces one after the other is filtering the whole: with
   * the counts above, this pins the result down to the new atoms in the
   * other blob's order.
   */
  lemma {:induction false} NewAtomsAppend<Atom>(atoms: seq<Atom>, xs: seq<Atom>, ys: seq<Atom>)
    ensures NewAtoms(atoms, xs + ys) == NewAtoms(atoms, xs) + NewAtoms(atoms, ys)
    decreases |ys|
  {
    if ys == [] {
      assert xs + ys == xs;
    } else {
      var zs, init, last := xs + ys, ys[..|ys| - 1], ys[|ys| - 1];
      assert zs[..|zs| - 1] == xs + init && zs[|zs| - 1] == last;
      NewAtomsAppend(atoms, xs, init);
    }
  }

  // ---------------------------------------------------------------------------
  // The blob object
  // ---------------------------------------------------------------------------

  class DensityBlob<Atom(==)> {
    var centroid: Vec3
    var coordCenter: Vec3
    var totalDensity: real
    var volume: real
    var crsList: set<Int3>
    var geometry: Geometry
    var densityMatrix: DensityMatrix
    var atoms: seq<Atom>

    /** A blob over points that can all be read from its density grid. */
    ghost predicate Valid()
      reads this
    {
      crsList != {} && DensityMatrices.Valid(densityMatrix) && Readable(densityMatrix, crsList)
    }

    function Summary(): BlobSummary
      reads this
    {
      BlobSummary(centroid, coordCenter, totalDensity, volume)
    }

    /** DensityBlob.__init__: the list of points is kept as a set, with no atoms yet. */
    constructor (centroid: Vec3, coordCenter: Vec3, totalDensity: real, volume: real,
                 crsList: seq<Int3>, geometry: Geometry, densityMatrix: DensityMatrix)
      ensures Summary() == BlobSummary(centroid, coordCenter, totalDensity, volume)
      ensures this.crsList == Elems(crsList) && this.atoms == []
      ensures this.geometry == geometry && this.densityMatrix == densityMatrix
    {
      this.centroid := centroid;
      this.coordCenter := coordCenter;
      this.totalDensity := totalDensity;
      this.volume := volume;
      this.crsList := Elems(crsList);
      this.geometry := geometry;
      this.densityMatrix := densityMatrix;
      this.atoms := [];
    }

    /**
     * DensityBlob.fromCrsList: one pass accumulates the weighted
     * coordinates and the total density, reading each point from the grid;
     * then the centroid, the plain centre and the volume are computed.
     */
    static method FromCrsList(points: seq<Int3>, geometry: Geometry, densityMatrix: DensityMatrix)
      returns (r: Result<DensityBlob<Atom>, BlobError>)
      requires DensityMatrices.Valid(densityMatrix)
      ensures r.Ok? <==> Measure(points, geometry, densityMatrix).Ok?
      ensures r.Err? ==> r.error == Measure(points, geometry, densityMatrix).error
      ensures r.Ok? ==> && fresh(r.value) && r.value.Valid()
                        && r.value.Summary() == Measure(points, geometry, densityMatrix).value
                        && r.value.crsList == Elems(points) && r.value.atoms == []
                        && r.value.geometry == geometry && r.value.densityMatrix == densityMatrix
    {
      var m, g := densityMatrix, geometry;
      var weights := Vec3(0.0, 0.0, 0.0);
      var totalDen := 0.0;
      for i := 0 to |points|
        invariant forall j :: 0 <= j < i ==> Lookup(m, points[j]).Ok?
        invariant totalDen == SeqTotals(points[..i], g, m).density
        invariant weights == SeqTotals(points[..i], g, m).weights
      {
        var point := points[i];
        var density := Lookup(m, point);
        if density.Err? {
          UnreadablePoint(points, i, g, m);
          return Err(Grid(IndexError));
        }
        var d, pointXyz := density.value, g.crs2xyz(point);
        TotalsStep(points, i, g, m);
        weights := AddWeighted(weights, d, pointXyz);
        totalDen := totalDen + d;
      }
      MeasureFromTotals(points, g, m);
      if |points| == 0 {
        return Err(EmptyBlob);
      }
      var totals := Totals(totalDen, weights, SeqTotals(points, g, m).coords);
      var summary := Finish(g, totals, |points|);
      var blob := new DensityBlob(summary.centroid, summary.coordCenter, summary.totalDensity, summary.volume,
                                  points, g, m);
      return Ok(blob);
    }

    /** DensityBlob.testOverlap. */
    function TestOverlap(other: DensityBlob<Atom>): (r: bool)
      reads this, other
      ensures r <==> exists x, y :: x in crsList && y in other.crsList && Chebyshev(x, y) <= 1
    {
      if Overlaps(crsList, other.crsList) then true else false
    }

    /** DensityBlob.__eq__. */
    function Equals(other: DensityBlob<Atom>): bool
      reads this, other
    {
      ApproxSame(Summary(), other.Summary())
    }

    /** `self.__dict__.update(other.__dict__)`: every field takes the other blob's value. */
    method UpdateFrom(other: DensityBlob<Atom>)
      modifies this
      ensures Summary() == old(other.Summary()) && crsList == old(other.crsList) && atoms == old(other.atoms)
      ensures geometry == old(other.geometry) && densityMatrix == old(other.densityMatrix)
    {
      centroid, coordCenter, totalDensity, volume := other.centroid, other.coordCenter, other.totalDensity, other.volume;
      crsList, geometry, densityMatrix, atoms := other.crsList, other.geometry, other.densityMatrix, other.atoms;
    }

    /**
     * DensityBlob.merge: the other blob's points join this one's, then every
     * number is recomputed from the merged set of points and the other
     * blob's atoms not already here are appended in order. The points are
     * added before anything is read, so when one of the other blob's points
     * cannot be read from this blob's grid the merge raises IndexError with
     * the points already added and nothing else changed. The other blob is
     * left as it was.
     */
    method Merge(other: DensityBlob<Atom>) returns (r: Result<(), BlobError>)
      requires Valid()
      modifies this
      ensures crsList == old(crsList) + old(other.crsList)
      ensures geometry == old(geometry) && densityMatrix == old(densityMatrix)
      ensures r.Ok? <==> Readable(densityMatrix, old(other.crsList))
      ensures r.Err? ==> r.error == Grid(IndexError) && atoms == old(atoms) && Summary() == old(Summary())
      ensures r.Ok? ==> atoms == old(atoms) + NewAtoms(old(atoms), old(other.atoms))
      ensures r.Ok? ==> Valid()
      ensures r.Ok? ==> Summary() == SetMeasure(crsList, geometry, densityMatrix)
      ensures other != this ==> unchanged(other)
    {
      var union := crsList + other.crsList;
      var merged := atoms + NewAtoms(atoms, other.atoms);
      crsList := union;
      var points := Enumerate(union);
      var blob := FromCrsList(points, geometry, densityMatrix);
      assert blob.Ok? <==> Readable(densityMatrix, old(other.crsList)) by {
        MeasureOfListing(points, union, geometry, densityMatrix);
      }
      if blob.Err? {
        return Err(blob.error);
      }
      var b := blob.value;
      assert b.Summary() == SetMeasure(union, geometry, densityMatrix) by {
        MeasureOfListing(points, union, geometry, densityMatrix);
      }
      UpdateFrom(b);
      atoms := merged;
      return Ok(());
    }
  }

  // ---------------------------------------------------------------------------
  // Blob lists
  // ---------------------------------------------------------------------------

  /** The blob fromCrsList builds from a list of points. */
  ghost predicate BuiltFrom<Atom>(b: DensityBlob<Atom>, points: seq<Int3>, g: Geometry, m: DensityMatrix)
    requires DensityMatrices.Valid(m)
    reads b
  {
    && Measure(points, g, m).Ok? && b.Valid()
    && b.Summary() == Measure(points, g, m).value && b.crsList == Elems(points) && b.atoms == []
  }

  /**
   * DensityMatrix.createBlobList, given the partition into connected
   * components that `utils.createCrsLists` computes: one blob per
   * component, in order.
   */
  method CreateBlobList<Atom(==)>(components: seq<seq<Int3>>, geometry: Geometry, densityMatrix: DensityMatrix)
    returns (r: Result<seq<DensityBlob<Atom>>, BlobError>)
    requires DensityMatrices.Valid(densityMatrix)
    ensures r.Ok? <==> forall i :: 0 <= i < |components| ==> Measure(components[i], geometry, densityMatrix).Ok?
    ensures r.Err? ==> exists k ::
      && 0 <= k < |components|
      && (forall j :: 0 <= j < k ==> Measure(components[j], geometry, densityMatrix).Ok?)
      && Measure(components[k], geometry, densityMatrix).Err?
      && r.error == Measure(components[k], geometry, densityMatrix).error
    ensures r.Ok? ==> |r.value| == |components|
    ensures r.Ok? ==> forall i :: 0 <= i < |components| ==>
      && fresh(r.value[i]) && r.value[i].Valid()
      && r.value[i].Summary() == Measure(components[i], geometry, densityMatrix).value
      && r.value[i].crsList == Elems(components[i]) && r.value[i].atoms == []
  {
    var blobs: seq<DensityBlob<Atom>> := [];
    for i := 0 to |components|
      invariant |blobs| == i
      invariant forall j :: 0 <= j < i ==> fresh(blobs[j]) && BuiltFrom(blobs[j], components[j], geometry, densityMatrix)
    {
      var blob := DensityBlob<Atom>.FromCrsList(components[i], geometry, densityMatrix);
      if blob.Err? {
        return Err(blob.error);
      }
      assert BuiltFrom(blob.value, components[i], geometry, densityMatrix);
      blobs := blobs + [blob.value];
    }
    return Ok(blobs);
  }

  /**
   * DensityMatrix.findAberrantBlobs: the selected points around the centres,
   * split into components by `partition` (utils.createCrsLists), one blob
   * per component.
   */
  method FindAberrantBlobs<Atom(==)>(m: DensityMatrix, geometry: Geometry, query: Query, rad: Int3, cutoff: real,
                                     partition: seq<Int3> -> seq<seq<Int3>>)
    returns (r: Result<seq<DensityBlob<Atom>>, BlobError>)
    requires DensityMatrices.Valid(m)
    ensures query.Many? && |query.centres| == 0 ==> r == Err(Grid(IndexError))
    ensures query.Single? && !BoxInGrid(m.header.ncrs, SphereBox(query.centre.crs, rad)) ==> r == Err(Grid(TypeError))
    ensures query.Many? && |query.centres| > 0 && !AllBoxesInGrid(m, query.centres, rad) ==> r == Err(Grid(TypeError))
    ensures r.Ok? ==> forall b :: b in r.value ==> fresh(b) && b.Valid()
  {
    var crsList := AberrantCrs(m, query, rad, cutoff);
    if crsList.Err? {
      return Err(Grid(crsList.error));
    }
    r := CreateBlobList(partition(crsList.value), geometry, m);
  }
}
