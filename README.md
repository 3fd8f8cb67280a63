# CCP4 density map reader, modelled in Dafny

This project models the core of `pdb_eda/ccp4.py`, the reader of CCP4
electron-density maps in pdb_eda, and proves properties of that model:

- **Header decoding** (`DensityHeader.fromFileHeader` and `__init__`).
  - The byte order comes from the mode word.
  - The 59 numeric fields are unpacked from the first 224 bytes in that one order.
  - The label bytes lose their spaces.
  - Then come the derived fields: map size, axis permutations, interval counts per crs axis, the "unique" extents and the choice of origin.
- **`parse`.** It checks the size and the cell (a check that an all-zero cell never reaches, see Findings), applies the two fix-up blocks exactly as Python evaluates them, splits the body into symmetry records and map data, and reshapes the densities into the grid.
- **Grid access.**
  - `validCRS` wraps a coordinate list in place, modulo the interval counts, with an early return.
  - The point lookup reads the reshaped numpy array, where negative indices count from the end.
  - The orthogonal branch of the crs/xyz coordinate transforms is modelled too.
- **The sphere query** (`getSphereCrsFromXyz`). It walks the asymmetric box `[c-r-1, c+r]` in `itertools.product` order, applying the signed density cutoff and a distance test. Also modelled:
  - its total density;
  - the duplicate-free union over several centres that `findAberrantBlobs` passes on.
- **Density blobs** (`DensityBlob`).
  - `fromCrsList` accumulates density-weighted coordinates in a loop.
  - `testOverlap` is a Chebyshev-distance test.
  - `__eq__` compares within 1e-6.
  - `merge` updates the blob in place: it takes the union of the point sets, appends the new atoms in order and recomputes every number.

Python's chained comparisons decide several conditions in `parse`.
`&` and `|` bind tighter than `==`, so `a == 0 & b > 0` reads
`a == (0 & b) > 0`, which is never true, and `col == 0 & row == 0 & sec == 0`
reads `col == 0`. The model follows the code as written. Two of these
conditions do not do what they evidently mean (see Findings below). For each,
a corrected member sits beside the as-written one, and `ParseIntended`
combines the corrected members.

The interval fix-ups (:79-87) never fire as written. Had they been written as
meant, they would still never change a header the constructor accepted,
because `__init__` already divides by every interval count
(`IntervalFixupsNeverFire`).

Modules, one file each:

| file | module | contents |
|---|---|---|
| results.dfy | Results | `Option` and `Result`, the model of raised exceptions |
| ccp4_bytes.dfy | Ccp4Bytes | bytes, 32-bit words, byte order, signed ints, Python slices, label clean-up |
| density_headers.dfy | DensityHeaders | the header record, its decoding, the derived fields, validCRS, the orthogonal transforms |
| sums.dfy | Sums | sums over lists and sets, the listing of a set |
| density_matrices.dfy | DensityMatrices | the density grid, the point lookup, the sphere query, the union over centres |
| density_blobs.dfy | DensityBlobs | blob numbers, overlap, equality, the `DensityBlob` class, blob lists |
| ccp4_parse.dfy | Ccp4Parse | `parse`, as written and as meant |

## Model

| member | source | states |
|---|---|---|
| Ccp4Bytes.WordRoundTrip | pdb_eda/ccp4.py:128-129 | the four bytes written for a word in either byte order read back, in that order, as the same word |
| Ccp4Bytes.Word4Bytes | pdb_eda/ccp4.py:124 | the first byte read is the word's least significant byte and the fourth its most significant |
| Ccp4Bytes.Int32 | pdb_eda/ccp4.py:128-129 | an 'i' field is the two's-complement value of its word: it lies in the signed 32-bit range and is negative iff the word's top bit is set |
| Ccp4Bytes.Int32Congruent | pdb_eda/ccp4.py:128-129 | the signed value is congruent to the word mod 2^32 |
| Ccp4Bytes.SliceBound | pdb_eda/ccp4.py:95-96 | a Python slice bound is clamped to [0, len], a negative bound counting from the end |
| Ccp4Bytes.PySlice | pdb_eda/ccp4.py:95-96 | `s[lo:hi]` is the Dafny slice when the bounds are in range, runs to the end when hi is past it, and is empty when lo is past the end |
| Ccp4Bytes.RemoveSpaces | pdb_eda/ccp4.py:131-132 | the labels contain no space, every other byte keeps its number of occurrences, and they are shorter by the number of spaces |
| Ccp4Bytes.RemoveSpacesAppend | pdb_eda/ccp4.py:131-132 | removing spaces distributes over concatenation, so the kept bytes stay in their original order |
| DensityHeaders.SelectEndian | pdb_eda/ccp4.py:124-125 | the file is read little-endian iff bytes 12..16, read as an unsigned little-endian integer, are at most 6 |
| DensityHeaders.EndianDetected | pdb_eda/ccp4.py:124-125 | a mode 1..6 written in either byte order is read back in that order; mode 0 is always read little-endian |
| DensityHeaders.OffsetIsPacked | pdb_eda/ccp4.py:128 | the packed offsets of the format: the first 52 fields at bytes 4k, the four characters at 208..211, and the last int, float and int at 212, 216 and 220 |
| DensityHeaders.HeaderFillsNumericBytes | pdb_eda/ccp4.py:128-129 | the 59 fields of the format fill exactly 224 bytes |
| DensityHeaders.FieldAt | pdb_eda/ccp4.py:128-129 | field k is the signed word, the raw float word or the byte at its offset, as its format code says |
| DensityHeaders.Unpack | pdb_eda/ccp4.py:128-129 | the unpacked tuple has 59 fields of the format's kinds, each decoded in the one byte order |
| DensityHeaders.PyIndex | pdb_eda/ccp4.py:209-211 | a Python index -3..2 into a 3-list names position index mod 3 |
| DensityHeaders.Map2Xyz | pdb_eda/ccp4.py:208-212 | the three item assignments into [0, 0, 0] yield entries in 0..2 |
| DensityHeaders.WithDerivedKeepsRead | pdb_eda/ccp4.py:146-247 | deriving leaves every field read from the file (all 59 tuple fields, the labels, the byte order) unchanged, changes nothing but the seven derived fields, and the map size is 4 bytes per grid point |
| DensityHeaders.DerivedIsConsistent | pdb_eda/ccp4.py:203-247 | deriving twice changes nothing, and non-zero interval counts stay non-zero on every crs axis |
| DensityHeaders.OriginBranch | pdb_eda/ccp4.py:250-265 | the origin comes from crsStart (permuted by map2xyz, over the interval counts) iff the last three future-use words are 0.0; otherwise it is the ORIGIN words |
| DensityHeaders.Init | pdb_eda/ccp4.py:137-247 | the constructor fails iff an interval count is 0 (ZeroDivisionError), an axis index is outside Python's range (IndexError) or the x cell length is 0.0 (LinAlgError from inverting `orthoMat`, whose first column is then zero), with the errors in that order; otherwise the header is the derivation applied to the fields as read, consistent, with non-zero intervals |
| DensityHeaders.FromFileHeader | pdb_eda/ccp4.py:116-135 | fewer than 224 bytes fail to unpack; otherwise it fails with the constructor's error, decided on the words at offsets 28..36, 64..72 and 40, and on success the byte order is the detected one, the labels are bytes 224 on without spaces, and the header is consistent |
| DensityHeaders.DecodedFromRaw | pdb_eda/ccp4.py:116-135 | the decoded header is the constructor's derivation applied to the unpacked fields |
| DensityHeaders.IntegerFieldLayout | pdb_eda/ccp4.py:146-203 | ncrs, mode, crsStart, the interval counts, the axis mapping, spaceGroup, symmetryBytes and skewFlag are the signed words at offsets 0..36, 64..72 and 88..96, and mapSize is ncrs[0]*ncrs[1]*ncrs[2]*4 |
| DensityHeaders.RawWordGroups | pdb_eda/ccp4.py:183-192 | the skew matrix, skew translation, future-use and ORIGIN groups of the raw header are the float words from offsets 100, 136, 148 and 196, in order |
| DensityHeaders.RawTrailing | pdb_eda/ccp4.py:197-200 | the map characters are bytes 208..211 of the numeric header, and the machine stamp, rms and label count the words at 212, 216 and 220 |
| DensityHeaders.FloatFieldLayout | pdb_eda/ccp4.py:168-179 | the cell lengths, the cell angles and the density minimum, maximum and mean are the float words at offsets 40..60 and 76..84 |
| DensityHeaders.WordGroupLayout | pdb_eda/ccp4.py:183-192 | the skew matrix, skew translation, twelve future-use words and ORIGIN words of the decoded header are the float words at 100..135, 136..147, 148..195 and 196..207 |
| DensityHeaders.TrailingFieldLayout | pdb_eda/ccp4.py:197-200 | the map characters are bytes 208..211, followed by the machine stamp (int), the rms (float) and the label count (int) |
| DensityHeaders.ConsistentAxisMapsOk | pdb_eda/ccp4.py:208-215 | the derived permutation fields of a decoded header are usable as list indices |
| DensityHeaders.AxisPermutationsInverse | pdb_eda/ccp4.py:208-215 | for a permutation of (1, 2, 3), map2xyz and map2crs are inverse to each other, and crsInterval[i] == xyzInterval[map2crs[i]] |
| DensityHeaders.PermutationHeaderInverse | pdb_eda/ccp4.py:208-215 | for a permutation of (1, 2, 3), map2xyz and map2crs are mutually inverse permutations of {0, 1, 2} |
| DensityHeaders.UniqueNcrsIsMin | pdb_eda/ccp4.py:240-247 | uniqueNcrs[i] is min(ncrs[i], crsInterval[i]) |
| DensityHeaders.FloorDiv | pdb_eda/ccp4.py:276 | floor(a / b) is the integer q with q*b <= a < q*b + b (reversed for b < 0) |
| DensityHeaders.WrapAxis | pdb_eda/ccp4.py:274-276 | an axis in [0, ncrs) is kept; an axis outside it becomes its value mod a positive interval, in [0, interval) |
| DensityHeaders.ValidCrsCharacterized | pdb_eda/ccp4.py:267-281 | validCRS is true iff no axis lands in [ncrs, interval) after wrapping; the axes up to and including the first bad one are wrapped, and later ones are untouched |
| DensityHeaders.ValidCrsKeepsInRange | pdb_eda/ccp4.py:274-276 | an axis already in [0, ncrs) is left unchanged |
| DensityHeaders.ValidCrsWrapsModInterval | pdb_eda/ccp4.py:274-276 | with a positive interval, a rewritten axis becomes its value mod the interval, in [0, interval) |
| DensityHeaders.ValidCrsTrueInGrid | pdb_eda/ccp4.py:267-281 | with positive intervals, a true answer leaves the coordinate inside [0, ncrs) on every axis |
| DensityHeaders.ValidCrs | pdb_eda/ccp4.py:267-281 | the in-place loop over a 3-element array leaves exactly the coordinate, and returns exactly the answer, that ValidCrsSpec gives |
| DensityHeaders.Crs2XyzOrthogonal | pdb_eda/ccp4.py:311-312 | xyz[i] = crs[map2xyz[i]] * gridLength[i] + origin[i] |
| DensityHeaders.AxisRoundTrip | pdb_eda/ccp4.py:295 | when round is the identity on integers, one axis of the xyz transform is undone by the grid-position computation |
| DensityHeaders.OrthogonalRoundTrip | pdb_eda/ccp4.py:294-312 | for an orthogonal cell with inverse axis maps, xyz2crsCoord(crs2xyzCoord(crs)) == crs |
| Sums.SetSumRemove | pdb_eda/ccp4.py:408 | a set sum may take out any element first |
| Sums.SeqSumSnoc | pdb_eda/ccp4.py:485-489 | one more element adds its term to the left-to-right sum |
| Sums.SeqSumIsSetSum | pdb_eda/ccp4.py:408 | the left-to-right sum over a duplicate-free list equals the sum over its set of elements |
| Sums.DistinctCard | pdb_eda/ccp4.py:494-495 | a duplicate-free list has as many elements as its set |
| Sums.Enumerate | pdb_eda/ccp4.py:427 | listing a set yields every element exactly once |
| DensityMatrices.NewDensityMatrix | pdb_eda/ccp4.py:320-335 | the reshape succeeds iff the extents are non-negative and their product is the number of densities, else ValueError; the densities are kept |
| DensityMatrices.FlatIndexInBounds | pdb_eda/ccp4.py:333 | density[s, r, c] of the reshaped array is flat element c + ncrs[0]*(r + ncrs[1]*s), and that index is in bounds |
| DensityMatrices.MixedRadixUnique | pdb_eda/ccp4.py:333 | a + n*b with 0 <= a < n determines a and b |
| DensityMatrices.FlatIndexInjective | pdb_eda/ccp4.py:333 | distinct grid points occupy distinct flat elements |
| DensityMatrices.NpIndex | pdb_eda/ccp4.py:356 | numpy accepts an index k on an axis of length n iff -n <= k < n, a negative one counting from the end |
| DensityMatrices.Lookup | pdb_eda/ccp4.py:356 | density[c2, c1, c0] succeeds iff every index is within numpy's range, else IndexError; inside the grid it is the stored density |
| DensityMatrices.PointDensityPositiveIntervals | pdb_eda/ccp4.py:349-356 | with positive intervals the lookup returns 0 when validCRS fails, else the flat element at the wrapped coordinate, whose index is in bounds |
| DensityMatrices.PointDensityFromCrs | pdb_eda/ccp4.py:349-356 | the list argument is left wrapped as validCRS leaves it, and the answer is PointDensitySpec's |
| DensityMatrices.TupleDensity | pdb_eda/ccp4.py:384-387 | on a tuple the lookup succeeds iff the point is in the grid, else TypeError |
| DensityMatrices.TupleAgreesWithList | pdb_eda/ccp4.py:349-356 | inside the grid, validCRS accepts unchanged, and the tuple and list lookups agree |
| DensityMatrices.Keeps | pdb_eda/ccp4.py:388 | cutoff 0 keeps every point, a positive cutoff keeps density > cutoff, a negative one keeps density < cutoff |
| DensityMatrices.IncreasingIsDistinct | pdb_eda/ccp4.py:384-391 | a list in strictly increasing product order has no duplicates |
| DensityMatrices.ScanStart | pdb_eda/ccp4.py:383-386 | before the walk nothing is scanned and nothing kept |
| DensityMatrices.ScanStep | pdb_eda/ccp4.py:387-391 | visiting one in-grid box point appends it iff it is selected, and advances the scan |
| DensityMatrices.ScanNextRow | pdb_eda/ccp4.py:384-386 | when the innermost range ends, the scan moves to the next row |
| DensityMatrices.ScanNextPlane | pdb_eda/ccp4.py:384-386 | when the middle range ends, the scan moves to the next plane |
| DensityMatrices.ScanEnd | pdb_eda/ccp4.py:384-393 | a finished walk found the whole box in the grid and kept exactly the selected points |
| DensityMatrices.SphereCrs | pdb_eda/ccp4.py:367-393 | TypeError iff some box point [c-r-1, c+r] is off the grid; otherwise exactly the in-box points passing the cutoff and distance tests, each once, in product order |
| DensityMatrices.TotalDensity | pdb_eda/ccp4.py:395-408 | fails with TypeError exactly when the sphere query does; otherwise the sum of densities over the set of selected points |
| DensityMatrices.CoveredSnoc | pdb_eda/ccp4.py:427 | one more centre adds its selected points to the union |
| DensityMatrices.UnionOverMembership | pdb_eda/ccp4.py:427 | a point is in a union over centres iff it is in the set of some centre |
| DensityMatrices.CoveredIsUnion | pdb_eda/ccp4.py:427 | the covered points are the union of the centres' spheres |
| DensityMatrices.CoveredMembership | pdb_eda/ccp4.py:427 | a point is covered iff it lies in the selected sphere of some centre |
| DensityMatrices.AllBoxesSnoc | pdb_eda/ccp4.py:427 | one more centre adds its box to the condition that every box is in the grid |
| DensityMatrices.SphereUnion | pdb_eda/ccp4.py:427 | succeeds iff every centre's box is in the grid, giving the union of the selected points of all centres |
| DensityMatrices.AberrantCrs | pdb_eda/ccp4.py:425-431 | an empty list of centres raises IndexError; one centre gives its sphere list; several give their union with no duplicates; the errors are the sphere query's |
| DensityBlobs.ReadableEnumeration | pdb_eda/ccp4.py:535 | a listing of a set is readable from the grid iff the set is, and non-empty iff the set is |
| DensityBlobs.SeqTotalsSnoc | pdb_eda/ccp4.py:486-490 | one more point adds its density, its density-weighted xyz and its xyz to the running sums |
| DensityBlobs.SeqTotalsIsSetTotals | pdb_eda/ccp4.py:484-494 | over a duplicate-free list the running sums are the sums over its set of points |
| DensityBlobs.Measure | pdb_eda/ccp4.py:474-495 | fromCrsList's numbers exist iff the list is non-empty and every point is readable; otherwise ZeroDivisionError or IndexError |
| DensityBlobs.SetMeasure | pdb_eda/ccp4.py:492-495 | the volume is unitVolume times the number of points, and the total density the sum over them |
| DensityBlobs.MeasureIsSetMeasure | pdb_eda/ccp4.py:484-495 | on a duplicate-free list the blob's numbers depend only on its set of points |
| DensityBlobs.MeasureOfListing | pdb_eda/ccp4.py:533-535 | measuring a duplicate-free listing of a set succeeds iff the set is non-empty and readable, and then gives the set's numbers |
| DensityBlobs.MeasureOrderIrrelevant | pdb_eda/ccp4.py:484-495 | two duplicate-free listings of the same points give the same numbers or the same exception |
| DensityBlobs.SinglePointBlob | pdb_eda/ccp4.py:484-495 | a one-point blob has that point's density, one cell's volume, and its centre (and, for non-zero density, its centroid) at the point |
| DensityBlobs.TotalsStep | pdb_eda/ccp4.py:485-489 | one turn of the loop adds the point's density and density-weighted xyz to the running sums |
| DensityBlobs.UnreadablePoint | pdb_eda/ccp4.py:486 | one point outside numpy's range makes fromCrsList raise IndexError |
| DensityBlobs.MeasureFromTotals | pdb_eda/ccp4.py:491-494 | once every point is read, an empty list raises ZeroDivisionError and a non-empty one gives the numbers finished from the sums |
| DensityBlobs.Chebyshev | pdb_eda/ccp4.py:521 | the Chebyshev distance is the largest of the three axis differences |
| DensityBlobs.AdjacentIsChebyshev | pdb_eda/ccp4.py:521 | differing by at most 1 on every axis is Chebyshev distance at most 1 |
| DensityBlobs.OverlapsSymmetric | pdb_eda/ccp4.py:521 | the overlap test gives the same answer from either blob |
| DensityBlobs.SharedPointOverlaps | pdb_eda/ccp4.py:521 | blobs sharing a point overlap |
| DensityBlobs.DistanceTwoApart | pdb_eda/ccp4.py:521 | points two apart on one axis do not overlap, diagonal neighbours do |
| DensityBlobs.ApproxSameSymmetric | pdb_eda/ccp4.py:498-509 | `__eq__` is symmetric and ignores coordCenter |
| DensityBlobs.ApproxSameNotTransitive | pdb_eda/ccp4.py:498-509 | `__eq__` is not transitive: a, b, c exist with a == b, b == c and a != c |
| DensityBlobs.NewAtomsCounts | pdb_eda/ccp4.py:534 | each atom of the other blob not already present keeps its number of occurrences, and no other atom is appended |
| DensityBlobs.NewAtomsAppend | pdb_eda/ccp4.py:534 | the filter distributes over concatenation, so the appended atoms keep the other blob's order |
| DensityBlobs.DensityBlob.constructor | pdb_eda/ccp4.py:450-470 | the blob keeps the numbers given, the set of the points and the grid, with no atoms |
| DensityBlobs.DensityBlob.FromCrsList | pdb_eda/ccp4.py:474-495 | the loop over the points yields a fresh valid blob whose numbers are Measure's iff Measure succeeds, else Measure's exception |
| DensityBlobs.DensityBlob.TestOverlap | pdb_eda/ccp4.py:511-524 | true iff some pair of points, one from each blob, is at Chebyshev distance at most 1 |
| DensityBlobs.DensityBlob.UpdateFrom | pdb_eda/ccp4.py:537 | every field takes the other blob's value |
| DensityBlobs.DensityBlob.Merge | pdb_eda/ccp4.py:526-538 | the points become the union; IndexError iff some added point is unreadable (points already added, nothing else changed); else atoms are old atoms plus the new ones in order, volume and total density are recomputed over the union, and the other blob is unchanged |
| DensityBlobs.CreateBlobList | pdb_eda/ccp4.py:435-444 | one fresh valid blob per component, in order, with that component's points and numbers and no atoms; fails iff some component fails, with the error of the first failing component |
| DensityBlobs.FindAberrantBlobs | pdb_eda/ccp4.py:410-433 | no centres raise IndexError, an off-grid box raises TypeError, and every blob returned is fresh and valid |
| Ccp4Parse.FileHeaderPart | pdb_eda/ccp4.py:65 | the header part is the first min(1024, length) bytes |
| Ccp4Parse.BodyPart | pdb_eda/ccp4.py:67 | header part followed by body is the whole file |
| Ccp4Parse.SizeCheck | pdb_eda/ccp4.py:70-75 | as written, the asserts pass iff the body length is symmetryBytes + mapSize, and a failure always reports suspicious symmetry or missing map data |
| Ccp4Parse.SizeCheckIntended | pdb_eda/ccp4.py:70-75 | as meant, incomplete and larger-than-expected data are reported exactly for short and long bodies that are not the two special cases |
| Ccp4Parse.SizeCheckMisreportsShortBody | pdb_eda/ccp4.py:71-73 | a 10-byte body where 32 map bytes and no symmetry are expected: suspicious symmetry as written, incomplete data as meant |
| Ccp4Parse.SizeChecksAgreeOnAcceptance | pdb_eda/ccp4.py:70-75 | both checks accept exactly the same lengths |
| Ccp4Parse.FixIntervals | pdb_eda/ccp4.py:79-87 | the interval fix-ups as written never change the header |
| Ccp4Parse.FixIntervalsIntended | pdb_eda/ccp4.py:79-87 | as meant, non-zero counts are kept, and with extents above 1 every count ends non-zero |
| Ccp4Parse.IntervalFixupsNeverFire | pdb_eda/ccp4.py:79-87 | on a header the constructor accepted, the intended fix-ups change nothing either |
| Ccp4Parse.FixAxes | pdb_eda/ccp4.py:89-92 | as written, whenever col2xyz is 0 the header changes in the three mapping fields only, which become (1, 2, 3), so the derived permutation, interval and extent fields stay as they were; otherwise nothing changes |
| Ccp4Parse.FixAxesLeavesStaleMaps | pdb_eda/ccp4.py:89-92 | after the fix-up of an all-zero mapping, map2xyz is still (0, 0, 2), not (0, 1, 2), and the header is inconsistent |
| Ccp4Parse.FixAxesFiresOnColumnAlone | pdb_eda/ccp4.py:89 | the mapping (0, 2, 3) is rewritten as written, and left alone as meant |
| Ccp4Parse.FixAxesIntended | pdb_eda/ccp4.py:89-92 | as meant, only an all-zero mapping is replaced: the result is the derivation applied to the header with mapping (1, 2, 3), a consistent permutation header with the same extents; any other header is unchanged |
| Ccp4Parse.FixAxesIntendedConsistent | pdb_eda/ccp4.py:89-92 | the intended fix-up keeps a header consistent, with mutually inverse axis maps when it fires |
| Ccp4Parse.UnpackFloats | pdb_eda/ccp4.py:98-99 | one density per 4-byte word, density i being word i in the file's byte order |
| Ccp4Parse.ProductNonNegative | pdb_eda/ccp4.py:203 | non-negative extents give a non-negative map size |
| Ccp4Parse.MapDataSplit | pdb_eda/ccp4.py:95-99 | when the lengths add up, the map data is whole words filling the grid iff symmetryBytes and the extents are non-negative; then the symmetry is body[..symmetryBytes] and the map data the rest |
| Ccp4Parse.ReadMapData | pdb_eda/ccp4.py:95-109 | struct.error for a partial word, ValueError for a wrong count, else a grid of the unpacked densities whose header carries the symmetry records |
| Ccp4Parse.SymmetryKeepsConsistent | pdb_eda/ccp4.py:95 | storing the symmetry records keeps the header consistent |
| Ccp4Parse.CheckAndRead | pdb_eda/ccp4.py:70-109 | the body is accepted iff its length is symmetryBytes + mapSize, the cell is not all zero, and the extents and symmetryBytes are non-negative; then the symmetry is the first bytes, density i is the word at symmetryBytes + 4i, and the header is the as-written fix-up |
| Ccp4Parse.ZeroCellUnreachable | pdb_eda/ccp4.py:65-77 | a header the constructor accepted never has an all-zero cell, so the cell check cannot fire |
| Ccp4Parse.AllZeroCellIsSingular | pdb_eda/ccp4.py:226-230 | a file header that passes the interval and axis checks but has three zero cell-length words fails with LinAlgError |
| Ccp4Parse.Parse | pdb_eda/ccp4.py:59-109 | header errors are passed on; otherwise the acceptance, errors, symmetry and densities of CheckAndRead, on the first 1024 bytes and the rest; the cell error is never returned, and an all-zero cell that passes the index checks fails with LinAlgError |
| Ccp4Parse.CheckAndReadIntended | pdb_eda/ccp4.py:70-109 | as meant, the same bodies are accepted, with the corrected messages, and the resulting header is consistent |
| Ccp4Parse.ParseIntended | pdb_eda/ccp4.py:59-109 | with the corrected size check and axis fix-up, the same files are accepted and the grid's header is consistent; an all-zero cell that passes the index checks is reported by the cell check |

## Left out

- `readFromPDBID`, `readFromURL` and `read` (:26-56) are network and file I/O. `Parse` takes the file's bytes instead of a handle.
- IEEE-754 single-precision values are not modelled.
  - The header keeps float fields as raw 32-bit words.
  - The two comparisons the reader makes on them (against 0.0 at :77 and :260, and against 90 at :294 and :311) are decided exactly on the bit pattern.
  - Densities are turned into reals by a `toReal` parameter, and all later arithmetic on them is exact real arithmetic. NaN and rounding are not modelled.
- The trigonometry of `__init__` is not modelled: `unitVolume`, `orthoMat`, its inverse and the 1e-10 snapping (:218-231). A singular `orthoMat` is modelled only where it needs no trigonometry (a zero x length, see DensityHeaders.Init). Blobs take the unit volume and the crs-to-xyz transform from a `Geometry` value.
- The `np.dot` in `_calculateOrigin` (:261) is left out. The model records which branch is taken and its integer inputs.
- The triclinic branches of `xyz2crsCoord` and `crs2xyzCoord` (:297-298, :314) are left out. `gridLength` (a float division, :206) is a parameter of the orthogonal transforms, and `round` is any function that is the identity on integers.
- `getPointDensityFromXyz` (:358-365) is only the composition of the transform and the point lookup, so it has no member of its own.
- `SphereCrs` takes the centre and the radius already converted to grid positions, which leaves out the conversions at :381-382 and their `self.origin + [radius]*3` quirk (elementwise addition or list concatenation, depending on the origin's type).
- The Euclidean distance test at :390 is a parameter, `within`.
- `meanDensity` and `stdDensity` (:337-347) are floating-point statistics behind a lazy cache, and are left out.
- `utils.createCrsLists` (:443) is not part of this model. `CreateBlobList` and `FindAberrantBlobs` take the partition into components as a parameter.
- DensityHeaders.Init: a zero y or z cell length also makes `orthoMat` singular (:226-230) when the angle words are finite, and LinAlgError then depends on how LAPACK treats the other entries. The model does not decode the angles' values, so it accepts those headers where the source raises. Only the x length is rejected, because its column is zero whatever the angles.
- DensityHeaders.FromFileHeader: as for DensityHeaders.Init, a zero y or z cell length is accepted where the source may raise LinAlgError.
- Ccp4Parse.Parse: as for DensityHeaders.Init, a file with a zero y or z cell length and a non-zero x length may be accepted here where the source raises LinAlgError.
- `warnings.warn` and `verbose` (:81-93) are output only.
- DensityBlobs.Finish: a zero total density gives numpy's inf/nan centroid in the source. The model puts the zero vector there, and states the centroid only for a non-zero total.
- DensityBlobs.DensityBlob.Merge: the source sums over the merged set in Python's set iteration order. The model proves the numbers independent of the order in exact arithmetic, so float rounding differences between orders are not captured.
- DensityBlobs.DensityBlob.Equals: it has no contract of its own. Its comparison is `ApproxSame`, stated by ApproxSameSymmetric and ApproxSameNotTransitive.
- DensityBlobs.FindAberrantBlobs: the contract states the errors and that every blob is fresh and valid. The blobs' contents are stated by AberrantCrs and CreateBlobList, because the partition is applied to a listing whose order the model does not fix.
- DensityMatrices.NewDensityMatrix: numpy infers an extent of -1 in `reshape`. The model treats any negative extent as a shape mismatch.
- DensityHeaders.FloorDiv: `np.floor(c / interval)` is computed in double precision. The model uses exact integer floor division, so the two may differ when |c| exceeds 2^53.
- DensityBlobs.DensityBlob: the source keeps the whole header object. A blob here keeps the `Geometry` it uses instead.

## Findings

| source | as written | input that shows it | evidently intended | confidence | as-written member | corrected member |
|---|---|---|---|---|---|---|
| pdb_eda/ccp4.py:71-75 | `symmetryBytes == 0 \| len != mapSize` chains to `symmetryBytes == len != mapSize`, so nearly every length mismatch fails the first assert and is reported as suspicious symmetry records | symmetryBytes 0, mapSize 32, a 10-byte body: reported as suspicious symmetry records | `symmetryBytes == 0 or len != mapSize` (and likewise for the second assert), so a short body is reported as incomplete data | medium, not executed | Ccp4Parse.SizeCheckMisreportsShortBody | Ccp4Parse.SizeCheckIntended |
| pdb_eda/ccp4.py:89-92 | `col2xyz == 0 & row2xyz == 0 & sec2xyz == 0` chains to `col2xyz == 0`, and the three fields are overwritten without recomputing map2xyz, map2crs, crsInterval, uniqueNcrs or the origin | mapping (0, 0, 0): map2xyz stays (0, 0, 2) while (1, 2, 3) needs (0, 1, 2); mapping (0, 2, 3) is also rewritten | replace only an all-zero mapping, and recompute the fields derived from it | medium, not executed | Ccp4Parse.FixAxesLeavesStaleMaps | Ccp4Parse.FixAxesIntendedConsistent |
| pdb_eda/ccp4.py:77 | the all-zero cell assertion runs after `fromFileHeader` (:65), whose constructor has already inverted `orthoMat` (:230); a zero x length makes its first column zero, so the assertion can never fail | cell lengths 0.0, 0.0, 0.0 with non-zero interval counts and axes (1, 2, 3): LinAlgError "Singular matrix" instead of "Cell dimensions are all 0" | check the cell before the matrix is inverted, so the assertion's message is the one reported | low, not executed | Ccp4Parse.AllZeroCellIsSingular | Ccp4Parse.ParseIntended |
