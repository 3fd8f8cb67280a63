/**
 * Reading a whole CCP4 map (function parse of pdb_eda/ccp4.py): the header
 * from the first 1024 bytes, the size and cell sanity checks, the two
 * fix-up blocks, the split of the rest into symmetry records and map data,
 * and the density grid built from the map data.
 *
 * The checks and fix-ups are modelled as Python evaluates them. Their
 * conditions are written with `&` and `|` between comparisons, and Python
 * binds those operators tighter than `==`, so the comparisons chain:
 * `a == 0 | b != c` is `a == (0 | b) != c`, that is `a == b and b != c`,
 * and `a == 0 & b > 0` is `a == (0 & b) > 0`, that is `a == 0 and 0 > 0`.
 * The members named `...Intended` give what the code evidently means.
 */
module Ccp4Parse {
  import opened Results
  import opened Ccp4Bytes
  import opened DensityHeaders
  import opened DensityMatrices

  /** The exceptions parse raises. */
  datatype ParseError =
    | BadHeader(headerError: HeaderError)
    | SuspiciousSymmetry  // AssertionError "File contains suspicious symmetry records"
    | NoMapData           // AssertionError "File contains no map data"
    | IncompleteData      // AssertionError "contains incomplete data"
    | LargerThanExpected  // AssertionError "File contains larger than expected data"
    | ZeroCell            // AssertionError "Cell dimensions are all 0"
    | UnpackError         // struct.error: the map data is not a whole number of 4-byte words
    | BadShape(matrixError: MatrixError)

  /** `handle.read(1024)`: at most the first 1024 bytes. */
  function FileHeaderPart(file: seq<Byte>): (r: seq<Byte>)
    ensures |r| == if |file| < FileHeaderBytes then |file| else FileHeaderBytes
    ensures r <= file
  {
    if |file| < FileHeaderBytes then file else file[..FileHeaderBytes]
  }

  /** `handle.read()` after that: everything else. */
  function BodyPart(file: seq<Byte>): (r: seq<Byte>)
    ensures FileHeaderPart(file) + r == file
  {
    if |file| < FileHeaderBytes then [] else file[FileHeaderBytes..]
  }

  // ---------------------------------------------------------------------------
  // The size check
  // ---------------------------------------------------------------------------

  /**
   * The four asserts run when the body length is not symmetryBytes +
   * mapSize, as written. Since `0 | n == n`, the first condition is
   * `symmetryBytes == length != mapSize` and the second
   * `mapSize == length != symmetryBytes`; no length passes both.
   */
  function SizeCheck(symmetryBytes: int, mapSize: int, length: int): (r: Option<ParseError>)
    ensures r.None? <==> length == symmetryBytes + mapSize
    ensures r.Some? ==> r.value == SuspiciousSymmetry || r.value == NoMapData
  {
    if length == symmetryBytes + mapSize then None
    else if !(symmetryBytes == length && length != mapSize) then Some(SuspiciousSymmetry)
    else if !(mapSize == length && length != symmetryBytes) then Some(NoMapData)
    else if !(length > symmetryBytes + mapSize) then Some(IncompleteData)
    else if !(length < symmetryBytes + mapSize) then Some(LargerThanExpected)
    else None
  }

  /** The asserts as evidently meant: `a == 0 or b != c`, not a chained comparison. */
  function SizeCheckIntended(symmetryBytes: int, mapSize: int, length: int): (r: Option<ParseError>)
    ensures r.None? <==> length == symmetryBytes + mapSize
    ensures r == Some(IncompleteData) <==>
      length < symmetryBytes + mapSize && !(symmetryBytes != 0 && length == mapSize)
      && !(mapSize != 0 && length == symmetryBytes)
    ensures r == Some(LargerThanExpected) <==>
      length > symmetryBytes + mapSize && !(symmetryBytes != 0 && length == mapSize)
      && !(mapSize != 0 && length == symmetryBytes)
  {
    if length == symmetryBytes + mapSize then None
    else if !(symmetryBytes == 0 || length != mapSize) then Some(SuspiciousSymmetry)
    else if !(mapSize == 0 || length != symmetryBytes) then Some(NoMapData)
    else if !(length > symmetryBytes + mapSize) then Some(IncompleteData)
    else if !(length < symmetryBytes + mapSize) then Some(LargerThanExpected)
    else None
  }

  /**
   * A body of 10 bytes where no symmetry records and 32 bytes of map data
   * are expected: the code as written calls it suspicious symmetry
   * records, the intended check calls it incomplete data.
   */
  lemma SizeCheckMisreportsShortBody()
    ensures SizeCheck(0, 32, 10) == Some(SuspiciousSymmetry)
    ensures SizeCheckIntended(0, 32, 10) == Some(IncompleteData)
  {
  }

  /** Both checks reject exactly the same bodies; only the message differs. */
  lemma SizeChecksAgreeOnAcceptance(symmetryBytes: int, mapSize: int, length: int)
    ensures SizeCheck(symmetryBytes, mapSize, length).None? <==> SizeCheckIntended(symmetryBytes, mapSize, length).None?
  {
  }

  // ---------------------------------------------------------------------------
  // The cell check and the fix-ups
  // ---------------------------------------------------------------------------

  /** xlength, ylength and zlength all compare equal to 0.0. */
  predicate AllZeroCell(h: Header) {
    IsFloatZero(h.xlength) && IsFloatZero(h.ylength) && IsFloatZero(h.zlength)
  }

  /** The three cell-length words of a file header (bytes 40..51) all compare equal to 0.0. */
  predicate CellWordsZero(fileHeader: seq<Byte>)
    requires |fileHeader| >= NumericHeaderBytes
  {
    var bs, e := fileHeader[..NumericHeaderBytes], SelectEndian(fileHeader);
    IsFloatZero(WordAt(bs, 40, e)) && IsFloatZero(WordAt(bs, 44, e)) && IsFloatZero(WordAt(bs, 48, e))
  }

  /** The constructor's interval and axis-index checks pass on a file header. */
  predicate IndexChecksPass(fileHeader: seq<Byte>)
    requires |fileHeader| >= NumericHeaderBytes
  {
    var bs, e := fileHeader[..NumericHeaderBytes], SelectEndian(fileHeader);
    IntAt(bs, e, 7) != 0 && IntAt(bs, e, 8) != 0 && IntAt(bs, e, 9) != 0
    && AxisIndicesOk(IntAt(bs, e, 16), IntAt(bs, e, 17), IntAt(bs, e, 18))
  }

  /**
   * A decoded header never has an all-zero cell: the constructor has
   * already raised LinAlgError for a zero x length, so the cell check of
   * parse cannot fire.
   */
  lemma ZeroCellUnreachable(fileHeader: seq<Byte>)
    requires FromFileHeader(fileHeader).Ok?
    ensures !AllZeroCell(FromFileHeader(fileHeader).value)
  {
  }

  /** A header that passes the index checks but has an all-zero cell fails with LinAlgError, not the cell assertion. */
  lemma AllZeroCellIsSingular(fileHeader: seq<Byte>)
    requires |fileHeader| >= NumericHeaderBytes && IndexChecksPass(fileHeader) && CellWordsZero(fileHeader)
    ensures FromFileHeader(fileHeader) == Err(SingularCell)
  {
  }

  /**
   * The three interval fix-ups as written: `n == 0 & ncrs > 0` reads
   * `n == 0 and 0 > 0`, so none of them ever changes the header.
   */
  function FixIntervals(h: Header): (r: Header)
    ensures r == h
  {
    var h1 := if h.nintervalX == 0 && 0 > 0 then h.(nintervalX := h.ncrs.0 - 1) else h;
    var h2 := if h1.nintervalY == 0 && 0 > 0 then h1.(nintervalY := h1.ncrs.1 - 1) else h1;
    if h2.nintervalZ == 0 && 0 > 0 then h2.(nintervalZ := h2.ncrs.2 - 1) else h2
  }

  /** The interval fix-ups as meant: a zero count becomes `ncrs - 1` when `ncrs > 0`. */
  function FixIntervalsIntended(h: Header): (r: Header)
    ensures XyzIntervalsNonZero(h) ==> r == h
    ensures r.ncrs == h.ncrs
    ensures h.ncrs.0 > 1 && h.ncrs.1 > 1 && h.ncrs.2 > 1 ==> XyzIntervalsNonZero(r)
  {
    var h1 := if h.nintervalX == 0 && h.ncrs.0 > 0 then h.(nintervalX := h.ncrs.0 - 1) else h;
    var h2 := if h1.nintervalY == 0 && h1.ncrs.1 > 0 then h1.(nintervalY := h1.ncrs.1 - 1) else h1;
    if h2.nintervalZ == 0 && h2.ncrs.2 > 0 then h2.(nintervalZ := h2.ncrs.2 - 1) else h2
  }

  /**
   * Neither reading matters: a header the constructor accepted has no zero
   * interval count (it divided by each of them), so the intended fix-ups
   * would not fire either.
   */
  lemma IntervalFixupsNeverFire(fileHeader: seq<Byte>)
    requires FromFileHeader(fileHeader).Ok?
    ensures FixIntervalsIntended(FromFileHeader(fileHeader).value) == FromFileHeader(fileHeader).value
  {
  }

  /**
   * The axis fix-up as written: `col == 0 & row == 0 & sec == 0` reads
   * `col == 0 == 0 == 0`, so it fires whenever col2xyz is 0. It sets the
   * three fields and recomputes nothing derived from them.
   */
  function FixAxes(h: Header): (r: Header)
    ensures h.col2xyz != 0 ==> r == h
    ensures h.col2xyz == 0 ==> r.col2xyz == 1 && r.row2xyz == 2 && r.sec2xyz == 3
    ensures h.col2xyz == 0 ==> r == h.(col2xyz := 1, row2xyz := 2, sec2xyz := 3)
    ensures r.map2xyz == h.map2xyz && r.map2crs == h.map2crs && r.crsInterval == h.crsInterval
    ensures r.uniqueNcrs == h.uniqueNcrs
  {
    if h.col2xyz == 0 then h.(col2xyz := 1, row2xyz := 2, sec2xyz := 3) else h
  }

  /**
   * Applied to a header whose three mapping fields were all 0, the fix-up
   * as written leaves a header whose permutation fields still describe the
   * old mapping: map2xyz stays (0, 0, 2) where the new fields give (0, 1, 2).
   */
  lemma FixAxesLeavesStaleMaps(h: Header)
    requires Consistent(h) && h.col2xyz == 0 && h.row2xyz == 0 && h.sec2xyz == 0
    ensures FixAxes(h).map2xyz == Int3(0, 0, 2)
    ensures Map2Xyz(1, 2, 3) == Int3(0, 1, 2)
    ensures !Consistent(FixAxes(h))
  {
    var r := FixAxes(h);
    assert Map2Xyz(0, 0, 0) == Int3(0, 0, 2);
    assert WithDerived(r).map2xyz == Int3(0, 1, 2);
  }

  /** It also fires on a mapping that is not all zero, (0, 2, 3), where it was not meant to. */
  lemma FixAxesFiresOnColumnAlone(h: Header)
    requires Consistent(h) && h.col2xyz == 0 && h.row2xyz == 2 && h.sec2xyz == 3
    ensures FixAxes(h) != h
    ensures FixAxesIntended(h) == h
  {
  }

  /**
   * The axis fix-up as meant: only a mapping of three zeros is replaced by
   * (1, 2, 3), and the derived fields follow it.
   */
  function FixAxesIntended(h: Header): (r: Header)
    requires GroupsShaped(h)
    ensures !(h.col2xyz == 0 && h.row2xyz == 0 && h.sec2xyz == 0) ==> r == h
    ensures h.col2xyz == 0 && h.row2xyz == 0 && h.sec2xyz == 0 ==>
      r.col2xyz == 1 && r.row2xyz == 2 && r.sec2xyz == 3 &&
      r == WithDerived(h.(col2xyz := 1, row2xyz := 2, sec2xyz := 3))
    ensures h.col2xyz == 0 && h.row2xyz == 0 && h.sec2xyz == 0 ==>
      Consistent(r) && IsAxisPermutation(r) && r.ncrs == h.ncrs && r.symmetryBytes == h.symmetryBytes
  {
    if h.col2xyz == 0 && h.row2xyz == 0 && h.sec2xyz == 0 then
      var fixed := h.(col2xyz := 1, row2xyz := 2, sec2xyz := 3);
      DerivedIsConsistent(fixed);
      WithDerivedKeepsRead(fixed);
      WithDerived(fixed)
    else h
  }

  /** The intended fix-up keeps a consistent header consistent, with mutually inverse permutations. */
  lemma FixAxesIntendedConsistent(h: Header)
    requires Consistent(h)
    ensures Consistent(FixAxesIntended(h))
    ensures h.col2xyz == 0 && h.row2xyz == 0 && h.sec2xyz == 0 ==> InversePermutations(FixAxesIntended(h))
  {
    if h.col2xyz == 0 && h.row2xyz == 0 && h.sec2xyz == 0 {
      PermutationHeaderInverse(FixAxesIntended(h));
    }
  }

  // ---------------------------------------------------------------------------
  // The map data
  // ---------------------------------------------------------------------------

  /** Value `i` is the float stored in the 4-byte word at `start + 4i` of `bytes`, in byte order `e`. */
  predicate FloatsAt(values: seq<real>, bytes: seq<Byte>, start: nat, e: Endian, toReal: Word -> real)
    requires start + 4 * |values| <= |bytes|
  {
    forall i :: 0 <= i < |values| ==> values[i] == toReal(WordAt(bytes, start + 4 * i, e))
  }

  /** `struct.unpack(endian + n * 'f', data)`: one float per 4-byte word, in the file's byte order. */
  function UnpackFloats(data: seq<Byte>, e: Endian, toReal: Word -> real): (r: seq<real>)
    requires |data| % 4 == 0
    ensures |r| * 4 == |data|
    ensures FloatsAt(r, data, 0, e, toReal)
  {
    seq(|data| / 4, i requires 0 <= i < |data| / 4 => toReal(WordAt(data, 4 * i, e)))
  }

  /** Numbers of the decoded header that decide whether the body is accepted. */
  predicate BodyFits(h: Header, length: int) {
    && length == h.symmetryBytes + h.mapSize
    && !AllZeroCell(h)
    && h.symmetryBytes >= 0
    && h.ncrs.0 >= 0 && h.ncrs.1 >= 0 && h.ncrs.2 >= 0
  }

  lemma ProductNonNegative(n: Int3)
    requires n.0 >= 0 && n.1 >= 0 && n.2 >= 0
    ensures n.0 * n.1 * n.2 >= 0
  {
    MulMono(n.0, 0, n.1);
    MulMono(n.0 * n.1, 0, n.2);
  }

  /**
   * When the lengths add up, the body splits into whole words that fill the
   * grid exactly iff the symmetry length and the extents are non-negative;
   * then the symmetry records are the first symmetryBytes bytes and the map
   * data the rest.
   */
  lemma MapDataSplit(h: Header, body: seq<Byte>)
    requires |body| == h.symmetryBytes + h.mapSize && h.mapSize == h.ncrs.0 * h.ncrs.1 * h.ncrs.2 * 4
    ensures var mapData := PySlice(body, h.symmetryBytes, |body|);
      (|mapData| % 4 == 0 && Reshapes(h.ncrs, |mapData| / 4))
      <==> (h.symmetryBytes >= 0 && h.ncrs.0 >= 0 && h.ncrs.1 >= 0 && h.ncrs.2 >= 0)
    ensures h.symmetryBytes >= 0 && h.ncrs.0 >= 0 && h.ncrs.1 >= 0 && h.ncrs.2 >= 0 ==>
      && h.symmetryBytes <= |body|
      && PySlice(body, 0, h.symmetryBytes) == body[..h.symmetryBytes]
      && PySlice(body, h.symmetryBytes, |body|) == body[h.symmetryBytes..]
  {
    var sym, n := h.symmetryBytes, h.ncrs;
    var mapData := PySlice(body, sym, |body|);
    if n.0 >= 0 && n.1 >= 0 && n.2 >= 0 {
      ProductNonNegative(n);
      if sym < 0 {
        assert |mapData| <= |body| < h.mapSize;
      }
    }
  }

  /** Everything parse does after the fix-ups: split the body, unpack the floats, shape the grid. */
  method ReadMapData(header: Header, dataBuffer: seq<Byte>, pdbid: string, toReal: Word -> real)
    returns (r: Result<DensityMatrix, ParseError>)
    ensures var mapData := PySlice(dataBuffer, header.symmetryBytes, |dataBuffer|);
      && (r.Ok? <==> |mapData| % 4 == 0 && Reshapes(header.ncrs, |mapData| / 4))
      && (r.Err? ==> r.error == if |mapData| % 4 != 0 then UnpackError else BadShape(ShapeMismatch))
      && (r.Ok? ==> && r.value.header == header.(symmetry := PySlice(dataBuffer, 0, header.symmetryBytes))
                    && r.value.origin == header.origin
                    && r.value.densityArray == UnpackFloats(mapData, header.endian, toReal)
                    && r.value.pdbid == pdbid)
  {
    var h := header.(symmetry := PySlice(dataBuffer, 0, header.symmetryBytes));
    var mapData := PySlice(dataBuffer, h.symmetryBytes, |dataBuffer|);
    if |mapData| % 4 != 0 {
      return Err(UnpackError);
    }
    var densities := UnpackFloats(mapData, h.endian, toReal);
    var matrix := NewDensityMatrix(h, h.origin, densities, pdbid);
    if matrix.Err? {
      return Err(BadShape(matrix.error));
    }
    return Ok(matrix.value);
  }

  /**
   * parse after the header is decoded, as written: check the body length
   * and the cell, apply the fix-ups, then read the map data. A body is
   * accepted iff its length is symmetryBytes + mapSize, the cell is not all
   * zero, and the symmetry length and the extents are non-negative; then
   * the symmetry records are the body's first symmetryBytes bytes and
   * density `i` is the float word at byte symmetryBytes + 4i of the body,
   * in the header's byte order.
   */
  method CheckAndRead(h: Header, body: seq<Byte>, pdbid: string, toReal: Word -> real)
    returns (r: Result<DensityMatrix, ParseError>)
    requires Consistent(h)
    ensures r.Ok? <==> BodyFits(h, |body|)
    ensures |body| != h.symmetryBytes + h.mapSize ==> r == Err(SizeCheck(h.symmetryBytes, h.mapSize, |body|).value)
    ensures |body| == h.symmetryBytes + h.mapSize && AllZeroCell(h) ==> r == Err(ZeroCell)
    ensures r == Err(ZeroCell) ==> AllZeroCell(h)
    ensures r.Ok? ==>
      && 0 <= h.symmetryBytes <= |body|
      && r.value.header == FixAxes(h).(symmetry := body[..h.symmetryBytes])
      && r.value.origin == h.origin
      && |r.value.densityArray| * 4 == h.mapSize
      && FloatsAt(r.value.densityArray, body, h.symmetryBytes, h.endian, toReal)
  {
    var header := h;
    var sizeError := SizeCheck(header.symmetryBytes, header.mapSize, |body|);
    if sizeError.Some? {
      return Err(sizeError.value);
    }
    if AllZeroCell(header) {
      return Err(ZeroCell);
    }
    header := FixIntervals(header);
    header := FixAxes(header);
    MapDataSplit(header, body);
    r := ReadMapData(header, body, pdbid, toReal);
    if r.Ok? {
      var sym := h.symmetryBytes;
      forall i | 0 <= i < |r.value.densityArray|
        ensures r.value.densityArray[i] == toReal(WordAt(body, sym + 4 * i, h.endian))
      {
        assert WordAt(body[sym..], 4 * i, h.endian) == WordAt(body, sym + 4 * i, h.endian);
      }
      assert FloatsAt(r.value.densityArray, body, sym, h.endian, toReal);
    }
  }

  /** parse, as written: the header from the first 1024 bytes, then the checks on the rest. */
  method Parse(file: seq<Byte>, pdbid: string, toReal: Word -> real) returns (r: Result<DensityMatrix, ParseError>)
    ensures FromFileHeader(FileHeaderPart(file)).Err? ==>
      r == Err(BadHeader(FromFileHeader(FileHeaderPart(file)).error))
    ensures FromFileHeader(FileHeaderPart(file)).Ok? ==>
      var h, body := FromFileHeader(FileHeaderPart(file)).value, BodyPart(file);
      && (r.Ok? <==> BodyFits(h, |body|))
      && (|body| != h.symmetryBytes + h.mapSize ==> r == Err(SizeCheck(h.symmetryBytes, h.mapSize, |body|).value))
      && (|body| == h.symmetryBytes + h.mapSize && AllZeroCell(h) ==> r == Err(ZeroCell))
      && (r.Ok? ==>
            && 0 <= h.symmetryBytes <= |body|
            && r.value.header == FixAxes(h).(symmetry := body[..h.symmetryBytes])
            && r.value.origin == h.origin
            && |r.value.densityArray| * 4 == h.mapSize
            && FloatsAt(r.value.densityArray, body, h.symmetryBytes, h.endian, toReal))
    ensures r.Err? ==> r.error != ZeroCell
    ensures var fh := FileHeaderPart(file);
      |fh| >= NumericHeaderBytes && IndexChecksPass(fh) && CellWordsZero(fh) ==> r == Err(BadHeader(SingularCell))
  {
    var header := FromFileHeader(FileHeaderPart(file));
    if |FileHeaderPart(file)| >= NumericHeaderBytes && IndexChecksPass(FileHeaderPart(file))
       && CellWordsZero(FileHeaderPart(file)) {
      AllZeroCellIsSingular(FileHeaderPart(file));
    }
    if header.Err? {
      return Err(BadHeader(header.error));
    }
    ZeroCellUnreachable(FileHeaderPart(file));
    r := CheckAndRead(header.value, BodyPart(file), pdbid, toReal);
  }

  /** The checks and fix-ups as meant: the same files are accepted, and the header is consistent. */
  method CheckAndReadIntended(h: Header, body: seq<Byte>, pdbid: string, toReal: Word -> real)
    returns (r: Result<DensityMatrix, ParseError>)
    requires Consistent(h) && XyzIntervalsNonZero(h)
    ensures r.Ok? <==> BodyFits(h, |body|)
    ensures |body| != h.symmetryBytes + h.mapSize ==>
      r == Err(SizeCheckIntended(h.symmetryBytes, h.mapSize, |body|).value)
    ensures |body| == h.symmetryBytes + h.mapSize && AllZeroCell(h) ==> r == Err(ZeroCell)
    ensures r.Ok? ==>
      && 0 <= h.symmetryBytes <= |body|
      && r.value.header == FixAxesIntended(h).(symmetry := body[..h.symmetryBytes])
      && Consistent(r.value.header)
      && r.value.origin == FixAxesIntended(h).origin
  {
    var header := h;
    var sizeError := SizeCheckIntended(header.symmetryBytes, header.mapSize, |body|);
    if sizeError.Some? {
      return Err(sizeError.value);
    }
    if AllZeroCell(header) {
      return Err(ZeroCell);
    }
    header := FixIntervalsIntended(header);
    assert header == h;
    FixAxesIntendedConsistent(header);
    header := FixAxesIntended(header);
    assert header.ncrs == h.ncrs && header.symmetryBytes == h.symmetryBytes && header.mapSize == h.mapSize;
    MapDataSplit(header, body);
    SymmetryKeepsConsistent(header, PySlice(body, 0, header.symmetryBytes));
    r := ReadMapData(header, body, pdbid, toReal);
  }

  /**
   * parse with the size check and the fix-ups as meant, and an all-zero cell
   * reported by the cell check rather than by the matrix inversion.
   */
  method ParseIntended(file: seq<Byte>, pdbid: string, toReal: Word -> real)
    returns (r: Result<DensityMatrix, ParseError>)
    ensures FromFileHeader(FileHeaderPart(file)).Err? ==>
      var fh := FileHeaderPart(file);
      r == Err(if |fh| >= NumericHeaderBytes && FromFileHeader(fh).error == SingularCell && CellWordsZero(fh)
               then ZeroCell else BadHeader(FromFileHeader(fh).error))
    ensures var fh := FileHeaderPart(file);
      |fh| >= NumericHeaderBytes && IndexChecksPass(fh) && CellWordsZero(fh) ==> r == Err(ZeroCell)
    ensures FromFileHeader(FileHeaderPart(file)).Ok? ==>
      var h, body := FromFileHeader(FileHeaderPart(file)).value, BodyPart(file);
      && (r.Ok? <==> BodyFits(h, |body|))
      && (|body| != h.symmetryBytes + h.mapSize ==> r == Err(SizeCheckIntended(h.symmetryBytes, h.mapSize, |body|).value))
      && (|body| == h.symmetryBytes + h.mapSize && AllZeroCell(h) ==> r == Err(ZeroCell))
      && (r.Ok? ==> 0 <= h.symmetryBytes <= |body| && Consistent(r.value.header)
                    && r.value.header.symmetry == body[..h.symmetryBytes])
  {
    var fh := FileHeaderPart(file);
    var header := FromFileHeader(fh);
    if |fh| >= NumericHeaderBytes && IndexChecksPass(fh) && CellWordsZero(fh) {
      AllZeroCellIsSingular(fh);
    }
    if header.Err? {
      if |fh| >= NumericHeaderBytes && header.error == SingularCell && CellWordsZero(fh) {
        return Err(ZeroCell);
      }
      return Err(BadHeader(header.error));
    }
    assert XyzIntervalsNonZero(header.value);
    r := CheckAndReadIntended(header.value, BodyPart(file), pdbid, toReal);
  }

  /** The symmetry records are not among the fields the constructor derives from. */
  lemma SymmetryKeepsConsistent(h: Header, symmetry: seq<Byte>)
    requires Consistent(h)
    ensures Consistent(h.(symmetry := symmetry))
  {
  }
}
