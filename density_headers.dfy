/**
 * The CCP4 map header (class DensityHeader of pdb_eda/ccp4.py): the byte-order
 * choice, the fixed 224-byte field layout read by `struct.unpack`, the fields
 * derived from it (map size, axis permutations, intervals per axis, the
 * "unique" extent, the choice of origin), the periodic wrap of grid
 * coordinates (validCRS) and the orthogonal branch of the coordinate
 * transforms.
 */
module DensityHeaders {
  import opened Results
  import opened Ccp4Bytes

  /** A Python triple of integers: grid coordinates, extents, permutations. */
  datatype Int3 = Int3(0: int, 1: int, 2: int) {
    function At(i: nat): int
      requires i < 3
    {
      if i == 0 then this.0 else if i == 1 then this.1 else this.2
    }

    /** The triple with position `i` replaced by `v` (a list item assignment). */
    function With(i: nat, v: int): (r: Int3)
      requires i < 3
      ensures r.At(i) == v
      ensures forall j :: 0 <= j < 3 && j != i ==> r.At(j) == At(j)
    {
      if i == 0 then Int3(v, this.1, this.2)
      else if i == 1 then Int3(this.0, v, this.2)
      else Int3(this.0, this.1, v)
    }
  }

  /** A triple of reals: physical (xyz) coordinates and per-axis spacings. */
  datatype Vec3 = Vec3(0: real, 1: real, 2: real) {
    function At(i: nat): real
      requires i < 3
    {
      if i == 0 then this.0 else if i == 1 then this.1 else this.2
    }
  }

  // ---------------------------------------------------------------------------
  // Byte order
  // ---------------------------------------------------------------------------

  /** The mode word: bytes 12..16 read as an unsigned little-endian integer. */
  function ModeWord(fileHeader: seq<Byte>): Word
    requires |fileHeader| >= 16
  {
    WordAt(fileHeader, 12, Little)
  }

  /** The byte order of the whole file: little-endian iff the mode word is 0..6. */
  function SelectEndian(fileHeader: seq<Byte>): (e: Endian)
    requires |fileHeader| >= 16
    ensures e == Little <==> ModeWord(fileHeader) <= 6
  {
    if 0 <= ModeWord(fileHeader) <= 6 then Little else Big
  }

  /**
   * A file whose mode 1..6 was written in either byte order is read back in
   * that order; a mode of 0 is always taken as little-endian, whichever order
   * wrote it.
   */
  lemma {:induction false} EndianDetected(fileHeader: seq<Byte>, m: Word, e: Endian)
    requires |fileHeader| >= 16 && m <= 6
    requires fileHeader[12..16] == EncodeWord(m, e)
    ensures 1 <= m ==> SelectEndian(fileHeader) == e
    ensures m == 0 ==> SelectEndian(fileHeader) == Little
  {
    var bs := EncodeWord(m, e);
    assert fileHeader[12] == bs[0] && fileHeader[13] == bs[1] && fileHeader[14] == bs[2] && fileHeader[15] == bs[3];
    if e == Little {
      WordRoundTrip(m, Little);
    } else if m == 0 {
      assert bs == [0, 0, 0, 0];
    } else {
      assert bs[3] == m % 256 && m % 256 == m;
      Word4Bytes(fileHeader[12], fileHeader[13], fileHeader[14], fileHeader[15]);
    }
  }

  // ---------------------------------------------------------------------------
  // Field layout of the first 224 bytes
  // ---------------------------------------------------------------------------

  /** The `struct` codes of the header format: 'i', 'f' and 'c'. */
  datatype Code = IntCode | FloatCode | CharCode

  const FieldCount: nat := 59
  const NumericHeaderBytes: nat := 224
  const FileHeaderBytes: nat := 1024

  /** The code of field `k` in `10i 6f 3i 3f 3i 27f 4c i f i`. */
  function CodeAt(k: nat): Code
    requires k < FieldCount
  {
    if k < 10 then IntCode
    else if k < 16 then FloatCode
    else if k < 19 then IntCode
    else if k < 22 then FloatCode
    else if k < 25 then IntCode
    else if k < 52 then FloatCode
    else if k < 56 then CharCode
    else if k == 56 then IntCode
    else if k == 57 then FloatCode
    else IntCode
  }

  /** Standard sizes under an explicit byte order: no padding. */
  function Size(c: Code): nat {
    if c == CharCode then 1 else 4
  }

  /** Where `struct` places field `k`: the sizes of the fields before it added up, with no padding. */
  function PackedOffset(k: nat): nat
    requires k <= FieldCount
  {
    if k == 0 then 0 else PackedOffset(k - 1) + Size(CodeAt(k - 1))
  }

  /** The byte offset of field `k`, in closed form. */
  function Offset(k: nat): (off: nat)
    requires k <= FieldCount
  {
    if k <= 52 then 4 * k else if k <= 56 then 208 + (k - 52) else 212 + 4 * (k - 56)
  }

  /**
   * The first 52 fields sit at offsets 4k, the four characters at 208..211,
   * then an int, a float and an int at 212, 216 and 220.
   */
  lemma {:induction false} OffsetIsPacked(k: nat)
    requires k <= FieldCount
    ensures Offset(k) == PackedOffset(k)
  {
    if k > 0 {
      OffsetIsPacked(k - 1);
    }
  }

  /** The fields fill exactly 224 bytes. */
  lemma HeaderFillsNumericBytes()
    ensures PackedOffset(FieldCount) == NumericHeaderBytes
  {
    OffsetIsPacked(FieldCount);
  }

  /** One unpacked value: `struct` gives ints, floats (kept as words) and 1-byte strings. */
  datatype Field = IntField(i: int) | FloatField(w: Word) | CharField(b: Byte)

  predicate Matches(f: Field, c: Code) {
    match c
    case IntCode => f.IntField?
    case FloatCode => f.FloatField?
    case CharCode => f.CharField?
  }

  /** Field `k` of a 224-byte numeric header read in byte order `e`. */
  function FieldAt(bs: seq<Byte>, e: Endian, k: nat): (f: Field)
    requires |bs| == NumericHeaderBytes && k < FieldCount
    ensures Matches(f, CodeAt(k))
    ensures CodeAt(k) == CharCode ==> f == CharField(bs[Offset(k)])
    ensures CodeAt(k) == IntCode ==> f == IntField(Int32(WordAt(bs, Offset(k), e)))
    ensures CodeAt(k) == FloatCode ==> f == FloatField(WordAt(bs, Offset(k), e))
  {
    var off := Offset(k);
    match CodeAt(k)
    case IntCode => IntField(Int32(WordAt(bs, off, e)))
    case FloatCode => FloatField(WordAt(bs, off, e))
    case CharCode => CharField(bs[off])
  }

  predicate Shaped(t: seq<Field>) {
    |t| == FieldCount && forall k :: 0 <= k < FieldCount ==> Matches(t[k], CodeAt(k))
  }

  /** `struct.unpack(endian + format, fileHeader[:224])`: every field in the one byte order `e`. */
  function Unpack(bs: seq<Byte>, e: Endian): (t: seq<Field>)
    requires |bs| == NumericHeaderBytes
    ensures Shaped(t)
    ensures forall k :: 0 <= k < FieldCount ==> t[k] == FieldAt(bs, e, k)
  {
    seq(FieldCount, k requires 0 <= k < FieldCount => FieldAt(bs, e, k))
  }

  // ---------------------------------------------------------------------------
  // The header record
  // ---------------------------------------------------------------------------

  /**
   * Where the origin comes from (_calculateOrigin): the orthogonalisation
   * matrix applied to the fractional start `crsStart[map2xyz[i]] / xyzInterval[i]`,
   * or the explicit ORIGIN words verbatim.  The matrix product itself is not modelled.
   */
  datatype Origin =
    | FromCrsStart(startNumerators: Int3, intervals: Int3)
    | FromOriginEM(xyz: seq<Word>)

  datatype Header = Header(
    ncrs: Int3, mode: int, endian: Endian, crsStart: Int3,
    nintervalX: int, nintervalY: int, nintervalZ: int,
    xlength: Word, ylength: Word, zlength: Word,
    alpha: Word, beta: Word, gamma: Word,
    col2xyz: int, row2xyz: int, sec2xyz: int,
    densityMin: Word, densityMax: Word, densityMean: Word,
    spaceGroup: int, symmetryBytes: int, skewFlag: int,
    skewMat: seq<Word>, skewTrans: seq<Word>, futureUse: seq<Word>, originEM: seq<Word>,
    mapChar: seq<Byte>, machineStamp: int, rmsd: Word, nLabel: int, labels: seq<Byte>,
    // derived in the constructor
    mapSize: int, xyzInterval: Int3, map2xyz: Int3, map2crs: Int3, crsInterval: Int3,
    origin: Origin, uniqueNcrs: Int3,
    // set by the parser after construction
    symmetry: seq<Byte>)

  /** Exceptions raised while the header object is built. */
  datatype HeaderError =
    | ShortHeader        // struct.error: fewer than 224 bytes to unpack
    | ZeroInterval       // ZeroDivisionError computing gridLength
    | AxisIndexOutOfRange // IndexError: col/row/sec2xyz - 1 is not a valid list index
    | SingularCell       // LinAlgError: orthoMat's first column is zero when xlength is 0.0

  /** The word and character groups have the lengths the format gives them. */
  predicate GroupsShaped(h: Header) {
    |h.skewMat| == 9 && |h.skewTrans| == 3 && |h.futureUse| == 12 && |h.originEM| == 3 && |h.mapChar| == 4
  }

  /** Python accepts `i` as an index into a 3-element list iff -3 <= i < 3. */
  predicate PyIndexOk(i: int) { -3 <= i < 3 }

  function PyIndex(i: int): (j: nat)
    requires PyIndexOk(i)
    ensures j < 3 && (j - i) % 3 == 0
  {
    if i < 0 then i + 3 else i
  }

  predicate AxisIndicesOk(col2xyz: int, row2xyz: int, sec2xyz: int) {
    PyIndexOk(col2xyz - 1) && PyIndexOk(row2xyz - 1) && PyIndexOk(sec2xyz - 1)
  }

  /** The header fields as read, before anything is derived from them. */
  function Raw(t: seq<Field>, labels: seq<Byte>, endian: Endian): (h: Header)
    requires Shaped(t)
    ensures GroupsShaped(h)
    ensures h.labels == labels && h.endian == endian && h.symmetry == []
  {
    Header(
      Int3(t[0].i, t[1].i, t[2].i), t[3].i, endian, Int3(t[4].i, t[5].i, t[6].i),
      t[7].i, t[8].i, t[9].i,
      t[10].w, t[11].w, t[12].w,
      t[13].w, t[14].w, t[15].w,
      t[16].i, t[17].i, t[18].i,
      t[19].w, t[20].w, t[21].w,
      t[22].i, t[23].i, t[24].i,
      seq(9, j requires 0 <= j < 9 => t[25 + j].w),
      [t[34].w, t[35].w, t[36].w],
      seq(12, j requires 0 <= j < 12 => t[37 + j].w),
      [t[49].w, t[50].w, t[51].w],
      [t[52].b, t[53].b, t[54].b, t[55].b],
      t[56].i, t[57].w, t[58].i, labels,
      0, Int3(0, 0, 0), Int3(0, 0, 0), Int3(0, 0, 0), Int3(0, 0, 0),
      FromOriginEM([]), Int3(0, 0, 0),
      [])
  }

  /** `indices[col2xyz-1] = 0; indices[row2xyz-1] = 1; indices[sec2xyz-1] = 2` on `[0, 0, 0]`. */
  function Map2Xyz(col2xyz: int, row2xyz: int, sec2xyz: int): (m: Int3)
    requires AxisIndicesOk(col2xyz, row2xyz, sec2xyz)
    ensures 0 <= m.0 < 3 && 0 <= m.1 < 3 && 0 <= m.2 < 3
  {
    Int3(0, 0, 0).With(PyIndex(col2xyz - 1), 0).With(PyIndex(row2xyz - 1), 1).With(PyIndex(sec2xyz - 1), 2)
  }

  /** Position `i` of `ncrs` lowered to `bound` when `bound` is smaller. */
  function LowerTo(n: int, bound: int): int {
    if bound < n then bound else n
  }

  /** The constructor's derivations, recomputed from the fields as they stand. */
  function WithDerived(h: Header): (d: Header)
    requires GroupsShaped(h) && AxisIndicesOk(h.col2xyz, h.row2xyz, h.sec2xyz)
  {
    var xyzInterval := Int3(h.nintervalX, h.nintervalY, h.nintervalZ);
    var map2xyz := Map2Xyz(h.col2xyz, h.row2xyz, h.sec2xyz);
    var map2crs := Int3(h.col2xyz - 1, h.row2xyz - 1, h.sec2xyz - 1);
    var crsInterval := Int3(xyzInterval.At(PyIndex(map2crs.0)),
                            xyzInterval.At(PyIndex(map2crs.1)),
                            xyzInterval.At(PyIndex(map2crs.2)));
    var origin :=
      if IsFloatZero(h.futureUse[|h.futureUse| - 3]) && IsFloatZero(h.futureUse[|h.futureUse| - 2]) && IsFloatZero(h.futureUse[|h.futureUse| - 1])
      then FromCrsStart(Int3(h.crsStart.At(map2xyz.0), h.crsStart.At(map2xyz.1), h.crsStart.At(map2xyz.2)),
                        xyzInterval)
      else FromOriginEM(h.originEM);
    var uniqueNcrs := Int3(LowerTo(h.ncrs.0, xyzInterval.At(PyIndex(h.col2xyz - 1))),
                           LowerTo(h.ncrs.1, xyzInterval.At(PyIndex(h.row2xyz - 1))),
                           LowerTo(h.ncrs.2, xyzInterval.At(PyIndex(h.sec2xyz - 1))));
    h.(mapSize := h.ncrs.0 * h.ncrs.1 * h.ncrs.2 * 4,
       xyzInterval := xyzInterval, map2xyz := map2xyz, map2crs := map2crs,
       crsInterval := crsInterval, origin := origin, uniqueNcrs := uniqueNcrs)
  }

  /** A header whose derived fields agree with its own fields (as the constructor leaves it). */
  predicate Consistent(h: Header) {
    GroupsShaped(h) && AxisIndicesOk(h.col2xyz, h.row2xyz, h.sec2xyz) && h == WithDerived(h)
  }

  /** The per-axis interval counts are non-zero (else gridLength divides by zero). */
  predicate IntervalsNonZero(h: Header) {
    h.crsInterval.0 != 0 && h.crsInterval.1 != 0 && h.crsInterval.2 != 0
  }

  /** The interval counts as read are non-zero (else gridLength divides by zero). */
  predicate XyzIntervalsNonZero(h: Header) {
    h.nintervalX != 0 && h.nintervalY != 0 && h.nintervalZ != 0
  }

  /** The derivations leave every field read from the file as it was. */
  lemma WithDerivedKeepsRead(h: Header)
    requires GroupsShaped(h) && AxisIndicesOk(h.col2xyz, h.row2xyz, h.sec2xyz)
    ensures var d := WithDerived(h);
      && d.ncrs == h.ncrs && d.mode == h.mode && d.endian == h.endian && d.crsStart == h.crsStart
      && d.nintervalX == h.nintervalX && d.nintervalY == h.nintervalY && d.nintervalZ == h.nintervalZ
      && d.xlength == h.xlength && d.ylength == h.ylength && d.zlength == h.zlength
      && d.alpha == h.alpha && d.beta == h.beta && d.gamma == h.gamma
      && d.col2xyz == h.col2xyz && d.row2xyz == h.row2xyz && d.sec2xyz == h.sec2xyz
      && d.densityMin == h.densityMin && d.densityMax == h.densityMax && d.densityMean == h.densityMean
      && d.spaceGroup == h.spaceGroup && d.symmetryBytes == h.symmetryBytes && d.skewFlag == h.skewFlag
      && d.skewMat == h.skewMat && d.skewTrans == h.skewTrans && d.futureUse == h.futureUse && d.originEM == h.originEM
      && d.mapChar == h.mapChar && d.machineStamp == h.machineStamp && d.rmsd == h.rmsd && d.nLabel == h.nLabel
      && d.labels == h.labels && d.symmetry == h.symmetry
      && d.mapSize == h.ncrs.0 * h.ncrs.1 * h.ncrs.2 * 4
    // only the seven derived fields may differ
    ensures WithDerived(h).(mapSize := h.mapSize, xyzInterval := h.xyzInterval, map2xyz := h.map2xyz,
                            map2crs := h.map2crs, crsInterval := h.crsInterval, origin := h.origin,
                            uniqueNcrs := h.uniqueNcrs) == h
  {
  }

  /**
   * _calculateOrigin's branch: the crsStart origin iff the last three
   * future-use words all compare equal to 0.0, its numerators being crsStart
   * permuted by map2xyz over the xyz interval counts; otherwise the ORIGIN
   * words verbatim.
   */
  lemma OriginBranch(h: Header)
    requires Consistent(h)
    ensures h.origin.FromCrsStart? <==>
      IsFloatZero(h.futureUse[9]) && IsFloatZero(h.futureUse[10]) && IsFloatZero(h.futureUse[11])
    ensures h.origin.FromCrsStart? ==>
      && h.origin.startNumerators == Int3(h.crsStart.At(h.map2xyz.0), h.crsStart.At(h.map2xyz.1), h.crsStart.At(h.map2xyz.2))
      && h.origin.intervals == Int3(h.nintervalX, h.nintervalY, h.nintervalZ)
    ensures h.origin.FromOriginEM? ==> h.origin.xyz == h.originEM && |h.origin.xyz| == 3
  {
  }

  /** Deriving twice changes nothing: a derived header is consistent. */
  lemma DerivedIsConsistent(h: Header)
    requires GroupsShaped(h) && AxisIndicesOk(h.col2xyz, h.row2xyz, h.sec2xyz)
    ensures Consistent(WithDerived(h))
    ensures XyzIntervalsNonZero(h) ==> IntervalsNonZero(WithDerived(h)) && XyzIntervalsNonZero(WithDerived(h))
  {
    var d := WithDerived(h);
    WithDerivedKeepsRead(h);
    assert d.futureUse == h.futureUse && d.originEM == h.originEM && d.crsStart == h.crsStart;
  }

  /** DensityHeader.__init__ on an unpacked tuple: the exceptions it raises, or the header. */
  function Init(t: seq<Field>, labels: seq<Byte>, endian: Endian): (r: Result<Header, HeaderError>)
    requires Shaped(t)
    ensures r.Err? <==> t[7].i == 0 || t[8].i == 0 || t[9].i == 0 || !AxisIndicesOk(t[16].i, t[17].i, t[18].i)
                        || IsFloatZero(t[10].w)
    ensures r.Err? ==> r.error == (if t[7].i == 0 || t[8].i == 0 || t[9].i == 0 then ZeroInterval
                                   else if !AxisIndicesOk(t[16].i, t[17].i, t[18].i) then AxisIndexOutOfRange
                                   else SingularCell)
    ensures r.Ok? ==> Consistent(r.value) && IntervalsNonZero(r.value) && XyzIntervalsNonZero(r.value)
    ensures r.Ok? ==> !IsFloatZero(r.value.xlength)
    ensures r.Ok? ==> AxisIndicesOk(t[16].i, t[17].i, t[18].i) && r.value == WithDerived(Raw(t, labels, endian))
  {
    var h := Raw(t, labels, endian);
    if h.nintervalX == 0 || h.nintervalY == 0 || h.nintervalZ == 0 then Err(ZeroInterval)
    else if !AxisIndicesOk(h.col2xyz, h.row2xyz, h.sec2xyz) then Err(AxisIndexOutOfRange)
    else if IsFloatZero(h.xlength) then Err(SingularCell)
    else DerivedIsConsistent(h); Ok(WithDerived(h))
  }

  /** The signed integer field `k` of a numeric header read in order `e`. */
  function IntAt(bs: seq<Byte>, e: Endian, k: nat): int
    requires |bs| == NumericHeaderBytes && k < FieldCount
  {
    Int32(WordAt(bs, Offset(k), e))
  }

  /**
   * DensityHeader.fromFileHeader: choose the byte order from the mode word,
   * unpack the 59 numeric fields from the first 224 bytes in that order, take
   * the rest as labels with spaces removed, and build the header.
   */
  function FromFileHeader(fileHeader: seq<Byte>): (r: Result<Header, HeaderError>)
    ensures |fileHeader| < NumericHeaderBytes ==> r == Err(ShortHeader)
    ensures |fileHeader| >= NumericHeaderBytes ==>
      var bs, e := fileHeader[..NumericHeaderBytes], SelectEndian(fileHeader);
      && (r.Err? <==> IntAt(bs, e, 7) == 0 || IntAt(bs, e, 8) == 0 || IntAt(bs, e, 9) == 0
                      || !AxisIndicesOk(IntAt(bs, e, 16), IntAt(bs, e, 17), IntAt(bs, e, 18))
                      || IsFloatZero(WordAt(bs, 40, e)))
      && (r.Err? ==> r.error == (if IntAt(bs, e, 7) == 0 || IntAt(bs, e, 8) == 0 || IntAt(bs, e, 9) == 0 then ZeroInterval
                                 else if !AxisIndicesOk(IntAt(bs, e, 16), IntAt(bs, e, 17), IntAt(bs, e, 18))
                                 then AxisIndexOutOfRange
                                 else SingularCell))
      && (r.Ok? ==>
            && r.value.endian == e
            && r.value.labels == RemoveSpaces(fileHeader[NumericHeaderBytes..])
            && r.value.symmetry == []
            && Consistent(r.value) && IntervalsNonZero(r.value) && XyzIntervalsNonZero(r.value)
            && !IsFloatZero(r.value.xlength))
  {
    if |fileHeader| < NumericHeaderBytes then Err(ShortHeader)
    else
      var e := SelectEndian(fileHeader);
      var t := Unpack(fileHeader[..NumericHeaderBytes], e);
      var labels := RemoveSpaces(fileHeader[NumericHeaderBytes..]);
      Init(t, labels, e)
  }

  /** The decoded header is the derivation applied to the unpacked fields. */
  lemma DecodedFromRaw(fileHeader: seq<Byte>)
    requires |fileHeader| >= NumericHeaderBytes && FromFileHeader(fileHeader).Ok?
    ensures
      var bs, e := fileHeader[..NumericHeaderBytes], SelectEndian(fileHeader);
      var raw := Raw(Unpack(bs, e), RemoveSpaces(fileHeader[NumericHeaderBytes..]), e);
      && AxisIndicesOk(raw.col2xyz, raw.row2xyz, raw.sec2xyz)
      && FromFileHeader(fileHeader).value == WithDerived(raw)
  {
  }

  /**
   * Where the integer fields come from: the signed word at offset 4k of the
   * numeric header, in the file's one byte order; the map size is four bytes
   * per grid point.
   */
  lemma IntegerFieldLayout(fileHeader: seq<Byte>)
    requires |fileHeader| >= NumericHeaderBytes && FromFileHeader(fileHeader).Ok?
    ensures
      var bs, e, h := fileHeader[..NumericHeaderBytes], SelectEndian(fileHeader), FromFileHeader(fileHeader).value;
      && h.ncrs == Int3(Int32(WordAt(bs, 0, e)), Int32(WordAt(bs, 4, e)), Int32(WordAt(bs, 8, e)))
      && h.mode == Int32(WordAt(bs, 12, e))
      && h.crsStart == Int3(Int32(WordAt(bs, 16, e)), Int32(WordAt(bs, 20, e)), Int32(WordAt(bs, 24, e)))
      && h.nintervalX == Int32(WordAt(bs, 28, e)) && h.nintervalY == Int32(WordAt(bs, 32, e))
      && h.nintervalZ == Int32(WordAt(bs, 36, e))
      && h.col2xyz == Int32(WordAt(bs, 64, e)) && h.row2xyz == Int32(WordAt(bs, 68, e))
      && h.sec2xyz == Int32(WordAt(bs, 72, e))
      && h.spaceGroup == Int32(WordAt(bs, 88, e)) && h.symmetryBytes == Int32(WordAt(bs, 92, e))
      && h.skewFlag == Int32(WordAt(bs, 96, e))
      && h.mapSize == h.ncrs.0 * h.ncrs.1 * h.ncrs.2 * 4
  {
    var bs, e := fileHeader[..NumericHeaderBytes], SelectEndian(fileHeader);
    var t := Unpack(bs, e);
    var raw := Raw(t, RemoveSpaces(fileHeader[NumericHeaderBytes..]), e);
    DecodedFromRaw(fileHeader);
    WithDerivedKeepsRead(raw);
    assert t[0] == FieldAt(bs, e, 0) && t[1] == FieldAt(bs, e, 1) && t[2] == FieldAt(bs, e, 2);
    assert t[3] == FieldAt(bs, e, 3);
    assert t[4] == FieldAt(bs, e, 4) && t[5] == FieldAt(bs, e, 5) && t[6] == FieldAt(bs, e, 6);
    assert t[7] == FieldAt(bs, e, 7) && t[8] == FieldAt(bs, e, 8) && t[9] == FieldAt(bs, e, 9);
    assert t[16] == FieldAt(bs, e, 16) && t[17] == FieldAt(bs, e, 17) && t[18] == FieldAt(bs, e, 18);
    assert t[22] == FieldAt(bs, e, 22) && t[23] == FieldAt(bs, e, 23) && t[24] == FieldAt(bs, e, 24);
  }

  /**
   * The word groups of the raw header are the float words in order: the skew
   * matrix at 100, the skew translation at 136, the future-use words at 148
   * and the ORIGIN words at 196.
   */
  lemma RawWordGroups(bs: seq<Byte>, labels: seq<Byte>, e: Endian)
    requires |bs| == NumericHeaderBytes
    ensures var raw := Raw(Unpack(bs, e), labels, e);
      && (forall j :: 0 <= j < 9 ==> raw.skewMat[j] == WordAt(bs, 100 + 4 * j, e))
      && raw.skewTrans == [WordAt(bs, 136, e), WordAt(bs, 140, e), WordAt(bs, 144, e)]
      && (forall j :: 0 <= j < 12 ==> raw.futureUse[j] == WordAt(bs, 148 + 4 * j, e))
      && raw.originEM == [WordAt(bs, 196, e), WordAt(bs, 200, e), WordAt(bs, 204, e)]
  {
    var t := Unpack(bs, e);
    var raw := Raw(t, labels, e);
    forall j | 0 <= j < 9 ensures raw.skewMat[j] == WordAt(bs, 100 + 4 * j, e) {
      assert t[25 + j] == FieldAt(bs, e, 25 + j);
    }
    assert t[34] == FieldAt(bs, e, 34) && t[35] == FieldAt(bs, e, 35) && t[36] == FieldAt(bs, e, 36);
    forall j | 0 <= j < 12 ensures raw.futureUse[j] == WordAt(bs, 148 + 4 * j, e) {
      assert t[37 + j] == FieldAt(bs, e, 37 + j);
    }
    assert t[49] == FieldAt(bs, e, 49) && t[50] == FieldAt(bs, e, 50) && t[51] == FieldAt(bs, e, 51);
  }

  /** The trailing fields of the raw header: bytes 208..211, then the words at 212, 216 and 220. */
  lemma RawTrailing(bs: seq<Byte>, labels: seq<Byte>, e: Endian)
    requires |bs| == NumericHeaderBytes
    ensures var raw := Raw(Unpack(bs, e), labels, e);
      && raw.mapChar == bs[208..212]
      && raw.machineStamp == Int32(WordAt(bs, 212, e))
      && raw.rmsd == WordAt(bs, 216, e)
      && raw.nLabel == Int32(WordAt(bs, 220, e))
  {
    var t := Unpack(bs, e);
    var raw := Raw(t, labels, e);
    forall k | 52 <= k < 56 ensures t[k] == CharField(bs[208 + (k - 52)]) {
      assert t[k] == FieldAt(bs, e, k);
    }
    assert bs[208..212] == [bs[208], bs[209], bs[210], bs[211]];
    assert t[56] == FieldAt(bs, e, 56) && t[57] == FieldAt(bs, e, 57) && t[58] == FieldAt(bs, e, 58);
  }

  /**
   * The single float words sit at offsets 4k as well: the cell lengths at
   * 40..48, the cell angles at 52..60, the density minimum, maximum and mean
   * at 76..84.
   */
  lemma FloatFieldLayout(fileHeader: seq<Byte>)
    requires |fileHeader| >= NumericHeaderBytes && FromFileHeader(fileHeader).Ok?
    ensures
      var bs, e, h := fileHeader[..NumericHeaderBytes], SelectEndian(fileHeader), FromFileHeader(fileHeader).value;
      && h.xlength == WordAt(bs, 40, e) && h.ylength == WordAt(bs, 44, e) && h.zlength == WordAt(bs, 48, e)
      && h.alpha == WordAt(bs, 52, e) && h.beta == WordAt(bs, 56, e) && h.gamma == WordAt(bs, 60, e)
      && h.densityMin == WordAt(bs, 76, e) && h.densityMax == WordAt(bs, 80, e)
      && h.densityMean == WordAt(bs, 84, e)
  {
    var bs, e := fileHeader[..NumericHeaderBytes], SelectEndian(fileHeader);
    var t := Unpack(bs, e);
    var raw := Raw(t, RemoveSpaces(fileHeader[NumericHeaderBytes..]), e);
    DecodedFromRaw(fileHeader);
    WithDerivedKeepsRead(raw);
    assert t[10] == FieldAt(bs, e, 10) && t[11] == FieldAt(bs, e, 11) && t[12] == FieldAt(bs, e, 12);
    assert t[13] == FieldAt(bs, e, 13) && t[14] == FieldAt(bs, e, 14) && t[15] == FieldAt(bs, e, 15);
    assert t[19] == FieldAt(bs, e, 19) && t[20] == FieldAt(bs, e, 20) && t[21] == FieldAt(bs, e, 21);
  }

  /**
   * The word groups: the skew matrix words at 100..135, the skew translation
   * at 136..147, the twelve future-use words at 148..195 and the ORIGIN words
   * at 196..207.
   */
  lemma WordGroupLayout(fileHeader: seq<Byte>)
    requires |fileHeader| >= NumericHeaderBytes && FromFileHeader(fileHeader).Ok?
    ensures
      var bs, e, h := fileHeader[..NumericHeaderBytes], SelectEndian(fileHeader), FromFileHeader(fileHeader).value;
      && (forall j :: 0 <= j < 9 ==> h.skewMat[j] == WordAt(bs, 100 + 4 * j, e))
      && h.skewTrans == [WordAt(bs, 136, e), WordAt(bs, 140, e), WordAt(bs, 144, e)]
      && (forall j :: 0 <= j < 12 ==> h.futureUse[j] == WordAt(bs, 148 + 4 * j, e))
      && h.originEM == [WordAt(bs, 196, e), WordAt(bs, 200, e), WordAt(bs, 204, e)]
  {
    var bs, e := fileHeader[..NumericHeaderBytes], SelectEndian(fileHeader);
    var labels := RemoveSpaces(fileHeader[NumericHeaderBytes..]);
    var raw := Raw(Unpack(bs, e), labels, e);
    DecodedFromRaw(fileHeader);
    WithDerivedKeepsRead(raw);
    RawWordGroups(bs, labels, e);
  }

  /**
   * After the 52 four-byte fields come the four map characters at bytes
   * 208..211, then the machine stamp (int), the rms deviation (float) and the
   * label count (int).
   */
  lemma TrailingFieldLayout(fileHeader: seq<Byte>)
    requires |fileHeader| >= NumericHeaderBytes && FromFileHeader(fileHeader).Ok?
    ensures
      var bs, e, h := fileHeader[..NumericHeaderBytes], SelectEndian(fileHeader), FromFileHeader(fileHeader).value;
      && h.mapChar == bs[208..212]
      && h.machineStamp == Int32(WordAt(bs, 212, e))
      && h.rmsd == WordAt(bs, 216, e)
      && h.nLabel == Int32(WordAt(bs, 220, e))
  {
    var bs, e := fileHeader[..NumericHeaderBytes], SelectEndian(fileHeader);
    var labels := RemoveSpaces(fileHeader[NumericHeaderBytes..]);
    var raw := Raw(Unpack(bs, e), labels, e);
    DecodedFromRaw(fileHeader);
    WithDerivedKeepsRead(raw);
    RawTrailing(bs, labels, e);
  }

  // ---------------------------------------------------------------------------
  // Axis permutations
  // ---------------------------------------------------------------------------

  /** (col2xyz, row2xyz, sec2xyz) is a permutation of (1, 2, 3). */
  predicate IsAxisPermutation(h: Header) {
    && 1 <= h.col2xyz <= 3 && 1 <= h.row2xyz <= 3 && 1 <= h.sec2xyz <= 3
    && h.col2xyz != h.row2xyz && h.col2xyz != h.sec2xyz && h.row2xyz != h.sec2xyz
  }

  /** The permutation fields are usable as list indices (true of every decoded header). */
  predicate AxisMapsOk(h: Header) {
    && 0 <= h.map2xyz.0 < 3 && 0 <= h.map2xyz.1 < 3 && 0 <= h.map2xyz.2 < 3
    && PyIndexOk(h.map2crs.0) && PyIndexOk(h.map2crs.1) && PyIndexOk(h.map2crs.2)
  }

  lemma ConsistentAxisMapsOk(h: Header)
    requires Consistent(h)
    ensures AxisMapsOk(h)
  {
  }

  /**
   * For a permutation, map2xyz and map2crs are mutually inverse permutations
   * of {0, 1, 2}, and the interval count of crs axis i is the xyz interval
   * count of the axis it maps to.
   */
  lemma {:induction false} AxisPermutationsInverse(h: Header, i: nat)
    requires Consistent(h) && IsAxisPermutation(h) && i < 3
    ensures 0 <= h.map2crs.At(i) < 3 && 0 <= h.map2xyz.At(i) < 3
    ensures h.map2xyz.At(h.map2crs.At(i)) == i
    ensures h.map2crs.At(h.map2xyz.At(i)) == i
    ensures h.crsInterval.At(i) == h.xyzInterval.At(h.map2crs.At(i))
  {
    var m := Map2Xyz(h.col2xyz, h.row2xyz, h.sec2xyz);
    assert h.map2xyz == m;
    assert m.At(h.col2xyz - 1) == 0 && m.At(h.row2xyz - 1) == 1 && m.At(h.sec2xyz - 1) == 2;
  }

  /** map2xyz and map2crs are mutually inverse permutations of {0, 1, 2}. */
  predicate InversePermutations(h: Header) {
    forall i :: 0 <= i < 3 ==>
      && 0 <= h.map2crs.At(i) < 3 && 0 <= h.map2xyz.At(i) < 3
      && h.map2xyz.At(h.map2crs.At(i)) == i && h.map2crs.At(h.map2xyz.At(i)) == i
  }

  lemma PermutationHeaderInverse(h: Header)
    requires Consistent(h) && IsAxisPermutation(h)
    ensures InversePermutations(h)
  {
    forall i | 0 <= i < 3
      ensures 0 <= h.map2crs.At(i) < 3 && 0 <= h.map2xyz.At(i) < 3
      ensures h.map2xyz.At(h.map2crs.At(i)) == i && h.map2crs.At(h.map2xyz.At(i)) == i
    {
      AxisPermutationsInverse(h, i);
    }
  }

  /** The unique extent of each axis is the smaller of its extent and its interval count. */
  lemma UniqueNcrsIsMin(h: Header, i: nat)
    requires Consistent(h) && i < 3
    ensures h.uniqueNcrs.At(i) == if h.crsInterval.At(i) < h.ncrs.At(i) then h.crsInterval.At(i) else h.ncrs.At(i)
    ensures h.uniqueNcrs.At(i) <= h.ncrs.At(i) && h.uniqueNcrs.At(i) <= h.crsInterval.At(i)
  {
  }

  // ---------------------------------------------------------------------------
  // validCRS: periodic wrap of a grid coordinate
  // ---------------------------------------------------------------------------

  /** `0 <= v[i] < n[i]` on every axis. */
  predicate InGrid(n: Int3, v: Int3) {
    0 <= v.0 < n.0 && 0 <= v.1 < n.1 && 0 <= v.2 < n.2
  }

  /** Python's `floor(a / b)` for integers. */
  function FloorDiv(a: int, b: int): (q: int)
    requires b != 0
    ensures b > 0 ==> q * b <= a < q * b + b
    ensures b < 0 ==> q * b + b < a <= q * b
  {
    if b > 0 then a / b else (-a) / (-b)
  }

  /** One axis of validCRS: a coordinate outside [0, n) is moved by whole intervals. */
  function WrapAxis(c: int, n: int, interval: int): (w: int)
    requires interval != 0
    ensures 0 <= c < n ==> w == c
    ensures (c < 0 || c >= n) && interval > 0 ==> w == c % interval && 0 <= w < interval
  {
    if c < 0 || c >= n then c - FloorDiv(c, interval) * interval else c
  }

  /** What validCRS leaves in its argument, and what it returns. */
  datatype Checked = Checked(crs: Int3, valid: bool)

  /** After wrapping, axis `i` lands in [ncrs, interval): no density is stored there. */
  predicate Bad(h: Header, c: Int3, i: nat)
    requires IntervalsNonZero(h) && i < 3
  {
    var w := WrapAxis(c.At(i), h.ncrs.At(i), h.crsInterval.At(i));
    h.ncrs.At(i) <= w < h.crsInterval.At(i)
  }

  /** validCRS from axis `ind` on, returning at the first bad axis. */
  function ValidCrsFrom(h: Header, c: Int3, ind: nat): Checked
    requires IntervalsNonZero(h) && ind <= 3
    decreases 3 - ind
  {
    if ind == 3 then Checked(c, true)
    else
      var c' := c.With(ind, WrapAxis(c.At(ind), h.ncrs.At(ind), h.crsInterval.At(ind)));
      if h.ncrs.At(ind) <= c'.At(ind) < h.crsInterval.At(ind) then Checked(c', false)
      else ValidCrsFrom(h, c', ind + 1)
  }

  function ValidCrsSpec(h: Header, c: Int3): Checked
    requires IntervalsNonZero(h)
  {
    ValidCrsFrom(h, c, 0)
  }

  /**
   * validCRS exactly: the answer is true iff no axis is bad; every axis up to
   * and including the first bad one is wrapped, the axes after it are left
   * as they were.
   */
  lemma {:induction false} ValidCrsCharacterized(h: Header, c: Int3)
    requires IntervalsNonZero(h)
    ensures var r := ValidCrsSpec(h, c);
      && (r.valid <==> !Bad(h, c, 0) && !Bad(h, c, 1) && !Bad(h, c, 2))
      && r.crs.0 == WrapAxis(c.0, h.ncrs.0, h.crsInterval.0)
      && r.crs.1 == (if Bad(h, c, 0) then c.1 else WrapAxis(c.1, h.ncrs.1, h.crsInterval.1))
      && r.crs.2 == (if Bad(h, c, 0) || Bad(h, c, 1) then c.2 else WrapAxis(c.2, h.ncrs.2, h.crsInterval.2))
  {
    var c1 := c.With(0, WrapAxis(c.0, h.ncrs.0, h.crsInterval.0));
    var c2 := c1.With(1, WrapAxis(c.1, h.ncrs.1, h.crsInterval.1));
    var c3 := c2.With(2, WrapAxis(c.2, h.ncrs.2, h.crsInterval.2));
    assert ValidCrsFrom(h, c, 0) == if Bad(h, c, 0) then Checked(c1, false) else ValidCrsFrom(h, c1, 1);
    assert ValidCrsFrom(h, c1, 1) == if Bad(h, c, 1) then Checked(c2, false) else ValidCrsFrom(h, c2, 2);
    assert ValidCrsFrom(h, c2, 2) == if Bad(h, c, 2) then Checked(c3, false) else ValidCrsFrom(h, c3, 3);
  }

  /** An axis already in [0, ncrs) is left unchanged. */
  lemma ValidCrsKeepsInRange(h: Header, c: Int3, i: nat)
    requires IntervalsNonZero(h) && i < 3 && 0 <= c.At(i) < h.ncrs.At(i)
    ensures ValidCrsSpec(h, c).crs.At(i) == c.At(i)
  {
    ValidCrsCharacterized(h, c);
  }

  /**
   * With positive intervals, an axis that validCRS rewrites becomes its value
   * modulo the interval count, which lies in [0, interval).
   */
  lemma ValidCrsWrapsModInterval(h: Header, c: Int3, i: nat)
    requires IntervalsNonZero(h) && i < 3 && h.crsInterval.At(i) > 0
    requires ValidCrsSpec(h, c).crs.At(i) != c.At(i)
    ensures 0 <= ValidCrsSpec(h, c).crs.At(i) < h.crsInterval.At(i)
    ensures ValidCrsSpec(h, c).crs.At(i) == c.At(i) % h.crsInterval.At(i)
  {
    ValidCrsCharacterized(h, c);
  }

  /** With positive intervals, a true answer leaves a coordinate inside the grid. */
  lemma ValidCrsTrueInGrid(h: Header, c: Int3)
    requires IntervalsNonZero(h) && h.crsInterval.0 > 0 && h.crsInterval.1 > 0 && h.crsInterval.2 > 0
    requires ValidCrsSpec(h, c).valid
    ensures InGrid(h.ncrs, ValidCrsSpec(h, c).crs)
  {
    ValidCrsCharacterized(h, c);
  }

  /** DensityHeader.validCRS: wraps the three-element list in place, axis by axis. */
  method ValidCrs(h: Header, crsCoord: array<int>) returns (valid: bool)
    requires crsCoord.Length == 3 && IntervalsNonZero(h)
    modifies crsCoord
    ensures ValidCrsSpec(h, Int3(old(crsCoord[0]), old(crsCoord[1]), old(crsCoord[2])))
            == Checked(Int3(crsCoord[0], crsCoord[1], crsCoord[2]), valid)
  {
    ghost var start := Int3(crsCoord[0], crsCoord[1], crsCoord[2]);
    for ind := 0 to 3
      invariant ValidCrsFrom(h, Int3(crsCoord[0], crsCoord[1], crsCoord[2]), ind) == ValidCrsFrom(h, start, 0)
    {
      ghost var before := Int3(crsCoord[0], crsCoord[1], crsCoord[2]);
      if crsCoord[ind] < 0 || crsCoord[ind] >= h.ncrs.At(ind) {
        crsCoord[ind] := crsCoord[ind] - FloorDiv(crsCoord[ind], h.crsInterval.At(ind)) * h.crsInterval.At(ind);
      }
      assert Int3(crsCoord[0], crsCoord[1], crsCoord[2])
          == before.With(ind, WrapAxis(before.At(ind), h.ncrs.At(ind), h.crsInterval.At(ind)));
      if h.ncrs.At(ind) <= crsCoord[ind] < h.crsInterval.At(ind) {
        return false;
      }
    }
    return true;
  }

  // ---------------------------------------------------------------------------
  // Orthogonal coordinate transforms (all cell angles 90 degrees)
  // ---------------------------------------------------------------------------

  /** `alpha == beta == gamma == 90`, decided on the raw float words. */
  predicate IsOrthogonal(h: Header) {
    h.alpha == Ninety && h.beta == Ninety && h.gamma == Ninety
  }

  predicate NonZeroSpacing(gridLength: Vec3) {
    gridLength.0 != 0.0 && gridLength.1 != 0.0 && gridLength.2 != 0.0
  }

  /** crs2xyzCoord, orthogonal branch: xyz[i] = crs[map2xyz[i]] * gridLength[i] + origin[i]. */
  function Crs2XyzOrthogonal(h: Header, gridLength: Vec3, origin: Vec3, crs: Int3): (xyz: Vec3)
    requires IsOrthogonal(h) && AxisMapsOk(h)
    ensures forall i :: 0 <= i < 3 ==> xyz.At(i) == crs.At(h.map2xyz.At(i)) as real * gridLength.At(i) + origin.At(i)
  {
    Vec3(crs.At(h.map2xyz.0) as real * gridLength.0 + origin.0,
         crs.At(h.map2xyz.1) as real * gridLength.1 + origin.1,
         crs.At(h.map2xyz.2) as real * gridLength.2 + origin.2)
  }

  /**
   * xyz2crsCoord, orthogonal branch: the grid position along each xyz axis,
   * rounded by `round`, then permuted back with map2crs.
   */
  function Xyz2CrsOrthogonal(h: Header, gridLength: Vec3, origin: Vec3, round: real -> int, xyz: Vec3): (crs: Int3)
    requires IsOrthogonal(h) && AxisMapsOk(h) && NonZeroSpacing(gridLength)
  {
    var gridPos := Int3(round((xyz.0 - origin.0) / gridLength.0),
                        round((xyz.1 - origin.1) / gridLength.1),
                        round((xyz.2 - origin.2) / gridLength.2));
    Int3(gridPos.At(PyIndex(h.map2crs.0)), gridPos.At(PyIndex(h.map2crs.1)), gridPos.At(PyIndex(h.map2crs.2)))
  }

  /** Exact real arithmetic undoes one axis of the transform, and rounding keeps the integer. */
  lemma AxisRoundTrip(round: real -> int, c: int, g: real, o: real, xyz: real)
    requires g != 0.0 && xyz == c as real * g + o
    requires forall x: real :: x.Floor as real == x ==> round(x) == x.Floor
    ensures round((xyz - o) / g) == c
  {
    assert xyz - o == c as real * g;
    assert (c as real * g) / g == c as real;
    assert (c as real).Floor == c;
  }

  /**
   * For an orthogonal cell whose axis maps are mutually inverse (as they are
   * for every permutation, PermutationHeaderInverse), converting a grid
   * coordinate to xyz and back gives the same grid coordinate, when `round`
   * is the identity on integers.
   */
  lemma {:induction false} OrthogonalRoundTrip(h: Header, gridLength: Vec3, origin: Vec3, round: real -> int, crs: Int3)
    requires IsOrthogonal(h) && InversePermutations(h) && NonZeroSpacing(gridLength)
    requires forall x: real :: x.Floor as real == x ==> round(x) == x.Floor
    ensures AxisMapsOk(h)
    ensures Xyz2CrsOrthogonal(h, gridLength, origin, round, Crs2XyzOrthogonal(h, gridLength, origin, crs)) == crs
  {
    assert AxisMapsOk(h) by {
      assert 0 <= h.map2crs.At(0) < 3 && 0 <= h.map2crs.At(1) < 3 && 0 <= h.map2crs.At(2) < 3;
      assert 0 <= h.map2xyz.At(0) < 3 && 0 <= h.map2xyz.At(1) < 3 && 0 <= h.map2xyz.At(2) < 3;
    }
    var xyz := Crs2XyzOrthogonal(h, gridLength, origin, crs);
    assert xyz.0 == xyz.At(0) && xyz.1 == xyz.At(1) && xyz.2 == xyz.At(2);
    AxisRoundTrip(round, crs.At(h.map2xyz.0), gridLength.0, origin.0, xyz.0);
    AxisRoundTrip(round, crs.At(h.map2xyz.1), gridLength.1, origin.1, xyz.1);
    AxisRoundTrip(round, crs.At(h.map2xyz.2), gridLength.2, origin.2, xyz.2);
    var gridPos := Int3(round((xyz.0 - origin.0) / gridLength.0),
                        round((xyz.1 - origin.1) / gridLength.1),
                        round((xyz.2 - origin.2) / gridLength.2));
    assert gridPos == Int3(crs.At(h.map2xyz.0), crs.At(h.map2xyz.1), crs.At(h.map2xyz.2));
    forall i | 0 <= i < 3
      ensures gridPos.At(PyIndex(h.map2crs.At(i))) == crs.At(i)
    {
      assert PyIndex(h.map2crs.At(i)) == h.map2crs.At(i);
      assert h.map2xyz.At(h.map2crs.At(i)) == i;
    }
    assert gridPos.At(PyIndex(h.map2crs.At(0))) == crs.0;
    assert gridPos.At(PyIndex(h.map2crs.At(1))) == crs.1;
    assert gridPos.At(PyIndex(h.map2crs.At(2))) == crs.2;
  }
}
