/**
 The format of a firmware file, and what tools/lib/carlfw.c makes of one: the firmware, its
 descriptors, and the LAST descriptor.
 */
module FwImage {
  import opened Checksum

  type Bytes = seq<bv8>

  datatype Result<T> = Ok(value: T) | Err(error: Error)

  /** Unspecified: the code reads behind the end of the file or a variable that was never set. */
  datatype Error = NoData | Invalid | TooBig | NotWritten | Unspecified

  datatype Image = Image(data: Bytes, descs: seq<Bytes>)

  const HEAD_SIZE := 8
  const MAX_LENGTH := 8192

  const OTUS: Bytes := [0x4f, 0x54, 0x41, 0x52]
  const LAST: Bytes := [0x4c, 0x41, 0x53, 0x54]
  const CHK: Bytes := [0x43, 0x48, 0x4b, 0x00]

  const OTUS_SIZE := 32
  const LAST_SIZE := 8
  const CHK_SIZE := 16
  const OTUS_CUR_VER: bv8 := 7
  const LAST_CUR_VER: bv8 := 2
  const CHK_CUR_VER: bv8 := 2

  // ----- descriptors -----

  /** The length field, which stores its low byte first. */
  function Length(d: Bytes): nat
    requires |d| >= HEAD_SIZE
  {
    (d[4] as nat) + 256 * (d[5] as nat)
  }

  lemma SameLength(d: Bytes, e: Bytes)
    requires |d| >= HEAD_SIZE && |e| >= HEAD_SIZE && d[4] == e[4] && d[5] == e[5]
    ensures Length(d) == Length(e)
  {}

  predicate Supports(d: Bytes, revision: bv8)
    requires |d| >= HEAD_SIZE
  {
    d[7] >= revision && d[6] <= revision
  }

  /** carl9170fw_desc_cmp */
  predicate Matches(d: Bytes, id: Bytes, minLen: nat, revision: bv8)
    requires |id| == 4
  {
    |d| >= HEAD_SIZE && d[..4] == id && Supports(d, revision) && Length(d) >= minLen
  }

  /** An entry holds as many bytes as its length field says. */
  predicate IsDesc(d: Bytes) {
    |d| >= HEAD_SIZE && Length(d) == |d|
  }

  predicate AllDescs(ds: seq<Bytes>) {
    forall d :: d in ds ==> IsDesc(d)
  }

  predicate IsChk(d: Bytes)
    requires IsDesc(d)
  {
    Matches(d, CHK, CHK_SIZE, CHK_CUR_VER)
  }

  /** The position of the first checksum descriptor, or the number of all descriptors. */
  function FindChk(ds: seq<Bytes>): (i: nat)
    requires AllDescs(ds)
    ensures i <= |ds|
    ensures i < |ds| ==> IsChk(ds[i])
    ensures forall k :: 0 <= k < i ==> !IsChk(ds[k])
  {
    if ds == [] || IsChk(ds[0]) then 0 else 1 + FindChk(ds[1..])
  }

  predicate NoChk(ds: seq<Bytes>)
    requires AllDescs(ds)
  {
    forall d :: d in ds ==> !IsChk(d)
  }

  function Flat(ds: seq<Bytes>): Bytes {
    if ds == [] then [] else ds[0] + Flat(ds[1..])
  }

  /** What the descriptor checksum is taken over. */
  function Payload(ds: seq<Bytes>): Bytes
    requires AllDescs(ds)
  {
    if ds == [] then [] else (if IsChk(ds[0]) then [] else ds[0]) + Payload(ds[1..])
  }

  // ----- storing -----

  function Le32(c: bv32): (b: Bytes)
    ensures |b| == 4
  {
    [(c & 0xff) as bv8, ((c >> 8) & 0xff) as bv8, ((c >> 16) & 0xff) as bv8, ((c >> 24) & 0xff) as bv8]
  }

  function FromLe32(b: Bytes): bv32
    requires |b| == 4
  {
    (b[0] as bv32) | ((b[1] as bv32) << 8) | ((b[2] as bv32) << 16) | ((b[3] as bv32) << 24)
  }

  lemma Le32Back(c: bv32)
    ensures FromLe32(Le32(c)) == c
  {}

  function ChkDesc(fw: bv32, header: bv32): Bytes {
    CHK + [16, 0, 1, 2] + Le32(fw) + Le32(header)
  }

  function LastDesc(): Bytes {
    LAST + [8, 0, 1, 2]
  }

  function WithoutChk(ds: seq<Bytes>): seq<Bytes>
    requires AllDescs(ds)
  {
    var i := FindChk(ds);
    if i < |ds| then ds[..i] + ds[i + 1..] else ds
  }

  /** carlfw_apply_checksums: the checksum of the firmware is the seed of that of the descriptors. */
  function FreshChk(data: Bytes, ds: seq<Bytes>): Bytes {
    var fw := Crc(SEED, data);
    ChkDesc(fw, Crc(fw, Flat(ds)))
  }

  function Applied(img: Image): Image
    requires AllDescs(img.descs)
  {
    var rest := WithoutChk(img.descs);
    Image(img.data, rest + [FreshChk(img.data, rest)])
  }

  function FileOf(img: Image): Bytes {
    img.data + Flat(img.descs) + LastDesc()
  }

  function Store(img: Image): Result<Bytes>
    requires AllDescs(img.descs)
  {
    var full := Applied(img);
    if img.data == [] then Err(NotWritten)
    else if exists d :: d in full.descs && |d| > MAX_LENGTH then Err(TooBig)
    else Ok(FileOf(full))
  }

  // ----- loading -----

  /** The backward scan. A byte that does not continue a match is not looked at again as a possible end. */
  function Scan(file: Bytes, id: Bytes, scan: int, found: nat): (r: int)
    requires |id| == 4 && found < 4 && scan < |file|
    ensures r == -1 || 0 < r <= scan + found - 3
    decreases scan
  {
    if scan <= 0 then -1
    else if file[scan] != id[3 - found] then Scan(file, id, scan - 1, 0)
    else if found == 3 then scan
    else Scan(file, id, scan - 1, found + 1)
  }

  function FindDesc(file: Bytes, id: Bytes, minLen: nat, revision: bv8): (r: int)
    requires |id| == 4
    ensures r == -1 || 0 <= r <= |file| - HEAD_SIZE
  {
    var p := Scan(file, id, |file| - 5, 0);
    if p < 0 then -1
    else if Supports(file[p..], revision) && p + Length(file[p..]) <= |file| && Length(file[p..]) >= minLen then p
    else -1
  }

  /** carlfw_parse_descs */
  function Parse(file: Bytes, p: nat): Result<seq<Bytes>>
    requires p <= |file|
    decreases |file| - p
  {
    if p + HEAD_SIZE > |file| then Err(Unspecified)
    else
      var n := Length(file[p..]);
      if file[p..p + 4] == LAST || n < HEAD_SIZE || n >= MAX_LENGTH then Ok([])
      else if p + n > |file| then Err(Unspecified)
      else match Parse(file, p + n)
        case Ok(ds) => Ok([file[p..p + n]] + ds)
        case Err(e) => Err(e)
  }

  lemma ChkSize(d: Bytes)
    requires IsDesc(d) && IsChk(d)
    ensures |d| >= CHK_SIZE
  {}

  function FwSum(chk: Bytes): bv32
    requires |chk| >= CHK_SIZE
  {
    FromLe32(chk[8..12])
  }

  function HeaderSum(chk: Bytes): bv32
    requires |chk| >= CHK_SIZE
  {
    FromLe32(chk[12..16])
  }

  datatype Verdict = Absent | Good | Bad

  /** carlfw_check_crc32s */
  function Check(img: Image): Verdict
    requires AllDescs(img.descs)
  {
    var i := FindChk(img.descs);
    if i == |img.descs| then Absent
    else
      ChkSize(img.descs[i]);
      var fw := Crc(SEED, img.data);
      if fw == FwSum(img.descs[i]) && Crc(fw, Payload(img.descs)) == HeaderSum(img.descs[i]) then Good else Bad
  }

  lemma {:induction false} ParsedDescs(file: Bytes, p: nat)
    requires p <= |file|
    ensures Parse(file, p).Ok? ==> AllDescs(Parse(file, p).value)
    decreases |file| - p
  {
    if p + HEAD_SIZE <= |file| {
      var n := Length(file[p..]);
      if HEAD_SIZE <= n && p + n <= |file| {
        hide Length;
        ParsedDescs(file, p + n);
        SameLength(file[p..], file[p..p + n]);
      }
    }
  }

  function Load(file: Bytes): Result<Image> {
    var otus := FindDesc(file, OTUS, OTUS_SIZE, OTUS_CUR_VER);
    var last := FindDesc(file, LAST, LAST_SIZE, LAST_CUR_VER);
    if otus < 0 || last < 0 || otus > last then Err(NoData)
    else
      match Parse(file, otus)
      case Err(e) => Err(e)
      case Ok(ds) =>
        ParsedDescs(file, otus);
        if ds == [] then Err(Unspecified)
        else
          var img := Image(file[..otus] + file[last + LAST_SIZE..], ds);
          if Check(img) == Bad then Err(Invalid) else Ok(img)
  }
}
