/** What carlfw_load makes of a file that carlfw_store wrote. */
module FwRoundTrip {
  import opened Checksum
  import opened FwImage

  const LETTER_R: bv8 := 0x52

  // ----- the scan for a descriptor -----

  predicate Occurs(file: Bytes, id: Bytes, r: int)
    requires |id| == 4
  {
    0 <= r <= |file| - 4 && file[r..r + 4] == id
  }

  /** The end of the magic number has been seen in front of the current position. */
  predicate Seen(file: Bytes, id: Bytes, scan: int, found: nat)
    requires |id| == 4
  {
    found < 4 && -1 <= scan && scan + 1 + found <= |file| && file[scan + 1..scan + 1 + found] == id[4 - found..]
  }

  lemma SeenMore(file: Bytes, id: Bytes, scan: int, found: nat)
    requires |id| == 4 && Seen(file, id, scan, found) && 0 <= scan && file[scan] == id[3 - found]
    ensures if found == 3 then Occurs(file, id, scan) else Seen(file, id, scan - 1, found + 1)
  {
    assert file[scan..scan + 1 + found] == [file[scan]] + file[scan + 1..scan + 1 + found];
    assert id[3 - found..] == [id[3 - found]] + id[4 - found..];
    assert id[0..] == id;
  }

  lemma {:induction false} ScanOccurs(file: Bytes, id: Bytes, scan: int, found: nat)
    requires |id| == 4 && scan < |file| && found < 4 && Seen(file, id, scan, found)
    ensures Scan(file, id, scan, found) >= 0 ==> Occurs(file, id, Scan(file, id, scan, found))
    decreases scan
  {
    hide Occurs, Seen;
    if scan > 0 {
      if file[scan] != id[3 - found] {
        SeenNothing(file, id, scan - 1);
        ScanOccurs(file, id, scan - 1, 0);
      } else {
        SeenMore(file, id, scan, found);
        if found < 3 {
          ScanOccurs(file, id, scan - 1, found + 1);
        }
      }
    }
  }

  lemma SeenNothing(file: Bytes, id: Bytes, scan: int)
    requires |id| == 4 && -1 <= scan < |file|
    ensures Seen(file, id, scan, 0)
  {
    assert file[scan + 1..scan + 1] == id[4..];
  }

  lemma SeenByte(file: Bytes, id: Bytes, scan: int, found: nat)
    requires |id| == 4 && Seen(file, id, scan, found) && found > 0
    ensures file[scan + 1] == id[4 - found]
  {
    assert file[scan + 1..scan + 1 + found][0] == id[4 - found..][0];
  }

  /** A scan that finds nothing above `q` gets there. */
  lemma {:induction false} ScanReaches(file: Bytes, id: Bytes, scan: int, found: nat, q: nat) returns (f: nat)
    requires |id| == 4 && q <= scan < |file| && found < 4 && Seen(file, id, scan, found)
    requires Scan(file, id, scan, found) <= q
    ensures f < 4 && Seen(file, id, q, f) && Scan(file, id, scan, found) == Scan(file, id, q, f)
    decreases scan
  {
    hide Occurs, Seen;
    if scan == q {
      f := found;
    } else if file[scan] != id[3 - found] {
      SeenNothing(file, id, scan - 1);
      f := ScanReaches(file, id, scan - 1, 0, q);
    } else {
      SeenMore(file, id, scan, found);
      f := ScanReaches(file, id, scan - 1, found + 1, q);
    }
  }

  lemma ScanHits(file: Bytes, id: Bytes, p: nat)
    requires |id| == 4 && 0 < p && Occurs(file, id, p)
    ensures Scan(file, id, p + 3, 0) == p
  {
    var s := file[p..p + 4];
    assert s[0] == file[p] && s[1] == file[p + 1] && s[2] == file[p + 2] && s[3] == file[p + 3];
    assert Scan(file, id, p + 3, 0) == Scan(file, id, p + 2, 1);
    assert Scan(file, id, p + 2, 1) == Scan(file, id, p + 1, 2);
    assert Scan(file, id, p + 1, 2) == Scan(file, id, p, 3);
  }

  /** A byte R behind the magic number OTAR starts a match that the R of OTAR breaks. */
  lemma ScanMisses(file: Bytes, p: nat)
    requires 0 < p && p + 4 < |file| && Occurs(file, OTUS, p) && file[p + 4] == LETTER_R
    ensures Scan(file, OTUS, p + 4, 0) != p
  {
    var s := file[p..p + 4];
    assert s[0] == file[p] && s[1] == file[p + 1] && s[2] == file[p + 2] && s[3] == file[p + 3];
    assert Scan(file, OTUS, p + 4, 0) == Scan(file, OTUS, p + 3, 1);
    assert Scan(file, OTUS, p + 3, 1) == Scan(file, OTUS, p + 2, 0);
    assert Scan(file, OTUS, p + 2, 0) == Scan(file, OTUS, p + 1, 0);
  }

  /** A scan that gets as far as the magic number finds it exactly when no R follows it. */
  lemma ScanThere(file: Bytes, p: nat)
    requires 0 < p && p + 16 <= |file| && Occurs(file, OTUS, p) && (file[p + 5] as nat) <= 0x20
    requires Scan(file, OTUS, |file| - 5, 0) <= p
    ensures Scan(file, OTUS, |file| - 5, 0) == p <==> file[p + 4] != LETTER_R
  {
    hide Occurs, Seen;
    SeenNothing(file, OTUS, |file| - 5);
    var f := ScanReaches(file, OTUS, |file| - 5, 0, p + 4);
    if f > 0 {
      SeenByte(file, OTUS, p + 4, f);
      assert false;
    }
    if file[p + 4] == LETTER_R {
      ScanMisses(file, p);
    } else {
      ScanHits(file, OTUS, p);
    }
  }

  ghost predicate OnlyAt(file: Bytes, id: Bytes, p: nat)
    requires |id| == 4
  {
    forall r :: p < r ==> !Occurs(file, id, r)
  }

  /** The last OTAR of a file is found exactly when no R follows it. */
  lemma LastOccurrence(file: Bytes, p: nat)
    requires 0 < p && p + 16 <= |file| && OnlyAt(file, OTUS, p) && (file[p + 5] as nat) <= 0x20
    ensures Scan(file, OTUS, |file| - 5, 0) == p <==> Occurs(file, OTUS, p) && file[p + 4] != LETTER_R
  {
    hide Scan, Occurs;
    SeenNothing(file, OTUS, |file| - 5);
    ScanOccurs(file, OTUS, |file| - 5, 0);
    if Occurs(file, OTUS, p) {
      ScanThere(file, p);
    }
  }

  lemma NotHit(file: Bytes, p: nat)
    requires 0 < p && p + 16 <= |file| && (file[p + 5] as nat) <= 0x20 && file[p + 4] == LETTER_R
    ensures FindDesc(file, OTUS, OTUS_SIZE, OTUS_CUR_VER) != p
  {
    hide Scan, Occurs, Length, Supports;
    SeenNothing(file, OTUS, |file| - 5);
    ScanOccurs(file, OTUS, |file| - 5, 0);
    if Scan(file, OTUS, |file| - 5, 0) == p {
      ScanThere(file, p);
    }
  }

  // ----- the parts of a file -----

  lemma FindsLast(pre: Bytes)
    requires pre != []
    ensures FindDesc(pre + LastDesc(), LAST, LAST_SIZE, LAST_CUR_VER) == |pre|
  {
    var file := pre + LastDesc();
    assert file[|pre|..] == LastDesc();
    assert file[|pre|..|pre| + 4] == LAST;
    ScanHits(file, LAST, |pre|);
  }

  /** Where a file is parsed to its end. */
  predicate Readable(d: Bytes) {
    |d| >= 4 && d[..4] != LAST && |d| < MAX_LENGTH
  }

  function ReadablePart(ds: seq<Bytes>): seq<Bytes> {
    if ds == [] || !Readable(ds[0]) then [] else [ds[0]] + ReadablePart(ds[1..])
  }

  lemma {:induction false} AllReadable(ds: seq<Bytes>)
    ensures ReadablePart(ds) == ds <==> forall d :: d in ds ==> Readable(d)
    ensures |ReadablePart(ds)| <= |ds|
  {
    hide Readable;
    if ds != [] {
      AllReadable(ds[1..]);
      assert ds == [ds[0]] + ds[1..];
      if Readable(ds[0]) && ReadablePart(ds) == ds {
        assert ReadablePart(ds)[1..] == ReadablePart(ds[1..]);
      }
    }
  }

  lemma Slices(pre: Bytes, d: Bytes, post: Bytes)
    requires |d| >= HEAD_SIZE
    ensures var file := pre + d + post;
            file[|pre|..|pre| + |d|] == d && file[|pre|..|pre| + 4] == d[..4] && Length(file[|pre|..]) == Length(d)
  {
    var file := pre + d + post;
    assert file[|pre|..][4] == d[4] && file[|pre|..][5] == d[5];
  }

  lemma ParseStep(pre: Bytes, d: Bytes, rest: Bytes)
    requires IsDesc(d)
    ensures var file := pre + d + rest;
            Parse(file, |pre|) ==
            if !Readable(d) then Ok([])
            else match Parse(file, |pre| + |d|)
                 case Ok(ds) => Ok([d] + ds)
                 case Err(e) => Err(e)
  {
    hide Length;
    Slices(pre, d, rest);
  }

  lemma {:induction false} ParseStored(pre: Bytes, ds: seq<Bytes>)
    requires AllDescs(ds)
    ensures Parse(pre + Flat(ds) + LastDesc(), |pre|) == Ok(ReadablePart(ds))
    decreases |ds|
  {
    hide Length, Readable, IsDesc;
    var file := pre + Flat(ds) + LastDesc();
    if ds == [] {
      assert file == pre + LastDesc() + [];
      Slices(pre, LastDesc(), []);
    } else {
      var rest := Flat(ds[1..]) + LastDesc();
      assert ds[0] in ds && IsDesc(ds[0]);
      assert file == pre + ds[0] + rest;
      assert file == (pre + ds[0]) + Flat(ds[1..]) + LastDesc();
      ParseStep(pre, ds[0], rest);
      ParseStored(pre + ds[0], ds[1..]);
    }
  }

  // ----- loading -----

  /** A first descriptor that is found. */
  predicate Header(d: Bytes) {
    IsDesc(d) && Matches(d, OTUS, OTUS_SIZE, OTUS_CUR_VER) && d[4] != LETTER_R
  }

  lemma HighByte(d: Bytes)
    requires |d| >= HEAD_SIZE && Length(d) <= MAX_LENGTH
    ensures (d[5] as nat) <= 0x20
  {}

  lemma HeadBytes(img: Image)
    requires AllDescs(img.descs) && img.descs != []
    ensures var (file, d, n) := (FileOf(img), img.descs[0], |img.data|);
            && |d| >= HEAD_SIZE && |file| >= n + |d| + LAST_SIZE
            && file[n..n + 4] == d[..4] && Length(file[n..]) == Length(d)
            && (forall k :: 0 <= k < |d| ==> file[n + k] == d[k])
            && Supports(file[n..], OTUS_CUR_VER) == Supports(d, OTUS_CUR_VER)
  {
    hide Length;
    var d := img.descs[0];
    assert d in img.descs && IsDesc(d);
    assert FileOf(img) == img.data + d + (Flat(img.descs[1..]) + LastDesc());
    Slices(img.data, d, Flat(img.descs[1..]) + LastDesc());
  }

  /** The header is found at the end of the firmware exactly when it is a header to look for. */
  lemma FindsHeader(img: Image)
    requires AllDescs(img.descs) && img.data != [] && OnlyAt(FileOf(img), OTUS, |img.data|)
    requires img.descs != [] && |img.descs[0]| <= MAX_LENGTH
    ensures FindDesc(FileOf(img), OTUS, OTUS_SIZE, OTUS_CUR_VER) == |img.data| <==> Header(img.descs[0])
  {
    hide Length, Scan;
    var file, d, n := FileOf(img), img.descs[0], |img.data|;
    assert d in img.descs && IsDesc(d);
    HeadBytes(img);
    HighByte(d);
    assert file[n + 4] == d[4] && file[n + 5] == d[5];
    assert Occurs(file, OTUS, n) <==> d[..4] == OTUS;
    LastOccurrence(file, n);
  }

  /** A file in the form of a stored one is loaded completely, unless its checksums are wrong. */
  lemma LoadStored(img: Image)
    requires AllDescs(img.descs) && img.data != [] && OnlyAt(FileOf(img), OTUS, |img.data|)
    requires img.descs != [] && Header(img.descs[0]) && forall d :: d in img.descs ==> Readable(d)
    ensures Load(FileOf(img)) == if Check(img) == Bad then Err(Invalid) else Ok(img)
  {
    hide Length, FindDesc, Parse, Check, OnlyAt, Matches, Supports;
    var file := FileOf(img);
    var pre := img.data + Flat(img.descs);
    assert img.descs[0] in img.descs && Readable(img.descs[0]);
    FindsHeader(img);
    FindsLast(pre);
    ParseStored(img.data, img.descs);
    AllReadable(img.descs);
    assert file[..|img.data|] == img.data && file[|pre| + LAST_SIZE..] == [];
    assert file[..|img.data|] + file[|pre| + LAST_SIZE..] == img.data;
  }

  // ----- the checksums -----

  lemma {:induction false} FlatAppend(ds: seq<Bytes>, d: Bytes)
    ensures Flat(ds + [d]) == Flat(ds) + d
  {
    if ds != [] {
      FlatAppend(ds[1..], d);
      assert (ds + [d])[1..] == ds[1..] + [d];
      assert ds[0] + (Flat(ds[1..]) + d) == (ds[0] + Flat(ds[1..])) + d;
    } else {
      assert ([d])[1..] == [];
    }
  }

  lemma {:induction false} ChkBehind(ds: seq<Bytes>, chk: Bytes)
    requires AllDescs(ds) && NoChk(ds) && IsDesc(chk) && IsChk(chk)
    ensures AllDescs(ds + [chk]) && FindChk(ds + [chk]) == |ds| && Payload(ds + [chk]) == Flat(ds)
  {
    hide IsDesc, IsChk;
    if ds != [] {
      ChkBehind(ds[1..], chk);
      assert (ds + [chk])[1..] == ds[1..] + [chk];
    } else {
      assert ([chk])[1..] == [];
    }
  }

  lemma ChkWellFormed(fw: bv32, header: bv32)
    ensures var d := ChkDesc(fw, header);
            IsDesc(d) && IsChk(d) && Readable(d) && d[..4] != OTUS && FwSum(d) == fw && HeaderSum(d) == header
  {
    hide FromLe32, Le32;
    var d := ChkDesc(fw, header);
    assert d[..4] == CHK && d[4] == 16 && d[5] == 0;
    assert d[8..12] == Le32(fw) && d[12..16] == Le32(header);
    Le32Back(fw);
    Le32Back(header);
  }

  /** The checksum of the descriptors is that of the firmware and the descriptors together. */
  lemma HeaderSumOfBoth(data: Bytes, ds: seq<Bytes>)
    ensures |FreshChk(data, ds)| == CHK_SIZE
    ensures FwSum(FreshChk(data, ds)) == Crc(SEED, data)
    ensures HeaderSum(FreshChk(data, ds)) == Crc(SEED, data + Flat(ds))
  {
    hide Crc, FwSum, HeaderSum;
    var fw := Crc(SEED, data);
    ChkWellFormed(fw, Crc(fw, Flat(ds)));
    CrcChain(SEED, data, Flat(ds));
  }

  /** The check passes for exactly the firmware and descriptors that have the stored checksums. */
  lemma CheckExact(img: Image, fw: bv32, header: bv32)
    requires AllDescs(img.descs) && NoChk(img.descs)
    ensures AllDescs(img.descs + [ChkDesc(fw, header)])
    ensures Check(img.(descs := img.descs + [ChkDesc(fw, header)])) ==
            if Crc(SEED, img.data) == fw && Crc(SEED, img.data + Flat(img.descs)) == header then Good else Bad
  {
    hide Crc, FwSum, HeaderSum, IsDesc, IsChk, ChkDesc, Flat, Payload;
    ChkWellFormed(fw, header);
    ChkBehind(img.descs, ChkDesc(fw, header));
    CrcChain(SEED, img.data, Flat(img.descs));
  }

  lemma OneChkGone(ds: seq<Bytes>)
    requires AllDescs(ds)
    ensures AllDescs(WithoutChk(ds))
    ensures NoChk(WithoutChk(ds)) <==> forall i, j :: 0 <= i < j < |ds| ==> !IsChk(ds[i]) || !IsChk(ds[j])
  {
    hide IsDesc, IsChk;
    var i, rest := FindChk(ds), WithoutChk(ds);
    if i < |ds| {
      assert forall k :: i < k < |ds| ==> rest[k - 1] == ds[k];
      assert forall k :: 0 <= k < i ==> rest[k] == ds[k];
      assert forall k :: i <= k < |rest| ==> rest[k] == ds[k + 1];
    }
  }

  // ----- the whole way -----

  predicate AllReadableDescs(ds: seq<Bytes>) {
    forall d :: d in ds ==> Readable(d)
  }

  /** What a caller can see of an image before it is stored. */
  predicate Loadable(img: Image) {
    img.data != [] && img.descs != [] && Header(img.descs[0]) && AllReadableDescs(img.descs)
  }

  ghost predicate ComesBack(img: Image)
    requires AllDescs(img.descs)
  {
    Store(img).Ok? && Load(Store(img).value) == Ok(Applied(img))
  }

  /** The first checksum descriptor that storing leaves in place, if there is one, has the sums that are checked. */
  predicate OldSumsFit(data: Bytes, rest: seq<Bytes>)
    requires AllDescs(rest)
  {
    var i := FindChk(rest);
    i < |rest| ==>
      (ChkSize(rest[i]); FwSum(rest[i]) == Crc(SEED, data) && HeaderSum(rest[i]) == Crc(SEED, data + Payload(rest)))
  }

  /** A checksum descriptor at the end is looked at only if there is no other. */
  lemma {:induction false} ChkAtEnd(ds: seq<Bytes>, chk: Bytes)
    requires AllDescs(ds) && IsDesc(chk) && IsChk(chk)
    ensures AllDescs(ds + [chk]) && FindChk(ds + [chk]) == FindChk(ds) && Payload(ds + [chk]) == Payload(ds)
  {
    hide IsDesc, IsChk;
    if ds != [] {
      ChkAtEnd(ds[1..], chk);
      assert (ds + [chk])[1..] == ds[1..] + [chk];
    } else {
      assert ([chk])[1..] == [];
    }
  }

  lemma {:induction false} PayloadAll(ds: seq<Bytes>)
    requires AllDescs(ds) && FindChk(ds) == |ds|
    ensures Payload(ds) == Flat(ds)
  {
    hide IsDesc, IsChk;
    if ds != [] {
      PayloadAll(ds[1..]);
    }
  }

  /** After storing, the check fails only because of an older checksum descriptor. */
  lemma AppliedCheck(img: Image)
    requires AllDescs(img.descs)
    ensures AllDescs(WithoutChk(img.descs)) && AllDescs(Applied(img).descs)
    ensures Check(Applied(img)) == if OldSumsFit(img.data, WithoutChk(img.descs)) then Good else Bad
  {
    hide Crc, IsDesc, IsChk, FwSum, HeaderSum, ChkDesc, Flat, Payload;
    var rest := WithoutChk(img.descs);
    var fw := Crc(SEED, img.data);
    var chk := FreshChk(img.data, rest);
    OneChkGone(img.descs);
    ChkWellFormed(fw, Crc(fw, Flat(rest)));
    ChkAtEnd(rest, chk);
    CrcChain(SEED, img.data, Payload(rest));
    var i := FindChk(rest);
    if i < |rest| {
      assert (rest + [chk])[i] == rest[i];
    } else {
      PayloadAll(rest);
      assert (rest + [chk])[i] == chk;
    }
  }

  lemma AppliedImage(img: Image)
    requires AllDescs(img.descs) && NoChk(WithoutChk(img.descs))
    ensures AllDescs(Applied(img).descs) && Check(Applied(img)) == Good
  {
    hide Crc, IsDesc, IsChk, Check, Applied, FreshChk;
    AppliedCheck(img);
    NoneFound(WithoutChk(img.descs));
  }

  lemma {:induction false} NoneFound(ds: seq<Bytes>)
    requires AllDescs(ds) && NoChk(ds)
    ensures FindChk(ds) == |ds|
  {
    hide IsDesc, IsChk;
    if ds != [] {
      assert ds[0] in ds;
      NoneFound(ds[1..]);
    }
  }

  lemma SameData(img: Image)
    requires AllDescs(img.descs)
    ensures Applied(img).data == img.data && Applied(img).descs != []
  {}

  /** An image comes back with its firmware and descriptors and one fresh checksum descriptor. */
  lemma RoundTrip(img: Image)
    requires AllDescs(img.descs) && AllDescs(WithoutChk(img.descs)) && OldSumsFit(img.data, WithoutChk(img.descs))
    requires OnlyAt(FileOf(Applied(img)), OTUS, |img.data|)
    requires Loadable(Applied(img))
    ensures ComesBack(img)
  {
    hide Load, Check, Header, FileOf, OnlyAt, Applied, IsDesc, WithoutChk, OldSumsFit;
    AppliedCheck(img);
    SameData(img);
    LoadStored(Applied(img));
    assert forall d :: d in Applied(img).descs ==> Readable(d) && |d| < MAX_LENGTH;
  }

  lemma LoadedData(file: Bytes)
    requires Load(file).Ok?
    ensures FindDesc(file, OTUS, OTUS_SIZE, OTUS_CUR_VER) == |Load(file).value.data| -
            (|file| - FindDesc(file, LAST, LAST_SIZE, LAST_CUR_VER) - LAST_SIZE)
    ensures FindDesc(file, OTUS, OTUS_SIZE, OTUS_CUR_VER) >= 0
    ensures Parse(file, FindDesc(file, OTUS, OTUS_SIZE, OTUS_CUR_VER)) == Ok(Load(file).value.descs)
  {
    hide Scan, Parse, Check;
  }

  lemma LoadedCheck(file: Bytes)
    requires Load(file).Ok?
    ensures AllDescs(Load(file).value.descs) && Check(Load(file).value) != Bad
  {
    hide FindDesc, Parse, Check, IsDesc;
    ParsedDescs(file, FindDesc(file, OTUS, OTUS_SIZE, OTUS_CUR_VER));
  }

  lemma RoundTripOnly(img: Image)
    requires AllDescs(img.descs)
    requires OnlyAt(FileOf(Applied(img)), OTUS, |img.data|)
    requires ComesBack(img)
    ensures Loadable(Applied(img)) && AllDescs(WithoutChk(img.descs)) && OldSumsFit(img.data, WithoutChk(img.descs))
  {
    hide Check, Header, OnlyAt, FindDesc, Parse, IsDesc, Readable, Load, Applied, Flat, WithoutChk, OldSumsFit;
    var full := Applied(img);
    AppliedCheck(img);
    LoadedCheck(FileOf(full));
    SameData(img);
    LoadedData(FileOf(full));
    FindsLast(full.data + Flat(full.descs));
    ParseStored(full.data, full.descs);
    AllReadable(full.descs);
    assert full.descs[0] in full.descs;
    FindsHeader(full);
  }

  /**
   A stored image comes back exactly when it has firmware, starts with an OTUS descriptor whose
   length does not read as an R, has no descriptor that stops the reader, and when no older
   checksum descriptor, which storing leaves in place, contradicts it.
   */
  lemma RoundTripExact(img: Image)
    requires AllDescs(img.descs)
    requires OnlyAt(FileOf(Applied(img)), OTUS, |img.data|)
    ensures AllDescs(WithoutChk(img.descs))
    ensures ComesBack(img) <==> Loadable(Applied(img)) && OldSumsFit(img.data, WithoutChk(img.descs))
  {
    hide ComesBack, Loadable, OnlyAt, OldSumsFit, WithoutChk, Check;
    AppliedCheck(img);
    if ComesBack(img) {
      RoundTripOnly(img);
    }
    if Loadable(Applied(img)) && OldSumsFit(img.data, WithoutChk(img.descs)) {
      RoundTrip(img);
    }
  }

  /** Whatever else an image holds, it does not come back if an older checksum descriptor contradicts it. */
  lemma OldSumsLost(img: Image)
    requires AllDescs(img.descs) && AllDescs(WithoutChk(img.descs)) && !OldSumsFit(img.data, WithoutChk(img.descs))
    ensures !ComesBack(img)
  {
    hide Load, OldSumsFit, WithoutChk, Check, Applied, IsDesc;
    AppliedCheck(img);
    if ComesBack(img) {
      LoadedCheck(Store(img).value);
    }
  }

  /** With two checksum descriptors, storing replaces the first one and keeps the second. */
  lemma TwoChks(data: Bytes, otus: Bytes)
    requires IsDesc(otus) && !IsChk(otus)
    ensures var wrong := Crc(SEED, data) ^ 1;
            AllDescs([otus, ChkDesc(0, 0), ChkDesc(wrong, 0)]) && !ComesBack(Image(data, [otus, ChkDesc(0, 0), ChkDesc(wrong, 0)]))
  {
    hide Crc, IsDesc, IsChk, ComesBack, FwSum, HeaderSum, ChkDesc, Payload, FindChk;
    var fw := Crc(SEED, data);
    ChkWellFormed(0, 0);
    ChkWellFormed(fw ^ 1, 0);
    var ds := [otus, ChkDesc(0, 0), ChkDesc(fw ^ 1, 0)];
    FindSecond(ds);
    assert WithoutChk(ds) == [otus, ChkDesc(fw ^ 1, 0)];
    FindSecond([otus, ChkDesc(fw ^ 1, 0)]);
    OldSumsLost(Image(data, ds));
  }

  lemma FindSecond(ds: seq<Bytes>)
    requires AllDescs(ds) && |ds| > 1 && !IsChk(ds[0]) && IsChk(ds[1])
    ensures FindChk(ds) == 1
  {
    hide IsDesc, IsChk;
  }

  lemma ShortHeader(d: Bytes)
    requires IsDesc(d) && |d| <= MAX_LENGTH
    ensures (d[5] as nat) <= 0x20
  {
    HighByte(d);
  }

  predicate ReadsAsR(ds: seq<Bytes>) {
    ds != [] && |ds[0]| >= HEAD_SIZE && ds[0][4] == LETTER_R
  }

  /** Whatever else a file holds, an OTUS descriptor whose length reads as an R is not found at its place. */
  lemma HeaderLost(img: Image)
    requires AllDescs(img.descs) && AllDescs(Applied(img).descs) && ReadsAsR(Applied(img).descs)
    ensures !ComesBack(img)
  {
    hide Check, IsDesc, Readable, Load, Applied, Flat, WithoutChk, Parse, FindDesc, Length;
    if ComesBack(img) {
      var full := Applied(img);
      SameData(img);
      LoadedData(FileOf(full));
      FindsLast(full.data + Flat(full.descs));
      assert full.descs[0] in full.descs && IsDesc(full.descs[0]);
      ShortHeader(full.descs[0]);
      HeadBytes(full);
      NotHit(FileOf(full), |full.data|);
    }
  }

  const LONG_HEADER: Bytes := OTUS + [0x52, 0, 6, 7] + seq(74, _ => 0)

  lemma LongHeader()
    ensures IsDesc(LONG_HEADER) && !IsChk(LONG_HEADER) && LONG_HEADER[4] == LETTER_R
  {
    assert |LONG_HEADER| == 82 && LONG_HEADER[4] == 0x52 && LONG_HEADER[5] == 0;
    assert LONG_HEADER[..4] == OTUS && OTUS[0] != CHK[0];
  }

  /** A header of 82 bytes, the code of R. */
  lemma Length82(data: Bytes)
    ensures IsDesc(LONG_HEADER) && !ComesBack(Image(data, [LONG_HEADER]))
  {
    hide IsDesc, IsChk, ComesBack, FreshChk, Check;
    LongHeader();
    var img := Image(data, [LONG_HEADER]);
    assert WithoutChk([LONG_HEADER]) == [LONG_HEADER];
    AppliedImage(img);
    HeaderLost(img);
  }

  // ----- what the checksums find -----

  /** The checksum descriptor that is looked at has the checksum of the firmware. */
  lemma GoodSums(img: Image)
    requires AllDescs(img.descs) && Check(img) == Good
    ensures var i := FindChk(img.descs);
            && i < |img.descs| && |img.descs[i]| >= CHK_SIZE && FwSum(img.descs[i]) == Crc(SEED, img.data)
            && HeaderSum(img.descs[i]) == Crc(Crc(SEED, img.data), Payload(img.descs))
  {
    hide Crc, IsDesc, IsChk, FwSum, HeaderSum, Payload;
    if FindChk(img.descs) < |img.descs| {
      ChkSize(img.descs[FindChk(img.descs)]);
    }
  }

  lemma BadSums(img: Image)
    requires AllDescs(img.descs) && FindChk(img.descs) < |img.descs| && |img.descs[FindChk(img.descs)]| >= CHK_SIZE
    requires var chk := img.descs[FindChk(img.descs)];
             FwSum(chk) != Crc(SEED, img.data) || HeaderSum(chk) != Crc(Crc(SEED, img.data), Payload(img.descs))
    ensures Check(img) == Bad
  {
    hide Crc, IsDesc, IsChk, FwSum, HeaderSum, Payload;
  }

  /** A file of a stored image in which one byte of the firmware has changed is rejected. */
  lemma FirmwareChange(img: Image, i: nat, b: bv8)
    requires AllDescs(img.descs) && AllDescs(WithoutChk(img.descs)) && OldSumsFit(img.data, WithoutChk(img.descs))
    requires OnlyAt(FileOf(Applied(img)), OTUS, |img.data|)
    requires Loadable(Applied(img))
    requires i < |img.data| && img.data[i] != b
    ensures Load(FileOf(Applied(img))[i := b]) == Err(Invalid)
  {
    hide Crc, Load, Header, Readable, IsDesc, IsChk, Occurs, LastDesc, Check, FindChk, ChkDesc, Flat, Applied, OldSumsFit, WithoutChk, Payload;
    var full := Applied(img);
    var changed := Image(img.data[i := b], full.descs);
    AppliedCheck(img);
    SameData(img);
    GoodSums(full);
    OneByteChanges(SEED, img.data, i, b);
    BadSums(changed);
    assert FileOf(full)[i := b] == FileOf(changed);
    SameOccurrences(FileOf(full), FileOf(changed), |img.data|);
    LoadStored(changed);
  }

  lemma SameOccurrences(file: Bytes, other: Bytes, n: nat)
    requires n <= |file| == |other| && file[n..] == other[n..]
    requires OnlyAt(file, OTUS, n)
    ensures OnlyAt(other, OTUS, n)
  {
    forall r | n < r <= |file| - 4 ensures Occurs(other, OTUS, r) == Occurs(file, OTUS, r) {
      assert other[r..r + 4] == other[n..][r - n..r - n + 4] == file[n..][r - n..r - n + 4] == file[r..r + 4];
    }
  }

  /** A byte of a descriptor that counts for the checksum is a byte of what the checksum is taken over. */
  lemma {:induction false} PayloadChange(ds: seq<Bytes>, k: nat, d: Bytes, j: nat, b: bv8) returns (at: nat)
    requires AllDescs(ds) && k < |ds| && !IsChk(ds[k]) && j < |ds[k]| && ds[k][j] != b
    requires d == ds[k][j := b] && IsDesc(d) && !IsChk(d)
    ensures AllDescs(ds[k := d]) && FindChk(ds[k := d]) == FindChk(ds)
    ensures at < |Payload(ds)| && Payload(ds)[at] != b && Payload(ds[k := d]) == Payload(ds)[at := b]
    decreases k
  {
    hide IsDesc, IsChk;
    var changed := ds[k := d];
    if k == 0 {
      at := j;
      assert changed[1..] == ds[1..];
      UpdatePrefix(ds[0], Payload(ds[1..]), j, b);
    } else {
      at := PayloadChange(ds[1..], k - 1, d, j, b);
      assert changed[1..] == ds[1..][k - 1 := d] && changed[0] == ds[0];
      if !IsChk(ds[0]) {
        UpdateSuffix(ds[0], Payload(ds[1..]), at, b);
        at := |ds[0]| + at;
      } else {
        UpdateSuffix([], Payload(ds[1..]), at, b);
      }
    }
  }

  lemma UpdatePrefix(x: Bytes, y: Bytes, j: nat, b: bv8)
    requires j < |x|
    ensures (x + y)[j := b] == x[j := b] + y && (x + y)[j] == x[j]
  {
  }

  lemma UpdateSuffix(x: Bytes, y: Bytes, j: nat, b: bv8)
    requires j < |y|
    ensures (x + y)[|x| + j := b] == x + y[j := b] && (x + y)[|x| + j] == y[j]
  {
  }

  /** So is one in which a byte of a descriptor has changed, if the file can still be read. */
  lemma DescriptorChange(img: Image, k: nat, j: nat, b: bv8)
    requires AllDescs(img.descs) && AllDescs(WithoutChk(img.descs)) && OldSumsFit(img.data, WithoutChk(img.descs))
    requires img.data != [] && AllDescs(Applied(img).descs)
    requires k < |Applied(img).descs| && !IsChk(Applied(img).descs[k])
    requires j < |Applied(img).descs[k]| && Applied(img).descs[k][j] != b
    requires var d := Applied(img).descs[k][j := b]; IsDesc(d) && !IsChk(d)
    requires var full := Applied(img);
             var changed := full.(descs := full.descs[k := full.descs[k][j := b]]);
             Loadable(changed) && OnlyAt(FileOf(changed), OTUS, |img.data|)
    ensures var full := Applied(img);
            Load(FileOf(full.(descs := full.descs[k := full.descs[k][j := b]]))) == Err(Invalid)
  {
    hide Crc, Load, Header, Readable, IsDesc, IsChk, OnlyAt, FileOf, Check, FindChk, ChkDesc, Flat, Applied, OldSumsFit, WithoutChk, Payload;
    var full := Applied(img);
    var d := full.descs[k][j := b];
    var changed := full.(descs := full.descs[k := d]);
    AppliedCheck(img);
    SameData(img);
    GoodSums(full);
    var at := PayloadChange(full.descs, k, d, j, b);
    OneByteChanges(Crc(SEED, img.data), Payload(full.descs), at, b);
    FoundIsChk(full.descs);
    BadSums(changed);
    LoadStored(changed);
  }

  lemma FoundIsChk(ds: seq<Bytes>)
    requires AllDescs(ds)
    ensures FindChk(ds) < |ds| ==> IsChk(ds[FindChk(ds)])
  {
  }
}
