/** tools/lib/carlfw.c: a firmware file in memory, its list of descriptors and the counters that go with it. */
module Carlfw {
  import opened Checksum
  import opened FwImage

  lemma Associative(a: Bytes, b: Bytes, c: Bytes)
    ensures a + (b + c) == (a + b) + c
  {}

  lemma {:induction false} FlatSum(a: seq<Bytes>, b: seq<Bytes>)
    ensures Flat(a + b) == Flat(a) + Flat(b)
  {
    if a == [] {
      assert a + b == b;
    } else {
      FlatSum(a[1..], b);
      assert (a + b)[1..] == a[1..] + b;
      Associative(a[0], Flat(a[1..]), Flat(b));
    }
  }

  lemma FlatOne(d: Bytes)
    ensures Flat([d]) == d
  {
    assert [d][1..] == [];
  }

  function Behind(ds: seq<Bytes>, r: Result<seq<Bytes>>): Result<seq<Bytes>> {
    match r
    case Ok(more) => Ok(ds + more)
    case Err(e) => Err(e)
  }

  lemma BehindNothing(r: Result<seq<Bytes>>)
    ensures Behind([], r) == r
  {
    if r.Ok? {
      assert [] + r.value == r.value;
    }
  }

  lemma ParseHere(file: Bytes, p: nat, ds: seq<Bytes>)
    requires p <= |file|
    ensures if p + HEAD_SIZE > |file| then Parse(file, p) == Err(Unspecified) == Behind(ds, Parse(file, p))
            else var n := Length(file[p..]);
              if file[p..p + 4] == LAST || n < HEAD_SIZE || n >= MAX_LENGTH then Behind(ds, Parse(file, p)) == Ok(ds)
              else if p + n > |file| then Behind(ds, Parse(file, p)) == Err(Unspecified)
              else Behind(ds, Parse(file, p)) == Behind(ds + [file[p..p + n]], Parse(file, p + n))
  {
    hide Length;
    assert ds + [] == ds;
    if p + HEAD_SIZE <= |file| {
      var n := Length(file[p..]);
      if p + n <= |file| && n > 0 && Parse(file, p + n).Ok? {
        var more := Parse(file, p + n).value;
        assert ds + ([file[p..p + n]] + more) == (ds + [file[p..p + n]]) + more;
      }
    }
  }

  lemma {:induction false} PayloadSum(a: seq<Bytes>, b: seq<Bytes>)
    requires AllDescs(a) && AllDescs(b)
    ensures AllDescs(a + b) && Payload(a + b) == Payload(a) + Payload(b)
  {
    hide IsDesc, IsChk;
    if a == [] {
      assert a + b == b;
    } else {
      PayloadSum(a[1..], b);
      assert (a + b)[1..] == a[1..] + b;
    }
  }

  lemma FirstChk(ds: seq<Bytes>, i: nat)
    requires AllDescs(ds) && i <= |ds|
    requires i < |ds| ==> IsChk(ds[i])
    requires forall k :: 0 <= k < i ==> !IsChk(ds[k])
    ensures FindChk(ds) == i
  {
    hide IsDesc, IsChk;
  }

  class Carlfw {
    var data: array<bv8>
    var descs: seq<Bytes>
    var entries: nat
    var total: nat

    ghost predicate Valid()
      reads this
    {
      AllDescs(descs) && entries == |descs| && total == |Flat(descs)|
    }

    ghost function Value(): Image
      reads this, data
    {
      Image(data[..], descs)
    }

    constructor ()
      ensures Valid() && fresh(data) && Value() == Image([], [])
    {
      data := new bv8[0];
      descs, entries, total := [], 0, 0;
    }

    /** Copies as many bytes as the length field says. */
    method DescAddTail(d: Bytes) returns (ok: bool)
      requires Valid() && |d| >= HEAD_SIZE && Length(d) <= |d|
      modifies this`descs, this`entries, this`total
      ensures Valid() && ok == (Length(d) >= HEAD_SIZE)
      ensures descs == if ok then old(descs) + [d[..Length(d)]] else old(descs)
    {
      hide Length;
      var len := Length(d);
      if len < HEAD_SIZE {
        return false;
      }
      SameLength(d, d[..len]);
      FlatSum(descs, [d[..len]]);
      FlatOne(d[..len]);
      entries := entries + 1;
      total := total + len;
      descs := descs + [d[..len]];
      ok := true;
    }

    method DescDel(i: nat)
      requires Valid() && i < |descs|
      modifies this`descs, this`entries, this`total
      ensures Valid() && descs == old(descs)[..i] + old(descs)[i + 1..]
    {
      hide Length;
      assert descs[i] in descs && IsDesc(descs[i]);
      assert descs == descs[..i] + ([descs[i]] + descs[i + 1..]);
      FlatSum(descs[..i], [descs[i]] + descs[i + 1..]);
      FlatSum([descs[i]], descs[i + 1..]);
      FlatOne(descs[i]);
      FlatSum(descs[..i], descs[i + 1..]);
      entries := entries - 1;
      total := total - Length(descs[i]);
      descs := descs[..i] + descs[i + 1..];
    }

    /** The first entry that matches, or the number of entries. */
    method FindEntry(id: Bytes, len: nat, revision: bv8) returns (i: nat)
      requires Valid() && |id| == 4
      ensures i <= |descs| && (i < |descs| ==> Matches(descs[i], id, len, revision))
      ensures forall k :: 0 <= k < i ==> !Matches(descs[k], id, len, revision)
    {
      hide Matches;
      i := 0;
      while i < |descs| && !Matches(descs[i], id, len, revision)
        invariant 0 <= i <= |descs|
        invariant forall k :: 0 <= k < i ==> !Matches(descs[k], id, len, revision)
      {
        i := i + 1;
      }
    }

    method FindDesc(id: Bytes, len: nat, revision: bv8) returns (r: int)
      requires |id| == 4
      ensures r == FwImage.FindDesc(data[..], id, len, revision)
    {
      var file := data[..];
      var scan := data.Length - 5;
      var found := 0;
      while scan > 0
        invariant scan < data.Length && 0 <= found < 4
        invariant Scan(file, id, scan, found) == Scan(file, id, data.Length - 5, 0)
      {
        hide Length, Supports;
        if data[scan] == id[3 - found] {
          found := found + 1;
        } else {
          found := 0;
        }
        if found == 4 {
          break;
        }
        scan := scan - 1;
      }
      if found == 4 {
        assert Scan(file, id, data.Length - 5, 0) == scan;
        var n := Length(file[scan..]);
        if Supports(file[scan..], revision) && scan + n <= data.Length && n >= len {
          return scan;
        }
      }
      r := -1;
    }

    method ApplyChecksums() returns (ok: bool)
      requires Valid()
      modifies this`descs, this`entries, this`total
      ensures ok && Valid() && Value() == Applied(old(Value()))
    {
      hide Length, IsDesc, Crc, ChkDesc;
      var i := FindEntry(CHK, CHK_SIZE, CHK_CUR_VER);
      MatchIsChk(descs, i);
      if i < |descs| {
        DescDel(i);
      }
      ghost var rest := descs;
      assert rest == WithoutChk(old(descs));
      var fw := Crc32Le(SEED, data[..]);
      var header, done := HeaderSums(fw);
      if !done {
        return false;
      }
      ChkEntry(fw, header);
      ok := DescAddTail(ChkDesc(fw, header));
      assert descs == rest + [FreshChk(data[..], rest)];
    }

    /** The counter of bytes is right, so the walk never finds more bytes than it counted. */
    method HeaderSums(fw: bv32) returns (crc: bv32, ok: bool)
      requires Valid()
      ensures ok && crc == Crc(fw, Flat(descs))
    {
      hide Crc, Length, IsDesc;
      crc := fw;
      var len, k := 0, 0;
      CrcNothing(fw);
      assert descs[..0] == [];
      while k < |descs|
        invariant 0 <= k <= |descs|
        invariant len == |Flat(descs[..k])| && crc == Crc(fw, Flat(descs[..k]))
      {
        Entry(descs, k);
        WalkStep(descs, k);
        var elen := Length(descs[k]);
        if total < len + elen {
          return crc, false;
        }
        CrcChain(fw, Flat(descs[..k]), descs[k]);
        crc := Crc32Le(crc, descs[k]);
        len := len + elen;
        k := k + 1;
      }
      assert descs[..k] == descs;
      ok := true;
    }

    method Store() returns (r: Result<Bytes>)
      requires Valid()
      modifies this`descs, this`entries, this`total
      ensures Valid() && Value() == Applied(old(Value())) && r == FwImage.Store(old(Value()))
    {
      hide Length, IsDesc, Applied;
      var ok := ApplyChecksums();
      assert Value().data == old(Value()).data;
      if data.Length == 0 {
        return Err(NotWritten);
      }
      var out, k := data[..], 0;
      assert descs[..0] == [] && out == data[..] + Flat([]);
      while k < |descs|
        invariant Valid() && Value() == Applied(old(Value()))
        invariant 0 <= k <= |descs| && out == data[..] + Flat(descs[..k])
        invariant forall d :: d in descs[..k] ==> |d| <= MAX_LENGTH
      {
        Entry(descs, k);
        WalkStep(descs, k);
        if Length(descs[k]) > MAX_LENGTH {
          assert descs[k] in Applied(old(Value())).descs;
          return Err(TooBig);
        }
        Associative(data[..], Flat(descs[..k]), descs[k]);
        out := out + descs[k];
        k := k + 1;
      }
      assert descs[..k] == descs;
      r := Ok(out + LastDesc());
    }

    method CheckCrc32s() returns (v: Verdict)
      requires Valid()
      ensures v == Check(Value())
    {
      hide Crc, IsDesc, IsChk, FwSum, HeaderSum;
      var i := FindEntry(CHK, CHK_SIZE, CHK_CUR_VER);
      MatchIsChk(descs, i);
      if i == |descs| {
        return Absent;
      }
      ChkSize(descs[i]);
      var crc := Crc32Le(SEED, data[..]);
      if crc != FwSum(descs[i]) {
        return Bad;
      }
      crc := PayloadSums(crc);
      v := if crc == HeaderSum(descs[i]) then Good else Bad;
    }

    method PayloadSums(fw: bv32) returns (crc: bv32)
      requires Valid()
      ensures crc == Crc(fw, Payload(descs))
    {
      hide Crc, IsDesc, IsChk;
      crc := fw;
      var k := 0;
      CrcNothing(fw);
      assert descs[..0] == [];
      while k < |descs|
        invariant 0 <= k <= |descs|
        invariant AllDescs(descs[..k]) && crc == Crc(fw, Payload(descs[..k]))
      {
        PayloadStep(descs, k);
        if !IsChk(descs[k]) {
          CrcChain(fw, Payload(descs[..k]), descs[k]);
          crc := Crc32Le(crc, descs[k]);
        }
        k := k + 1;
      }
      assert descs[..k] == descs;
    }

    /** The bytes behind `src` move down to `dst`. */
    method MoveDown(dst: nat, src: nat)
      requires dst <= src <= data.Length
      modifies data
      ensures data[..data.Length - (src - dst)] == old(data[..dst] + data[src..])
    {
      var k := src;
      while k < data.Length
        invariant src <= k <= data.Length
        invariant forall j :: 0 <= j < dst ==> data[j] == old(data[j])
        invariant forall j :: src <= j < k ==> data[j - (src - dst)] == old(data[j])
        invariant forall j :: k <= j < data.Length ==> data[j] == old(data[j])
      {
        data[k - (src - dst)] := data[k];
        k := k + 1;
      }
    }

    method ParseDescs(otus: nat) returns (r: Result<()>)
      requires Valid() && descs == [] && otus <= data.Length
      modifies this`descs, this`entries, this`total
      ensures Valid()
      ensures match Parse(data[..], otus)
              case Ok(ds) => descs == ds && r == if ds == [] then Err(Unspecified) else Ok(())
              case Err(e) => r == Err(e)
    {
      hide Length, IsDesc, Behind, Parse;
      var file, p := data[..], otus;
      BehindNothing(Parse(file, p));
      while true
        invariant Valid() && otus <= p <= |file| && file == data[..]
        invariant Parse(file, otus) == Behind(descs, Parse(file, p))
        decreases |file| - p
      {
        ParseHere(file, p, descs);
        if p + HEAD_SIZE > |file| {
          return Err(Unspecified);
        }
        var n := Length(file[p..]);
        if file[p..p + 4] == LAST || n < HEAD_SIZE || n >= MAX_LENGTH {
          break;
        }
        if p + n > |file| {
          return Err(Unspecified);
        }
        var ok := DescAddTail(file[p..]);
        assert file[p..][..n] == file[p..p + n];
        p := p + n;
      }
      r := if descs == [] then Err(Unspecified) else Ok(());
    }

    method Load(file: Bytes) returns (r: Result<()>)
      requires Valid() && descs == []
      modifies this
      ensures Valid()
      ensures match FwImage.Load(file)
              case Ok(img) => r == Ok(()) && Value() == img
              case Err(e) => r == Err(e)
    {
      hide Length, IsDesc, Check, Parse, FwImage.FindDesc;
      data := new bv8[|file|](i requires 0 <= i < |file| => file[i]);
      assert data[..] == file;
      var otus := FindDesc(OTUS, OTUS_SIZE, OTUS_CUR_VER);
      var last := FindDesc(LAST, LAST_SIZE, LAST_CUR_VER);
      if otus < 0 || last < 0 || otus > last {
        return Err(NoData);
      }
      r := ParseDescs(otus);
      if r.Err? {
        return;
      }
      CutOut(otus, last + LAST_SIZE);
      var v := CheckCrc32s();
      if v == Bad {
        return Err(Invalid);
      }
    }

    /** Takes the descriptors out of the firmware and gives the memory back. */
    method CutOut(start: nat, end: nat)
      requires start <= end <= data.Length
      modifies this`data, data
      ensures fresh(data) && data[..] == old(data[..start] + data[end..])
    {
      MoveDown(start, end);
      var rest := data[..data.Length - (end - start)];
      data := new bv8[|rest|](i requires 0 <= i < |rest| => rest[i]);
    }
  }

  lemma CrcNothing(c: bv32)
    ensures Crc(c, []) == c
  {}

  lemma Entry(ds: seq<Bytes>, k: nat)
    requires AllDescs(ds) && k < |ds|
    ensures ds[k] in ds && |ds[k]| >= HEAD_SIZE && Length(ds[k]) == |ds[k]|
  {
    hide Length;
    assert IsDesc(ds[k]);
  }

  lemma WalkStep(ds: seq<Bytes>, k: nat)
    requires k < |ds|
    ensures Flat(ds[..k + 1]) == Flat(ds[..k]) + ds[k] && |Flat(ds[..k + 1])| <= |Flat(ds)|
  {
    assert ds[..k + 1] == ds[..k] + [ds[k]];
    FlatSum(ds[..k], [ds[k]]);
    FlatOne(ds[k]);
    assert ds == ds[..k + 1] + ds[k + 1..];
    FlatSum(ds[..k + 1], ds[k + 1..]);
  }

  lemma PayloadStep(ds: seq<Bytes>, k: nat)
    requires AllDescs(ds) && k < |ds|
    ensures AllDescs(ds[..k]) && AllDescs(ds[..k + 1])
    ensures Payload(ds[..k + 1]) == if IsChk(ds[k]) then Payload(ds[..k]) else Payload(ds[..k]) + ds[k]
  {
    hide IsDesc, IsChk;
    assert ds[..k + 1] == ds[..k] + [ds[k]];
    assert [ds[k]][1..] == [];
    PayloadSum(ds[..k], [ds[k]]);
  }

  lemma MatchIsChk(ds: seq<Bytes>, i: nat)
    requires AllDescs(ds) && i <= |ds|
    requires i < |ds| ==> Matches(ds[i], CHK, CHK_SIZE, CHK_CUR_VER)
    requires forall k :: 0 <= k < i ==> !Matches(ds[k], CHK, CHK_SIZE, CHK_CUR_VER)
    ensures FindChk(ds) == i
  {
    hide Matches;
    FirstChk(ds, i);
  }

  lemma ChkEntry(fw: bv32, header: bv32)
    ensures var d := ChkDesc(fw, header); |d| == CHK_SIZE && Length(d) == CHK_SIZE && d[..CHK_SIZE] == d
  {
    var d := ChkDesc(fw, header);
    assert d[4] == 16 && d[5] == 0;
  }
}
