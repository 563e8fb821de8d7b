/** The archive reader of the update client (src/updates.rs), over the record layout of PKWARE's
    APPNOTE.TXT sections 4.3.7, 4.3.12 and 4.3.16. */
module Zip {
  import opened Bytes
  import opened Common

  datatype ZipError =
    | TooShort | NoEndRecord | NoDirectory | PastEnd | IsDirectory
    | NoLocalHeader | Truncated | InflateFailed | UnsupportedMethod | SizeMismatch

  const END_SIG: seq<byte> := [0x50, 0x4b, 0x05, 0x06]
  const DIRECTORY_SIG: seq<byte> := [0x50, 0x4b, 0x01, 0x02]
  const LOCAL_SIG: seq<byte> := [0x50, 0x4b, 0x03, 0x04]
  const MAX_COMMENT: nat := 65_535
  const SLASH: byte := 0x2f

  predicate At(b: seq<byte>, i: nat, part: seq<byte>) { i + |part| <= |b| && b[i..i + |part|] == part }

  function U16Le(b: seq<byte>, at: nat): Result<u16, ZipError> {
    if at + 2 <= |b| then Ok(FromLe16(b[at..at + 2])) else Err(PastEnd)
  }

  function U32Le(b: seq<byte>, at: nat): Result<u32, ZipError> {
    if at + 4 <= |b| then Ok(FromLe32(b[at..at + 4])) else Err(PastEnd)
  }

  /** Decompression as the reader calls it; None is a failure. */
  type Inflate = seq<byte> -> Option<seq<byte>>

  /** What an entry's data gives, its uncompressed size checked unless declared as zero. */
  function Extracted(compression: u16, data: seq<byte>, size: nat, inflate: Inflate): Result<seq<byte>, ZipError> {
    var out := if compression == 0 then Some(data) else inflate(data);
    if compression != 0 && compression != 8 then Err(UnsupportedMethod)
    else if out.None? then Err(InflateFailed)
    else if size != 0 && |out.value| != size then Err(SizeMismatch)
    else Ok(out.value)
  }

  /** The end record's signature stands at e, in the range searched, and nowhere later. */
  ghost predicate LastEndRecord(a: seq<byte>, e: nat) {
    |a| >= 22 && |a| - 22 - MAX_COMMENT <= e <= |a| - 22 && At(a, e, END_SIG) &&
    forall i | e < i <= |a| - 22 :: !At(a, i, END_SIG)
  }

  ghost predicate NoEndRecordIn(a: seq<byte>) {
    forall i: nat | |a| - 22 - MAX_COMMENT <= i <= |a| - 22 :: !At(a, i, END_SIG)
  }

  /** The search backwards from the last place an end record can start. */
  method FindEndRecord(a: seq<byte>) returns (e: Option<nat>)
    requires |a| >= 22
    ensures e.Some? ==> LastEndRecord(a, e.value)
    ensures e.None? ==> NoEndRecordIn(a)
  {
    var from := if |a| >= 22 + MAX_COMMENT then |a| - (22 + MAX_COMMENT) else 0;
    var i: nat := |a| - 22;
    while true
      invariant from <= i <= |a| - 22
      invariant forall j | i < j <= |a| - 22 :: !At(a, j, END_SIG)
      decreases i
    {
      if a[i..i + 4] == END_SIG {
        return Some(i);
      }
      if i == from {
        break;
      }
      i := i - 1;
    }
    return None;
  }

  /** The entry a directory header at cd describes. */
  function Entry(a: seq<byte>, cd: nat, inflate: Inflate): Result<seq<byte>, ZipError> {
    if !(cd + 46 <= |a| && At(a, cd, DIRECTORY_SIG)) then Err(NoDirectory)
    else
      var compression := U16Le(a, cd + 10).value;
      var stored := U32Le(a, cd + 20).value;
      var size := U32Le(a, cd + 24).value;
      var nameEnd := cd + 46 + U16Le(a, cd + 28).value;
      var local := U32Le(a, cd + 42).value;
      if nameEnd <= |a| && nameEnd > cd + 46 && a[nameEnd - 1] == SLASH then Err(IsDirectory)
      else if !(local + 30 <= |a| && At(a, local, LOCAL_SIG)) then Err(NoLocalHeader)
      else
        var start := local + 30 + U16Le(a, local + 26).value + U16Le(a, local + 28).value;
        if start + stored > |a| then Err(Truncated)
        else Extracted(compression, a[start..start + stored], size, inflate)
  }

  method ReadEntry(a: seq<byte>, cd: nat, inflate: Inflate) returns (r: Result<seq<byte>, ZipError>)
    ensures r == Entry(a, cd, inflate)
    ensures r != Err(PastEnd)
  {
    hide FromLe16, FromLe32;
    if cd + 46 > |a| || a[cd..cd + 4] != DIRECTORY_SIG {
      return Err(NoDirectory);
    }
    var compression := U16Le(a, cd + 10);
    if compression.Err? { return Err(PastEnd); }
    var compSize := U32Le(a, cd + 20);
    if compSize.Err? { return Err(PastEnd); }
    var uncompSize := U32Le(a, cd + 24);
    if uncompSize.Err? { return Err(PastEnd); }
    var nameLen := U16Le(a, cd + 28);
    if nameLen.Err? { return Err(PastEnd); }
    var lfhOffset := U32Le(a, cd + 42);
    if lfhOffset.Err? { return Err(PastEnd); }
    var name := if cd + 46 + nameLen.value <= |a| then a[cd + 46..cd + 46 + nameLen.value] else [];
    if name != [] && name[|name| - 1] == SLASH {
      return Err(IsDirectory);
    }
    var lfh: nat := lfhOffset.value;
    if lfh + 30 > |a| || a[lfh..lfh + 4] != LOCAL_SIG {
      return Err(NoLocalHeader);
    }
    var lNameLen := U16Le(a, lfh + 26);
    if lNameLen.Err? { return Err(PastEnd); }
    var lExtraLen := U16Le(a, lfh + 28);
    if lExtraLen.Err? { return Err(PastEnd); }
    var dataStart := lfh + 30 + lNameLen.value + lExtraLen.value;
    var dataEnd := dataStart + compSize.value;
    if dataEnd > |a| {
      return Err(Truncated);
    }
    var data := a[dataStart..dataEnd];
    var out: seq<byte>;
    if compression.value == 0 {
      out := data;
    } else if compression.value == 8 {
      var inflated := inflate(data);
      if inflated.None? {
        return Err(InflateFailed);
      }
      out := inflated.value;
    } else {
      return Err(UnsupportedMethod);
    }
    if uncompSize.value != 0 && |out| != uncompSize.value {
      return Err(SizeMismatch);
    }
    return Ok(out);
  }

  /** What an archive holds: the entry that its last end record leads to. */
  ghost function Unzip(a: seq<byte>, inflate: Inflate): Result<seq<byte>, ZipError> {
    if |a| < 22 then Err(TooShort)
    else if e: nat :| LastEndRecord(a, e) then Entry(a, U32Le(a, e + 16).value, inflate)
    else Err(NoEndRecord)
  }

  /** The first file of an archive. Nothing is read past the end, whatever the bytes: no field read
      fails, so PastEnd never comes out. */
  method UnzipFirstFile(a: seq<byte>, inflate: Inflate) returns (r: Result<seq<byte>, ZipError>)
    ensures r == Unzip(a, inflate)
    ensures r != Err(PastEnd)
  {
    hide FromLe32, LastEndRecord, NoEndRecordIn, Entry;
    if |a| < 22 {
      return Err(TooShort);
    }
    var found := FindEndRecord(a);
    if found.None? {
      NoneToRead(a);
      return Err(NoEndRecord);
    }
    var e := found.value;
    assert e + 22 <= |a| by { InRange(a, e); }
    OneEndRecord(a, e);
    var cdOffset := U32Le(a, e + 16);
    if cdOffset.Err? { return Err(PastEnd); }
    r := ReadEntry(a, cdOffset.value, inflate);
  }

  lemma InRange(a: seq<byte>, e: nat)
    requires LastEndRecord(a, e)
    ensures e + 22 <= |a|
  {
  }

  lemma NoneToRead(a: seq<byte>)
    requires NoEndRecordIn(a)
    ensures forall e: nat :: !LastEndRecord(a, e)
  {
  }

  lemma OneEndRecord(a: seq<byte>, e: nat)
    requires LastEndRecord(a, e)
    ensures forall f: nat | LastEndRecord(a, f) :: f == e
    ensures !NoEndRecordIn(a)
  {
    forall f: nat | LastEndRecord(a, f) ensures f == e {
      assert f < e ==> !At(a, e, END_SIG);
      assert e < f ==> !At(a, f, END_SIG);
    }
  }

  // ---- Which archives give which content ----

  function N16(a: seq<byte>, i: nat): nat
    requires i + 2 <= |a|
  {
    a[i] + 0x100 * (a[i + 1] as int)
  }

  function N32(a: seq<byte>, i: nat): nat
    requires i + 4 <= |a|
  {
    N16(a, i) + 0x1_0000 * N16(a, i + 2)
  }

  lemma NumbersRead(a: seq<byte>, i: nat)
    ensures i + 2 <= |a| ==> U16Le(a, i) == Ok(N16(a, i))
    ensures i + 4 <= |a| ==> U32Le(a, i) == Ok(N32(a, i))
  {
  }

  /** The signature "PK" with two further bytes stands at i. */
  predicate Signed(a: seq<byte>, i: nat, x: byte, y: byte) {
    i + 4 <= |a| && a[i] == 0x50 && a[i + 1] == 0x4b && a[i + 2] == x && a[i + 3] == y
  }

  /** The end record at e is the last, within reach of a comment of at most 65535 bytes. */
  ghost predicate EndsAt(a: seq<byte>, e: nat) {
    e + 22 <= |a| <= e + 22 + 65_535 && Signed(a, e, 5, 6) && forall i | e < i <= |a| - 22 :: !Signed(a, i, 5, 6)
  }

  /** So many bytes after the local header, its name and its extra field. */
  function DataAt(a: seq<byte>, local: nat, len: nat): Option<seq<byte>> {
    if local + 30 > |a| || !Signed(a, local, 3, 4) then None
    else
      var start := local + 30 + N16(a, local + 26) + N16(a, local + 28);
      if start + len > |a| then None else Some(a[start..start + len])
  }

  /** The directory header at cd describes a file, and no directory, with this content. */
  predicate FileAt(a: seq<byte>, cd: nat, out: seq<byte>, inflate: Inflate) {
    && cd + 46 <= |a| && Signed(a, cd, 1, 2)
    && (var n := N16(a, cd + 28); n == 0 || cd + 46 + n > |a| || a[cd + 46 + n - 1] != 0x2f)
    && (N32(a, cd + 24) == 0 || N32(a, cd + 24) == |out|)
    && var data := DataAt(a, N32(a, cd + 42), N32(a, cd + 20));
    && data.Some?
    && ((N16(a, cd + 10) == 0 && out == data.value) || (N16(a, cd + 10) == 8 && inflate(data.value) == Some(out)))
  }

  lemma SignedIs(a: seq<byte>, i: nat)
    ensures At(a, i, END_SIG) <==> Signed(a, i, 5, 6)
    ensures At(a, i, DIRECTORY_SIG) <==> Signed(a, i, 1, 2)
    ensures At(a, i, LOCAL_SIG) <==> Signed(a, i, 3, 4)
  {
    if i + 4 <= |a| {
      assert a[i..i + 4] == [a[i], a[i + 1], a[i + 2], a[i + 3]];
    }
  }

  lemma EndsAtIs(a: seq<byte>, e: nat)
    ensures LastEndRecord(a, e) <==> EndsAt(a, e)
  {
    forall i: nat ensures At(a, i, END_SIG) <==> Signed(a, i, 5, 6) { SignedIs(a, i); }
    hide At, Signed;
  }

  lemma EntryIs(a: seq<byte>, cd: nat, inflate: Inflate, out: seq<byte>)
    ensures Entry(a, cd, inflate) == Ok(out) <==> FileAt(a, cd, out, inflate)
  {
    SignedIs(a, cd);
    hide U16Le, U32Le, N16, N32, At, Signed;
    if cd + 46 <= |a| {
      NumbersRead(a, cd + 10);
      NumbersRead(a, cd + 20);
      NumbersRead(a, cd + 24);
      NumbersRead(a, cd + 28);
      NumbersRead(a, cd + 42);
      var local := N32(a, cd + 42);
      SignedIs(a, local);
      NumbersRead(a, local + 26);
      NumbersRead(a, local + 28);
    }
  }

  /** An archive gives a content exactly when its last end record leads to a directory header of a file,
      not a directory, whose data, stored or inflated, is that content, and whose size field is zero or the
      content's length. */
  lemma UnzipIs(a: seq<byte>, inflate: Inflate, out: seq<byte>)
    ensures Unzip(a, inflate) == Ok(out) <==> exists e: nat :: EndsAt(a, e) && FileAt(a, N32(a, e + 16), out, inflate)
  {
    hide Entry, FileAt, U32Le, N32;
    forall e: nat ensures LastEndRecord(a, e) <==> EndsAt(a, e) { EndsAtIs(a, e); }
    hide LastEndRecord, EndsAt;
    if e: nat :| LastEndRecord(a, e) {
      OneEndRecord(a, e);
      InRange(a, e);
      NumbersRead(a, e + 16);
      EntryIs(a, N32(a, e + 16), inflate, out);
    }
  }

  // ---- Archives as they are laid out ----

  /** One file in an archive. Fields the reader must not depend on are arbitrary bytes: the local
      header's own version, flags, method, stamps, checksum and sizes, which may all be zero; local
      name and extra field; a data descriptor after the data; further directory headers. */
  datatype Archive = Archive(
    before: seq<byte>,
    localFields: seq<byte>,
    localName: seq<byte>,
    localExtra: seq<byte>,
    data: seq<byte>,
    descriptor: seq<byte>,
    versions: seq<byte>,
    compression: u16,
    stamps: seq<byte>,
    size: u32,
    name: seq<byte>,
    extraLen: u16,
    commentLen: u16,
    attributes: seq<byte>,
    rest: seq<byte>,
    endFields: seq<byte>,
    comment: seq<byte>)

  function LocalHeader(z: Archive): seq<byte>
    requires |z.localName| <= 0xffff && |z.localExtra| <= 0xffff
  {
    LOCAL_SIG + z.localFields + Le16(|z.localName|) + Le16(|z.localExtra|)
  }

  function LocalOffset(z: Archive): nat { |z.before| }
  function DataOffset(z: Archive): nat { |z.before| + 30 + |z.localName| + |z.localExtra| }
  function DirectoryOffset(z: Archive): nat { DataOffset(z) + |z.data| + |z.descriptor| }
  function EndOffset(z: Archive): nat { DirectoryOffset(z) + 46 + |z.name| + |z.rest| }

  predicate Fits(z: Archive) {
    |z.localFields| == 22 && |z.versions| == 6 && |z.stamps| == 8 && |z.attributes| == 8 && |z.endFields| == 12 &&
    |z.localName| <= 0xffff && |z.localExtra| <= 0xffff && |z.name| <= 0xffff && |z.comment| <= 0xffff &&
    |z.data| <= 0xffff_ffff && LocalOffset(z) <= 0xffff_ffff && DirectoryOffset(z) <= 0xffff_ffff
  }

  function DirectoryHeader(z: Archive): seq<byte>
    requires Fits(z)
  {
    DIRECTORY_SIG + z.versions + Le16(z.compression) + z.stamps + Le32(|z.data|) + Le32(z.size) + Le16(|z.name|) +
    Le16(z.extraLen) + Le16(z.commentLen) + z.attributes + Le32(LocalOffset(z))
  }

  function EndRecord(z: Archive): seq<byte>
    requires Fits(z)
  {
    END_SIG + z.endFields + Le32(DirectoryOffset(z)) + Le16(|z.comment|)
  }

  function Build(z: Archive): seq<byte>
    requires Fits(z)
  {
    z.before + LocalHeader(z) + (z.localName + z.localExtra) + z.data + z.descriptor +
    DirectoryHeader(z) + z.name + z.rest + EndRecord(z) + z.comment
  }

  /** No end record signature stands after the real one. */
  ghost predicate NoLaterSignature(z: Archive)
    requires Fits(z)
  {
    forall i | EndOffset(z) < i <= EndOffset(z) + |z.comment| :: !At(Build(z), i, END_SIG)
  }

  // ---- Reading an archive back ----

  /** A part of a part stands in the whole. */
  lemma Within(b: seq<byte>, at: nat, header: seq<byte>, k: nat, n: nat)
    requires At(b, at, header) && k + n <= |header|
    ensures at + k + n <= |b| && b[at + k..at + k + n] == header[k..k + n]
  {
    var x, y, whole := b[at + k..at + k + n], header[k..k + n], b[at..at + |header|];
    forall i | 0 <= i < n ensures x[i] == y[i] {
      var j := k + i;
      assert whole[j] == b[at + j];
    }
  }

  lemma DirectoryFields(z: Archive)
    requires Fits(z)
    ensures var h := DirectoryHeader(z);
      |h| == 46 && h[..4] == DIRECTORY_SIG && h[10..12] == Le16(z.compression) && h[20..24] == Le32(|z.data|) &&
      h[24..28] == Le32(z.size) && h[28..30] == Le16(|z.name|) && h[42..46] == Le32(LocalOffset(z))
  {
    hide Le16, Le32;
  }

  lemma Parts(z: Archive)
    requires Fits(z)
    ensures |Build(z)| == EndOffset(z) + 22 + |z.comment|
    ensures At(Build(z), LocalOffset(z), LocalHeader(z)) && At(Build(z), DataOffset(z), z.data)
    ensures At(Build(z), DirectoryOffset(z), DirectoryHeader(z)) && At(Build(z), DirectoryOffset(z) + 46, z.name)
    ensures At(Build(z), EndOffset(z), EndRecord(z))
  {
    hide LocalHeader, DirectoryHeader, EndRecord, Le16, Le32;
    Sizes(z);
    var x := z.before;
    var local := x + LocalHeader(z);
    var data := local + (z.localName + z.localExtra);
    var directory := data + z.data + z.descriptor;
    var name := directory + DirectoryHeader(z);
    var end := name + z.name + z.rest;
    Placed(x, LocalHeader(z), (z.localName + z.localExtra) + z.data + z.descriptor +
           DirectoryHeader(z) + z.name + z.rest + EndRecord(z) + z.comment);
    Placed(data, z.data, z.descriptor + DirectoryHeader(z) + z.name + z.rest + EndRecord(z) + z.comment);
    Placed(directory, DirectoryHeader(z), z.name + z.rest + EndRecord(z) + z.comment);
    Placed(name, z.name, z.rest + EndRecord(z) + z.comment);
    Placed(end, EndRecord(z), z.comment);
  }

  lemma Placed(before: seq<byte>, part: seq<byte>, after: seq<byte>)
    ensures At(before + part + after, |before|, part)
  {
  }

  lemma Sizes(z: Archive)
    requires Fits(z)
    ensures |LocalHeader(z)| == 30 && |DirectoryHeader(z)| == 46 && |EndRecord(z)| == 22
  {
    hide Le16, Le32;
  }

  lemma EndFields(z: Archive)
    requires Fits(z)
    ensures |EndRecord(z)| == 22 && EndRecord(z)[..4] == END_SIG && EndRecord(z)[16..20] == Le32(DirectoryOffset(z))
  {
    hide Le16, Le32, DirectoryOffset;
  }

  lemma LocalFields(z: Archive)
    requires Fits(z)
    ensures |LocalHeader(z)| == 30 && LocalHeader(z)[..4] == LOCAL_SIG
    ensures LocalHeader(z)[26..28] == Le16(|z.localName|) && LocalHeader(z)[28..30] == Le16(|z.localExtra|)
  {
    hide Le16, Le32;
  }

  /** The end record that the backward search meets is the real one. */
  lemma EndFound(z: Archive)
    requires Fits(z) && NoLaterSignature(z)
    ensures LastEndRecord(Build(z), EndOffset(z))
    ensures U32Le(Build(z), EndOffset(z) + 16) == Ok(DirectoryOffset(z))
  {
    hide Build, EndOffset, DirectoryOffset, LocalOffset, DataOffset, EndRecord, DirectoryHeader, LocalHeader, Le32, FromLe32;
    Parts(z);
    EndFields(z);
    var a, e := Build(z), EndOffset(z);
    Within(a, e, EndRecord(z), 0, 4);
    Within(a, e, EndRecord(z), 16, 4);
    LeRoundTrip(DirectoryOffset(z));
    assert EndRecord(z)[0..4] == EndRecord(z)[..4];
    forall i | e < i <= |a| - 22 ensures !At(a, i, END_SIG) {}
  }

  lemma HeaderRead(z: Archive)
    requires Fits(z)
    ensures var a, cd := Build(z), DirectoryOffset(z);
      At(a, cd, DIRECTORY_SIG) && cd + 46 + |z.name| <= |a| &&
      U16Le(a, cd + 10) == Ok(z.compression) && U32Le(a, cd + 20) == Ok(|z.data|) && U32Le(a, cd + 24) == Ok(z.size) &&
      U16Le(a, cd + 28) == Ok(|z.name|) && U32Le(a, cd + 42) == Ok(LocalOffset(z)) &&
      (z.name != [] ==> a[cd + 46 + |z.name| - 1] == z.name[|z.name| - 1])
  {
    hide Build, EndOffset, DirectoryOffset, LocalOffset, DataOffset, EndRecord, DirectoryHeader, LocalHeader;
    hide Le32, Le16, FromLe32, FromLe16;
    Parts(z);
    DirectoryFields(z);
    var a, cd, h := Build(z), DirectoryOffset(z), DirectoryHeader(z);
    Within(a, cd, h, 0, 4);
    assert h[0..4] == h[..4];
    Within(a, cd, h, 10, 2);
    Within(a, cd, h, 20, 4);
    Within(a, cd, h, 24, 4);
    Within(a, cd, h, 28, 2);
    Within(a, cd, h, 42, 4);
    Le16RoundTrip(z.compression);
    LeRoundTrip(|z.data|);
    LeRoundTrip(z.size);
    Le16RoundTrip(|z.name|);
    LeRoundTrip(LocalOffset(z));
    if z.name != [] {
      assert a[cd + 46..cd + 46 + |z.name|][|z.name| - 1] == a[cd + 46 + |z.name| - 1];
    }
  }

  lemma LocalRead(z: Archive)
    requires Fits(z)
    ensures var a, local := Build(z), LocalOffset(z);
      At(a, local, LOCAL_SIG) && local + 30 <= |a| &&
      U16Le(a, local + 26) == Ok(|z.localName|) && U16Le(a, local + 28) == Ok(|z.localExtra|)
  {
    hide Build, EndOffset, DirectoryOffset, LocalOffset, DataOffset, EndRecord, DirectoryHeader, LocalHeader;
    hide Le32, Le16, FromLe32, FromLe16;
    Parts(z);
    LocalFields(z);
    var a, local, h := Build(z), LocalOffset(z), LocalHeader(z);
    Within(a, local, h, 0, 4);
    assert h[0..4] == h[..4];
    Within(a, local, h, 26, 2);
    Within(a, local, h, 28, 2);
    Le16RoundTrip(|z.localName|);
    Le16RoundTrip(|z.localExtra|);
  }

  lemma DataPlace(z: Archive)
    requires Fits(z)
    ensures var start := LocalOffset(z) + 30 + |z.localName| + |z.localExtra|;
      start + |z.data| <= |Build(z)| && Build(z)[start..start + |z.data|] == z.data
  {
    hide Build;
    Parts(z);
  }

  lemma DataRead(z: Archive, inflate: Inflate)
    requires Fits(z)
    ensures Entry(Build(z), DirectoryOffset(z), inflate) ==
      if z.name != [] && z.name[|z.name| - 1] == SLASH then Err(IsDirectory)
      else Extracted(z.compression, z.data, z.size, inflate)
  {
    hide Build, DirectoryOffset, LocalOffset, U16Le, U32Le, Extracted;
    HeaderRead(z);
    LocalRead(z);
    DataPlace(z);
    hide At, Fits;
  }

  /** Whatever the local header, the extra fields, the descriptor and the comments hold, what is read
      is the file's data under the method and size of the directory header. */
  lemma ReadsBack(z: Archive, inflate: Inflate)
    requires Fits(z) && NoLaterSignature(z)
    ensures Unzip(Build(z), inflate) ==
      if z.name != [] && z.name[|z.name| - 1] == SLASH then Err(IsDirectory)
      else Extracted(z.compression, z.data, z.size, inflate)
  {
    hide Build, DirectoryOffset, EndOffset, EndRecord, Extracted, Entry, U32Le, LastEndRecord, Fits, NoLaterSignature;
    EndFound(z);
    OneEndRecord(Build(z), EndOffset(z));
    InRange(Build(z), EndOffset(z));
    DataRead(z, inflate);
  }

  /** A stored file is read back as it was, and a compressed one as decompression gives it back. */
  lemma RoundTrip(z: Archive, inflate: Inflate, content: seq<byte>)
    requires Fits(z) && NoLaterSignature(z) && (z.name == [] || z.name[|z.name| - 1] != SLASH)
    requires z.size == |content| || z.size == 0
    requires (z.compression == 0 && z.data == content) || (z.compression == 8 && inflate(z.data) == Some(content))
    ensures Unzip(Build(z), inflate) == Ok(content)
  {
    hide Build, Fits, NoLaterSignature, Unzip;
    ReadsBack(z, inflate);
  }
}
