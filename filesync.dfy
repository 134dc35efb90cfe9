/**
 * The file-sync envelope: a flag byte, a length-prefixed UTF-8 path, a
 * length-prefixed data block and, only when a server name is set, a
 * length-prefixed UTF-8 server name. The relay server writes the data
 * length in 4 big-endian bytes, the client package in 2; everything else
 * is shared, so both layouts are one codec over the width.
 */
module FileSync {
  import opened Wrappers
  import opened Bytes
  import Utf8

  /** Width of the data-length field in the relay server's codec. */
  const ServerDataWidth: nat := 4
  /** Width of the data-length field in the client package's codec. */
  const ClientDataWidth: nat := 2

  datatype FileEncode = FileEncode(path: string, data: seq<Byte>, flag: int, serverName: Option<string>)

  /** `if self.server_name:` — `None` and `""` are both falsy. */
  predicate HasServerName(f: FileEncode)
  {
    f.serverName.Some? && f.serverName.value != ""
  }

  /**
   * What `encode` needs to avoid an `OverflowError` from `to_bytes`:
   * every value fits its field.
   */
  predicate Encodable(f: FileEncode, width: nat)
  {
    && 0 <= f.flag < 256
    && |Utf8.Encode(f.path)| < 0x1_0000
    && |f.data| < Pow256(width)
    && (HasServerName(f) ==> |Utf8.Encode(f.serverName.value)| < 0x1_0000)
  }

  function Encode(f: FileEncode, width: nat): (r: seq<Byte>)
    requires Encodable(f, width)
    ensures |r| == 1 + 2 + |Utf8.Encode(f.path)| + width + |f.data|
      + (if HasServerName(f) then 2 + |Utf8.Encode(f.serverName.value)| else 0)
  {
    var head := Head(f, width);
    if HasServerName(f) then
      var nameBytes := Utf8.Encode(f.serverName.value);
      head + BigEndian(|nameBytes|, 2) + nameBytes
    else head
  }

  /** The fields every record has: flag, path and data. */
  function Head(f: FileEncode, width: nat): (r: seq<Byte>)
    requires Encodable(f, width)
    ensures |r| == 1 + 2 + |Utf8.Encode(f.path)| + width + |f.data|
  {
    var pathBytes := Utf8.Encode(f.path);
    BigEndian(f.flag, 1) + BigEndian(|pathBytes|, 2) + pathBytes + BigEndian(|f.data|, width) + f.data
  }

  /** Where `BytesIO.read(n)` from `pos` stops: `n` bytes later, or at the end. */
  function ReadEnd(raw: seq<Byte>, pos: nat, n: nat): (e: nat)
    requires pos <= |raw|
    ensures pos <= e <= |raw|
  {
    if pos + n <= |raw| then pos + n else |raw|
  }

  /** The value of a `w`-byte big-endian length field read from `pos`. */
  function LengthAt(raw: seq<Byte>, pos: nat, w: nat): nat
    requires pos <= |raw|
  {
    BigEndianValue(raw[pos..ReadEnd(raw, pos, w)])
  }

  /** Where the bytes of a field with a `w`-byte length prefix at `pos` start. */
  function FieldStart(raw: seq<Byte>, pos: nat, w: nat): (e: nat)
    requires pos <= |raw|
    ensures pos <= e <= |raw|
  {
    ReadEnd(raw, pos, w)
  }

  /** Where the bytes of a field with a `w`-byte length prefix at `pos` end. */
  function FieldEnd(raw: seq<Byte>, pos: nat, w: nat): (e: nat)
    requires pos <= |raw|
    ensures FieldStart(raw, pos, w) <= e <= |raw|
  {
    ReadEnd(raw, FieldStart(raw, pos, w), LengthAt(raw, pos, w))
  }

  /** The bytes of a field with a `w`-byte length prefix at `pos`. */
  function Field(raw: seq<Byte>, pos: nat, w: nat): seq<Byte>
    requires pos <= |raw|
  {
    raw[FieldStart(raw, pos, w)..FieldEnd(raw, pos, w)]
  }

  /** The decoding failures: only a path or server name that is not UTF-8. */
  datatype DecodeError = UnicodeDecodeError

  /**
   * What `decode` reads. A short input is never an error: `int.from_bytes`
   * of a short read is the value of the bytes that are there (0 for none).
   * The server name is absent exactly when the cursor is at the end after
   * the data.
   */
  function DecodeSpec(raw: seq<Byte>, width: nat): Result<FileEncode, DecodeError>
  {
    var p1 := ReadEnd(raw, 0, 1);
    var flag := BigEndianValue(raw[..p1]);
    match Utf8.Decode(Field(raw, p1, 2))
    case None => Err(UnicodeDecodeError)
    case Some(path) =>
      var p2 := FieldEnd(raw, p1, 2);
      var data := Field(raw, p2, width);
      var p3 := FieldEnd(raw, p2, width);
      if |raw| <= p3 then Ok(FileEncode(path, data, flag, None))
      else
        match Utf8.Decode(Field(raw, p3, 2))
        case None => Err(UnicodeDecodeError)
        case Some(name) => Ok(FileEncode(path, data, flag, Some(name)))
  }

  /** An in-memory byte stream with a cursor. */
  class BytesIO {
    var buffer: seq<Byte>
    var position: nat

    ghost predicate Valid()
      reads this
    {
      position <= |buffer|
    }

    constructor (raw: seq<Byte>)
      ensures Valid() && buffer == raw && position == 0
    {
      buffer := raw;
      position := 0;
    }

    /** `end`: the cursor is at or past the size of the buffer. */
    predicate End()
      reads this
    {
      |buffer| <= position
    }

    /** `read(n)`: at most `n` bytes from the cursor, fewer at the end, and the cursor moves past them. */
    method Read(n: nat) returns (r: seq<Byte>)
      requires Valid()
      modifies this
      ensures Valid() && buffer == old(buffer)
      ensures position == ReadEnd(buffer, old(position), n)
      ensures r == buffer[old(position)..position]
    {
      var e := if position + n <= |buffer| then position + n else |buffer|;
      r := buffer[position..e];
      position := e;
    }
  }

  /** `FileEncode.decode`: the same fields in the same order through a cursor. */
  method Decode(raw: seq<Byte>, width: nat) returns (r: Result<FileEncode, DecodeError>)
    ensures r == DecodeSpec(raw, width)
  {
    var bio := new BytesIO(raw);
    var flagBytes := bio.Read(1);
    var pathLen := bio.Read(2);
    var pathBytes := bio.Read(BigEndianValue(pathLen));
    var path := Utf8.Decode(pathBytes);
    if path.None? {
      return Err(UnicodeDecodeError);
    }
    var dataLen := bio.Read(width);
    var data := bio.Read(BigEndianValue(dataLen));
    if bio.End() {
      return Ok(FileEncode(path.value, data, BigEndianValue(flagBytes), None));
    }
    var nameLen := bio.Read(2);
    var nameBytes := bio.Read(BigEndianValue(nameLen));
    var name := Utf8.Decode(nameBytes);
    if name.None? {
      return Err(UnicodeDecodeError);
    }
    return Ok(FileEncode(path.value, data, BigEndianValue(flagBytes), Some(name.value)));
  }

  /** The record `decode(encode(f))` gives back: an empty server name reads as `None`. */
  function Normalized(f: FileEncode): FileEncode
  {
    if HasServerName(f) then f else f.(serverName := None)
  }

  /** A length-prefixed field in the middle of a buffer reads back whole. */
  lemma ReadPrefixedField(raw: seq<Byte>, pre: seq<Byte>, w: nat, field: seq<Byte>, post: seq<Byte>)
    requires |field| < Pow256(w)
    requires raw == pre + BigEndian(|field|, w) + field + post
    ensures FieldStart(raw, |pre|, w) == |pre| + w
    ensures FieldEnd(raw, |pre|, w) == |pre| + w + |field|
    ensures Field(raw, |pre|, w) == field
  {
    var len := BigEndian(|field|, w);
    BigEndianRoundTrip(|field|, w);
    assert raw[|pre|..|pre| + w] == len;
    assert raw[|pre| + w..|pre| + w + |field|] == field;
  }

  /** Decoding with the same width undoes encoding, field by field. */
  lemma RoundTripFields(f: FileEncode, width: nat)
    requires Encodable(f, width)
    ensures var r := DecodeSpec(Encode(f, width), width);
      r.Ok? && r.value.path == f.path && r.value.data == f.data && r.value.flag == f.flag
      && r.value.serverName == Normalized(f).serverName
  {
    if HasServerName(f) {
      RoundTripNamed(f, width);
    } else {
      RoundTripUnnamed(f, width);
    }
  }

  /** `RoundTripFields` for a record with a server name. */
  lemma RoundTripNamed(f: FileEncode, width: nat)
    requires Encodable(f, width) && HasServerName(f)
    ensures DecodeSpec(Encode(f, width), width) == Ok(f)
  {
    var head := Head(f, width);
    var name := f.serverName.value;
    var nameBytes := Utf8.Encode(name);
    var tail := BigEndian(|nameBytes|, 2) + nameBytes;
    var raw := head + tail;
    assert Encode(f, width) == raw;
    var p2 := 3 + |Utf8.Encode(f.path)|;
    Utf8.RoundTrip(f.path);
    HeadFields(f, width, tail);
    assert raw == head + BigEndian(|nameBytes|, 2) + nameBytes + [];
    ReadPrefixedField(raw, head, 2, nameBytes, []);
    Utf8.RoundTrip(name);
    DecodeWithName(raw, width, 1, f.flag, f.path, p2, f.data, p2 + width + |f.data|, name);
  }

  /** `RoundTripFields` for a record without one. */
  lemma RoundTripUnnamed(f: FileEncode, width: nat)
    requires Encodable(f, width) && !HasServerName(f)
    ensures DecodeSpec(Encode(f, width), width) == Ok(FileEncode(f.path, f.data, f.flag, None))
  {
    var raw := Head(f, width);
    assert Encode(f, width) == raw && raw == raw + [];
    var p2 := 3 + |Utf8.Encode(f.path)|;
    Utf8.RoundTrip(f.path);
    HeadFields(f, width, []);
    DecodeWithoutName(raw, width, 1, f.flag, f.path, p2, f.data, p2 + width + |f.data|);
  }

  /** The flag, the path and the data read back from the front of an encoding, whatever follows them. */
  lemma HeadFields(f: FileEncode, width: nat, tail: seq<Byte>)
    requires Encodable(f, width)
    ensures
      var raw := Head(f, width) + tail;
      var p2 := 3 + |Utf8.Encode(f.path)|;
      ReadEnd(raw, 0, 1) == 1 && BigEndianValue(raw[..1]) == f.flag
      && Field(raw, 1, 2) == Utf8.Encode(f.path) && FieldEnd(raw, 1, 2) == p2
      && Field(raw, p2, width) == f.data && FieldEnd(raw, p2, width) == p2 + width + |f.data|
  {
    var raw := Head(f, width) + tail;
    var pathBytes := Utf8.Encode(f.path);
    var fb, pl, dl := BigEndian(f.flag, 1), BigEndian(|pathBytes|, 2), BigEndian(|f.data|, width);
    HeadRegroup(fb, pl, pathBytes, dl, f.data, tail, raw);
    BigEndianRoundTrip(f.flag, 1);
    ReadPrefixedField(raw, fb, 2, pathBytes, dl + f.data + tail);
    ReadPrefixedField(raw, fb + pl + pathBytes, width, f.data, tail);
  }

  /** The groupings of a record head followed by more bytes that `HeadFields` reads it by. */
  lemma HeadRegroup<T>(a: seq<T>, b: seq<T>, c: seq<T>, d: seq<T>, e: seq<T>, t: seq<T>, raw: seq<T>)
    requires raw == a + b + c + d + e + t
    ensures raw[..|a|] == a
    ensures raw == a + b + c + (d + e + t)
    ensures raw == (a + b + c) + d + e + t
  {
    assert raw == a + (b + c + d + e + t);
  }

  /** Decoding with the same width undoes encoding. */
  lemma RoundTrip(f: FileEncode, width: nat)
    requires Encodable(f, width)
    ensures DecodeSpec(Encode(f, width), width) == Ok(Normalized(f))
  {
    RoundTripFields(f, width);
    var r := DecodeSpec(Encode(f, width), width);
    assert r.value == Normalized(f);
  }

  /**
   * The two layouts are not interchangeable: a record with an empty path
   * and empty data written by the server reads back, with the client's
   * 2-byte data length, with a server name `""` it never had.
   */
  lemma WidthsNotInterchangeable()
    ensures var f := FileEncode("", [], 0, None);
      Encodable(f, ServerDataWidth)
      && DecodeSpec(Encode(f, ServerDataWidth), ClientDataWidth) == Ok(FileEncode("", [], 0, Some("")))
  {
    var f := FileEncode("", [], 0, None);
    var z2 := BigEndian(0, 2);
    var raw := [0] + z2 + z2 + z2;
    EmptyRecordBytes(f, z2);
    ReadPrefixedField(raw, [0], 2, [], z2 + z2);
    assert raw == [0] + z2 + [] + z2 + [] + z2;
    ReadPrefixedField(raw, [0] + z2, 2, [], z2);
    assert raw == [0] + z2 + z2 + [] + z2 + [];
    ReadPrefixedField(raw, [0] + z2 + z2, 2, [], []);
    assert raw[..1] == [0] && BigEndianValue([0]) == 0;
    assert Utf8.Decode([]) == Some("");
    DecodeWithName(raw, ClientDataWidth, 1, 0, "", 3, [], 5, "");
  }

  /** The server writes the empty record as a zero flag and three zero lengths. */
  lemma EmptyRecordBytes(f: FileEncode, z2: seq<Byte>)
    requires f == FileEncode("", [], 0, None) && z2 == BigEndian(0, 2)
    ensures Encodable(f, ServerDataWidth) && Encode(f, ServerDataWidth) == [0] + z2 + z2 + z2
  {
    Pow256Four();
    assert BigEndian(0, 4) == z2 + z2;
    assert Utf8.Encode("") == [];
  }

  /** `DecodeSpec` of a record that ends after its data, with its fields and positions named. */
  lemma DecodeWithoutName(raw: seq<Byte>, width: nat, p1: nat, flag: int, path: string, p2: nat, data: seq<Byte>, p3: nat)
    requires p1 == ReadEnd(raw, 0, 1) && flag == BigEndianValue(raw[..p1])
    requires Utf8.Decode(Field(raw, p1, 2)) == Some(path)
    requires p2 == FieldEnd(raw, p1, 2) && data == Field(raw, p2, width) && p3 == FieldEnd(raw, p2, width)
    requires |raw| <= p3
    ensures DecodeSpec(raw, width) == Ok(FileEncode(path, data, flag, None))
  {
  }

  /** `DecodeSpec` of a record that has a server name, with its fields and positions named. */
  lemma DecodeWithName(raw: seq<Byte>, width: nat, p1: nat, flag: int, path: string, p2: nat, data: seq<Byte>, p3: nat, name: string)
    requires p1 == ReadEnd(raw, 0, 1) && flag == BigEndianValue(raw[..p1])
    requires Utf8.Decode(Field(raw, p1, 2)) == Some(path)
    requires p2 == FieldEnd(raw, p1, 2) && data == Field(raw, p2, width) && p3 == FieldEnd(raw, p2, width)
    requires |raw| > p3 && Utf8.Decode(Field(raw, p3, 2)) == Some(name)
    ensures DecodeSpec(raw, width) == Ok(FileEncode(path, data, flag, Some(name)))
  {
  }
}
