/** What the frame decoder guarantees, stated over the raw bytes of a frame:
    where each field comes from, when decoding raises, how the two checksums
    relate to the declared length, what `validate` accepts, what the payload
    scan yields, and how a whole trace line is decoded. */
module FrameProperties {
  import opened Python
  import opened Hex
  import opened Lines
  import opened Frame

  /** The class and type codes `validate` accepts, as byte values. */
  const ClassBytes: seq<byte> := [0x01, 0x02, 0x03]
  const TypeBytes: seq<byte> := [0x03, 0x04, 0x05, 0x06, 0x1C, 0x1D, 0x1F, 0x22, 0x2F, 0x3C]

  function HexCodes(bs: seq<byte>): (codes: seq<string>)
    ensures |codes| == |bs|
  {
    seq(|bs|, k requires 0 <= k < |bs| => HexByte(bs[k]))
  }

  /** The code strings of the source are the hex of those byte values. */
  lemma KnownCodesAreHex()
    ensures KnownClasses == HexCodes(ClassBytes)
    ensures KnownTypes == HexCodes(TypeBytes)
  {
  }

  /** A byte's hex text is among the hex codes of `bs` exactly when the byte is in `bs`. */
  lemma HexCodesMember(x: byte, bs: seq<byte>)
    ensures HexByte(x) in HexCodes(bs) <==> x in bs
  {
    if HexByte(x) in HexCodes(bs) {
      var k :| 0 <= k < |bs| && HexCodes(bs)[k] == HexByte(x);
      HexByteInjective(x, bs[k]);
    }
    if x in bs {
      var k :| 0 <= k < |bs| && bs[k] == x;
      assert HexCodes(bs)[k] == HexByte(x);
    }
  }

  // ----- field extraction -----

  /** The declared length is bytes 1-2, little-endian, so it is below 65536;
      it cannot be unpacked (struct.error) from fewer than three bytes. */
  lemma DeclaredLengthField(b: seq<byte>)
    ensures DeclaredLength(b).Some? <==> |b| >= 3
    ensures |b| >= 3 ==>
      DeclaredLength(b) == Some(b[1] as nat + 256 * b[2] as nat) && DeclaredLength(b).value < 0x1_0000
  {
  }

  /** The transmitted checksum is the two bytes before the end marker,
      little-endian; with three bytes present it always unpacks. */
  lemma TrailerChecksumField(b: seq<byte>)
    requires |b| >= 3
    ensures TrailerChecksum(b) == Some(b[|b| - 3] as nat + 256 * b[|b| - 2] as nat)
  {
  }

  /** The computed checksum reads the bytes at `len - 2` (high) and `len - 3`
      (low) with Python indexing. With at least three bytes the low index is
      never below `-len(b)`, so it is available exactly when `len < n + 2`;
      a declared length below 3 wraps to the end of the buffer. */
  lemma ComputedChecksumField(b: seq<byte>, len: nat)
    requires |b| >= 3
    ensures ComputedChecksum(b, len).Some? <==> len < |b| + 2
    ensures var n, c := |b|, ComputedChecksum(b, len);
      (3 <= len < n + 2 ==> c == Some(256 * b[len - 2] as nat + b[len - 3] as nat)) &&
      (len == 2 ==> c == Some(256 * b[0] as nat + b[n - 1] as nat)) &&
      (len == 1 ==> c == Some(256 * b[n - 1] as nat + b[n - 2] as nat)) &&
      (len == 0 ==> c == Some(256 * b[n - 2] as nat + b[n - 3] as nat))
  {
  }

  /** `parse` raises struct.error exactly on buffers shorter than three
      bytes, IndexError exactly when the declared length is at least two past
      the buffer's length, and otherwise completes; it never raises anything else. */
  lemma DecodeOutcome(b: seq<byte>)
    ensures Decode(b) == Err(StructError) <==> |b| < 3
    ensures Decode(b) == Err(IndexError) <==> |b| >= 3 && b[1] as nat + 256 * b[2] as nat >= |b| + 2
    ensures Decode(b).Ok? <==> |b| >= 3 && b[1] as nat + 256 * b[2] as nat < |b| + 2
    ensures Decode(b).Err? ==> Decode(b).error != ValueError
  {
  }

  /** The single-byte fields of a decoded frame are the hex of bytes 0, 3, 4,
      5 and n-1, or empty where a short buffer has no such byte. */
  lemma HeaderFields(b: seq<byte>)
    requires Decode(b).Ok?
    ensures var f, n := Decode(b).value, |b|;
      f.som == HexByte(b[0]) &&
      f.messageClass == (if n > 3 then HexByte(b[3]) else "") &&
      f.seqNumber == (if n > 4 then HexByte(b[4]) else "") &&
      f.messageType == (if n > 5 then HexByte(b[5]) else "") &&
      f.eom == HexByte(b[n - 1]) &&
      f.message == ToHex(f.messageBytes)
  {
  }

  /** The payload is `b[6:n-3]`, of length max(0, n - 9); header, payload
      and trailer put back together give the whole buffer. */
  lemma PayloadLayout(b: seq<byte>)
    ensures |Payload(b)| == if |b| >= 9 then |b| - 9 else 0
    ensures |b| >= 9 ==> Payload(b) == b[6..|b| - 3] && b[..6] + Payload(b) + b[|b| - 3..] == b
  {
  }

  // ----- the checksum and length checks -----

  /** Both checksums read the same two bytes when the declared length equals
      the buffer length, so "Valid length" implies "Valid checksum". */
  lemma LengthValidImpliesChecksumValid(b: seq<byte>)
    requires Decode(b).Ok?
    ensures Decode(b).value.messageLength == |b| ==>
      Decode(b).value.checksum == Decode(b).value.computedChecksum
  {
  }

  /** The same holds for a declared length of 0: both negative indices wrap
      to the two checksum bytes. */
  lemma ZeroLengthChecksumValid(b: seq<byte>)
    requires Decode(b).Ok? && Decode(b).value.messageLength == 0
    ensures Decode(b).value.checksum == Decode(b).value.computedChecksum
  {
  }

  // ----- validate -----

  /** `validate` returns None exactly for frames whose start marker is F0,
      class is among 01-03, type is among the ten listed codes and end marker
      is 55; a frame too short to hold a type byte always fails. */
  lemma ValidateAcceptsExactly(b: seq<byte>)
    requires Decode(b).Ok?
    ensures var f, n := Decode(b).value, |b|;
      Validate(f.som, f.messageClass, f.messageType, f.eom) == ReturnsNone <==>
        n >= 6 && b[0] == 0xF0 && b[3] in ClassBytes && b[5] in TypeBytes && b[n - 1] == 0x55
  {
    var f, n := Decode(b).value, |b|;
    HeaderFields(b);
    KnownCodesAreHex();
    HexByteInjective(b[0], 0xF0);
    HexByteInjective(b[n - 1], 0x55);
    assert HexByte(0xF0) == "F0" && HexByte(0x55) == "55";
    if n > 3 { HexCodesMember(b[3], ClassBytes); }
    if n > 5 { HexCodesMember(b[5], TypeBytes); }
    assert Passes(StartMarker, f.som, f.messageClass, f.messageType, f.eom) <==> b[0] == 0xF0;
    assert Passes(EndMarker, f.som, f.messageClass, f.messageType, f.eom) <==> b[n - 1] == 0x55;
  }

  /** A type code has a named label exactly when `validate` accepts it. */
  lemma LabelledTypesAreAccepted(t: string)
    ensures TypeLabel(t) != t + " UNKNOWN" <==> Passes(TypeCode, "", "", t, "")
  {
  }

  // ----- message_bruteforce -----

  /** The number of caught errors in a scan. */
  function Errors(lines: seq<ScanLine>): nat
  {
    if lines == [] then 0
    else Errors(lines[..|lines| - 1]) + (if lines[|lines| - 1].Quack? then 1 else 0)
  }

  lemma {:induction false} NoErrors(lines: seq<ScanLine>)
    requires forall i :: 0 <= i < |lines| ==> lines[i].Unpacked?
    ensures Errors(lines) == 0
  {
    if lines != [] {
      NoErrors(lines[..|lines| - 1]);
    }
  }

  /** The scan of an N-byte payload has N steps: the first N - 1 decode the
      overlapping windows p[i], p[i+1] little-endian, and exactly one error,
      at the last index, is caught (none when the payload is empty). */
  lemma ScanShape(p: seq<byte>)
    ensures |Scan(p)| == |p|
    ensures forall i :: 0 <= i < |p| - 1 ==> Scan(p)[i] == Unpacked(p[i] as nat + 256 * p[i + 1] as nat)
    ensures |p| > 0 ==> Scan(p)[|p| - 1] == Quack(|p| - 1, |p|)
    ensures Errors(Scan(p)) == if |p| == 0 then 0 else 1
  {
    var s := Scan(p);
    forall i | 0 <= i < |p| - 1
      ensures s[i] == Unpacked(p[i] as nat + 256 * p[i + 1] as nat)
    {
      WindowInside(p, i);
    }
    if |p| > 0 {
      WindowLast(p);
      NoErrors(s[..|p| - 1]);
    }
  }

  // ----- whole lines -----

  /** Wherever a line decodes, "Valid length" implies "Valid checksum". */
  lemma ReportLengthImpliesChecksum(line: string)
    requires LineReport(line).Ok?
    ensures LineReport(line).value.lengthValid ==> LineReport(line).value.checksumValid
  {
    var b := FromHex(SplitLine(line).value.raw).value;
    LengthValidImpliesChecksumValid(b);
  }

  /** A line made of a direction, the hex of a frame and a timestamp decodes
      exactly that frame: it is reported whenever `parse` completes on it,
      and otherwise fails with the exception `parse` raises. */
  lemma EncodedLineDecodes(direction: string, b: seq<byte>, timestamp: string)
    requires ' ' !in direction && ' ' !in timestamp
    ensures var line := direction + " " + ToHex(b) + " " + timestamp;
      match Decode(b)
      case Err(e) => LineReport(line) == Err(e)
      case Ok(f) =>
        LineReport(line).Ok? && LineReport(line).value.frame == f &&
        LineReport(line).value.direction == direction &&
        LineReport(line).value.timestamp == timestamp &&
        (LineReport(line).value.lengthValid <==> f.messageLength == |b|)
  {
    var h := ToHex(b);
    var line := direction + " " + h + " " + timestamp;
    assert ' ' !in h by {
      forall k | 0 <= k < |h| ensures h[k] != ' ' { }
    }
    var parts := [direction, h, timestamp];
    assert Join(parts) == line by {
      assert parts[1..] == [h, timestamp] && parts[2..] == [timestamp] && parts[3..] == [];
      assert Rest(parts[1..]) == " " + h + Rest(parts[2..]);
      assert Rest(parts[2..]) == " " + timestamp + Rest([]);
    }
    SplitJoin(parts);
    assert SplitLine(line) == Ok(LineFields(direction, h, timestamp));
    FromHexToHex(b);
  }

  /** A buffer of fewer than three bytes on an otherwise well-formed line
      fails with struct.error. */
  lemma ShortFrameRaises(direction: string, b: seq<byte>, timestamp: string)
    requires ' ' !in direction && ' ' !in timestamp
    requires |b| < 3
    ensures LineReport(direction + " " + ToHex(b) + " " + timestamp) == Err(StructError)
  {
    EncodedLineDecodes(direction, b, timestamp);
    DecodeOutcome(b);
  }

  /** The nine-byte frame F0 0600 01 00 03 AABB 55 (declared length 6):
      its checksum is 0xBBAA, its computed checksum reads bytes 4 and 3 and is
      0x0001, and its length is not valid. */
  lemma DeclaredSixOfNine()
    ensures var b: seq<byte> := [0xF0, 0x06, 0x00, 0x01, 0x00, 0x03, 0xAA, 0xBB, 0x55];
      Decode(b).Ok? &&
      Decode(b).value.messageLength == 6 &&
      Decode(b).value.checksum == 0xBBAA &&
      Decode(b).value.computedChecksum == 0x0001 &&
      Decode(b).value.messageBytes == []
  {
  }
}
