/** The frame decoder of the lens/camera motor-control link (class `Message`
    in pretty.py): slicing a raw frame into its fixed fields, the advisory
    validation of markers and codes, the labels for class and type codes, the
    overlapping 16-bit scan of the payload, and the per-line flow that ties
    them together.

    Wire layout of a frame of n bytes: start marker (byte 0), declared length
    (bytes 1-2, little-endian), class (3), sequence number (4), type (5),
    payload (6 .. n-3), checksum (n-3 .. n-1, little-endian), end marker (n-1).
    Every single-byte field is held, as in the source, as the upper-case hex
    text of a one-byte slice, so a field past the end of a short frame is the
    empty string. */
module Frame {
  import opened Python
  import opened Hex
  import opened Lines

  /** The attributes `parse` sets, once it has run to completion. */
  datatype Frame = Frame(
    som: string,
    messageLength: nat,
    messageClass: string,
    seqNumber: string,
    messageType: string,
    message: string,
    messageBytes: seq<byte>,
    checksum: nat,
    eom: string,
    computedChecksum: nat)

  /** Bytes 1-2 unpacked as "<H". */
  function DeclaredLength(b: seq<byte>): Option<nat>
  {
    UnpackU16LE(Slice(b, 1, 3))
  }

  /** `b[6:-3]`. */
  function Payload(b: seq<byte>): seq<byte>
  {
    Slice(b, 6, -3)
  }

  /** `b[-3:-1]` unpacked as "<H". */
  function TrailerChecksum(b: seq<byte>): Option<nat>
  {
    UnpackU16LE(Slice(b, -3, -1))
  }

  /** `(b[len - 2] << 8) + b[len - 3]`, with Python indexing relative to the
      declared length `len`; None where either index raises IndexError. */
  function ComputedChecksum(b: seq<byte>, len: int): (r: Option<nat>)
    ensures r.Some? <==> -|b| <= len - 3 && len - 2 < |b|
    ensures r.Some? ==> r.value < 0x1_0000
  {
    var hi, lo := Index(b, len - 2), Index(b, len - 3);
    if hi.None? || lo.None? then None
    else Some(hi.value as nat * 256 + lo.value as nat)
  }

  /** The frame `parse` leaves behind, given the values it unpacked. */
  function FrameOf(b: seq<byte>, len: nat, sum: nat, computed: nat): Frame
  {
    Frame(
      som := ToHex(Slice(b, 0, 1)),
      messageLength := len,
      messageClass := ToHex(Slice(b, 3, 4)),
      seqNumber := ToHex(Slice(b, 4, 5)),
      messageType := ToHex(Slice(b, 5, 6)),
      message := ToHex(Payload(b)),
      messageBytes := Payload(b),
      checksum := sum,
      eom := ToHex(Slice(b, -1, |b|)),
      computedChecksum := computed)
  }

  /** What `parse` does to a buffer, as a value: struct.error when the length
      field cannot be unpacked, IndexError when the declared length points the
      computed checksum outside the buffer, and otherwise the frame. */
  function Decode(b: seq<byte>): (r: Result<Frame>)
    ensures r == Err(StructError) <==> |b| < 3
    ensures r.Err? ==> r.error != ValueError
    ensures r.Ok? ==>
      r.value.messageLength < 0x1_0000 && r.value.checksum < 0x1_0000 &&
      r.value.computedChecksum < 0x1_0000 && r.value.message == ToHex(r.value.messageBytes)
  {
    match DeclaredLength(b)
    case None => Err(StructError)
    case Some(len) =>
      var sum := TrailerChecksum(b);
      // Cannot raise: the length field was unpacked, so three bytes are present.
      assert sum.Some?;
      match ComputedChecksum(b, len)
      case None => Err(IndexError)
      case Some(computed) => Ok(FrameOf(b, len, sum.value, computed))
  }

  // ----- validate -----

  /** The class codes `validate` accepts. */
  const KnownClasses: seq<string> := ["01", "02", "03"]

  /** The type codes `validate` accepts. */
  const KnownTypes: seq<string> := ["03", "04", "05", "06", "1C", "1D", "1F", "22", "2F", "3C"]

  /** The four checks of `validate`, in the order it makes them. */
  datatype Check = StartMarker | ClassCode | TypeCode | EndMarker

  function Rank(c: Check): nat
  {
    match c
    case StartMarker => 0
    case ClassCode => 1
    case TypeCode => 2
    case EndMarker => 3
  }

  predicate Passes(c: Check, som: string, cls: string, typ: string, eom: string)
  {
    match c
    case StartMarker => som == "F0"
    case ClassCode => cls in KnownClasses
    case TypeCode => typ in KnownTypes
    case EndMarker => eom == "55"
  }

  /** What `validate` returns: False after the first failing check (the one it
      reports), or None when every check passes; it never returns True. */
  datatype Verdict = ReturnsFalse(failed: Check) | ReturnsNone

  function Validate(som: string, cls: string, typ: string, eom: string): (r: Verdict)
    ensures r.ReturnsNone? <==> forall c: Check :: Passes(c, som, cls, typ, eom)
    ensures r.ReturnsFalse? ==>
      !Passes(r.failed, som, cls, typ, eom) &&
      forall c: Check :: Rank(c) < Rank(r.failed) ==> Passes(c, som, cls, typ, eom)
  {
    if som != "F0" then
      assert !Passes(StartMarker, som, cls, typ, eom);
      ReturnsFalse(StartMarker)
    else if cls !in KnownClasses then
      assert !Passes(ClassCode, som, cls, typ, eom);
      ReturnsFalse(ClassCode)
    else if typ !in KnownTypes then
      assert !Passes(TypeCode, som, cls, typ, eom);
      ReturnsFalse(TypeCode)
    else if eom != "55" then
      assert !Passes(EndMarker, som, cls, typ, eom);
      ReturnsFalse(EndMarker)
    else ReturnsNone
  }

  // ----- pp_message_type, pp_message_class -----

  /** `pp_message_type`: a named label for each code `validate` accepts, and
      "<code> UNKNOWN" for every other code. */
  function TypeLabel(t: string): (r: string)
    ensures |t| <= |r| && r[..|t|] == t
    ensures r == t + " UNKNOWN" <==> t !in KnownTypes
  {
    // In each branch `t` is the code just compared, so `t + ", aperture"` is
    // the label "03, aperture", and so on.
    if t == "03" then t + ", aperture"
    else if t == "04" then t + ", unknown"
    else if t == "05" then t + ", aperture status"
    else if t == "06" then t + ", focus position status"
    else if t == "1C" then t + ", stop af"
    else if t == "1D" then t + ", abs or rel motor movement"
    else if t == "1F" then t + ", af hunt"
    else if t == "22" then t + ", abs motor movement"
    else if t == "2F" then t + ", echo request"
    else if t == "3C" then t + ", move at speed"
    else t + " UNKNOWN"
  }

  /** `pp_message_class`: a fixed label for the three known codes and
      "<code>, UNKNOWN TOO" for every other code. */
  function ClassLabel(c: string): (r: string)
    ensures |c| <= |r| && r[..|c|] == c
    ensures r == c + ", UNKNOWN TOO" <==> c !in KnownClasses
  {
    if c == "01" then c + ", normal"
    else if c == "02" then c + ", init or shutdown"
    else if c == "03" then c + ", UNKNOWN"
    else c + ", UNKNOWN TOO"
  }

  // ----- message_bruteforce -----

  /** One step of `message_bruteforce`: the value it prints, or the
      struct.error it catches together with the index and payload length. */
  datatype ScanLine = Unpacked(value: nat) | Quack(index: nat, length: nat)

  /** Step `i`: unpack the slice `p[i:i+2]` as "<H". */
  function Window(p: seq<byte>, i: nat): (r: ScanLine)
    ensures r.Unpacked? <==> i + 2 <= |p|
    ensures r.Unpacked? ==> r.value < 0x1_0000
    ensures r.Quack? ==> r == Quack(i, |p|)
  {
    match UnpackU16LE(Slice(p, i, i + 2))
    case Some(v) => Unpacked(v)
    case None => Quack(i, |p|)
  }

  /** The steps for i in range(0, len(p)). */
  function Scan(p: seq<byte>): (r: seq<ScanLine>)
    ensures |r| == |p|
  {
    seq(|p|, i requires 0 <= i < |p| => Window(p, i))
  }

  // ----- the per-line flow -----

  /** Everything a decoded line yields: its passthrough fields, the frame,
      the verdict of `validate`, both labels, the "Valid checksum" and "Valid
      length" flags, and the scan of the payload. */
  datatype Report = Report(
    direction: string,
    timestamp: string,
    frame: Frame,
    verdict: Verdict,
    classLabel: string,
    typeLabel: string,
    checksumValid: bool,
    lengthValid: bool,
    scan: seq<ScanLine>)

  function ReportOf(fields: LineFields, b: seq<byte>, f: Frame): Report
  {
    Report(
      direction := fields.direction,
      timestamp := fields.timestamp,
      frame := f,
      verdict := Validate(f.som, f.messageClass, f.messageType, f.eom),
      classLabel := ClassLabel(f.messageClass),
      typeLabel := TypeLabel(f.messageType),
      checksumValid := f.checksum == f.computedChecksum,
      lengthValid := f.messageLength == |b|,
      scan := Scan(f.messageBytes))
  }

  /** What `pretty(line)` computes: the exception it raises (IndexError on
      fewer than three fields, ValueError on text that is not hex, then
      whatever `parse` raises), or the report. */
  function LineReport(line: string): (r: Result<Report>)
    ensures Spaces(line) < 2 ==> r == Err(IndexError)
    ensures r.Ok? ==>
      ' ' !in r.value.direction && ' ' !in r.value.timestamp &&
      |r.value.scan| == |r.value.frame.messageBytes|
  {
    match SplitLine(line)
    case Err(e) => Err(e)
    case Ok(fields) =>
      match FromHex(fields.raw)
      case None => Err(ValueError)
      case Some(b) =>
        match Decode(b)
        case Err(e) => Err(e)
        case Ok(f) => Ok(ReportOf(fields, b, f))
  }

  /** One decoded trace line. The fields are None until `Parse` sets them. */
  class Message {
    const direction: string
    const timestamp: string
    const bytes: seq<byte>
    var som: Option<string>
    var messageLength: Option<nat>
    var messageClass: Option<string>
    var seqNumber: Option<string>
    var messageType: Option<string>
    var message: Option<string>
    var messageBytes: Option<seq<byte>>
    var checksum: Option<nat>
    var eom: Option<string>
    var computedChecksum: Option<nat>

    /** Every field `parse` sets before it computes the checksum holds `f`'s value. */
    predicate HoldsHeader(f: Frame)
      reads this
    {
      som == Some(f.som) && messageLength == Some(f.messageLength) &&
      messageClass == Some(f.messageClass) && seqNumber == Some(f.seqNumber) &&
      messageType == Some(f.messageType) && message == Some(f.message) &&
      messageBytes == Some(f.messageBytes) && checksum == Some(f.checksum) &&
      eom == Some(f.eom)
    }

    predicate Holds(f: Frame)
      reads this
    {
      HoldsHeader(f) && computedChecksum == Some(f.computedChecksum)
    }

    predicate Unparsed()
      reads this
    {
      som.None? && messageLength.None? && messageClass.None? && seqNumber.None? &&
      messageType.None? && message.None? && messageBytes.None? && checksum.None? &&
      eom.None? && computedChecksum.None?
    }

    /** `Message(dir, raw, tstamp)`, given the bytes `bytes.fromhex(raw)` produced. */
    constructor (dir: string, raw: seq<byte>, tstamp: string)
      ensures direction == dir && bytes == raw && timestamp == tstamp
      ensures Unparsed()
    {
      direction, bytes, timestamp := dir, raw, tstamp;
      som, messageLength, messageClass, seqNumber, messageType := None, None, None, None, None;
      message, messageBytes, checksum, eom, computedChecksum := None, None, None, None, None;
    }

    /** `parse`: sets the fields in source order and stops at the first
        exception, which it returns; the fields set before it keep their new
        values and the rest keep their old ones. */
    method Parse() returns (err: Option<Error>)
      modifies this
      ensures err.None? <==> Decode(bytes).Ok?
      ensures err.Some? ==> Decode(bytes) == Err(err.value)
      ensures err.None? ==> Holds(Decode(bytes).value)
      ensures err == Some(StructError) ==>
        som == Some(ToHex(Slice(bytes, 0, 1))) &&
        messageLength == old(messageLength) && messageClass == old(messageClass) &&
        seqNumber == old(seqNumber) && messageType == old(messageType) &&
        message == old(message) && messageBytes == old(messageBytes) &&
        checksum == old(checksum) && eom == old(eom) &&
        computedChecksum == old(computedChecksum)
      ensures err == Some(IndexError) ==>
        DeclaredLength(bytes).Some? && TrailerChecksum(bytes).Some? &&
        HoldsHeader(FrameOf(bytes, DeclaredLength(bytes).value, TrailerChecksum(bytes).value, 0)) &&
        computedChecksum == old(computedChecksum)
    {
      som := Some(ToHex(Slice(bytes, 0, 1)));
      var len := UnpackU16LE(Slice(bytes, 1, 3));
      if len.None? {
        return Some(StructError);
      }
      messageLength := len;
      SliceFields();
      var hi, lo := Index(bytes, len.value as int - 2), Index(bytes, len.value as int - 3);
      if hi.None? || lo.None? {
        return Some(IndexError);
      }
      computedChecksum := Some(hi.value as nat * 256 + lo.value as nat);
      return None;
    }

    /** The steps of `parse` between the length and the computed checksum:
        the class, sequence, type, payload, checksum and end-marker fields.
        None of them can raise once the length field has been unpacked. */
    method SliceFields()
      requires DeclaredLength(bytes).Some?
      modifies this`messageClass, this`seqNumber, this`messageType, this`message,
        this`messageBytes, this`checksum, this`eom
      ensures TrailerChecksum(bytes).Some? && checksum == TrailerChecksum(bytes)
      ensures messageClass == Some(ToHex(Slice(bytes, 3, 4)))
      ensures seqNumber == Some(ToHex(Slice(bytes, 4, 5)))
      ensures messageType == Some(ToHex(Slice(bytes, 5, 6)))
      ensures message == Some(ToHex(Payload(bytes))) && messageBytes == Some(Payload(bytes))
      ensures eom == Some(ToHex(Slice(bytes, -1, |bytes|)))
    {
      messageClass := Some(ToHex(Slice(bytes, 3, 4)));
      seqNumber := Some(ToHex(Slice(bytes, 4, 5)));
      messageType := Some(ToHex(Slice(bytes, 5, 6)));
      message := Some(ToHex(Slice(bytes, 6, -3)));
      messageBytes := Some(Slice(bytes, 6, -3));
      var sum := UnpackU16LE(Slice(bytes, -3, -1));
      // Cannot raise: the length field was unpacked, so three bytes are present.
      assert sum.Some?;
      checksum := sum;
      eom := Some(ToHex(Slice(bytes, -1, |bytes|)));
    }

    /** `message_bruteforce`: one step per payload index; every window but the
        last decodes the two bytes at i and i + 1, and the last, one byte
        short, is reported with its index and the payload length. */
    method Bruteforce() returns (lines: seq<ScanLine>)
      requires messageBytes.Some?
      ensures |lines| == |messageBytes.value|
      ensures forall i :: 0 <= i < |lines| ==> lines[i] == Window(messageBytes.value, i)
      ensures forall i :: 0 <= i < |lines| - 1 ==>
        lines[i] == Unpacked(messageBytes.value[i] as nat + 256 * messageBytes.value[i + 1] as nat)
      ensures |lines| > 0 ==> lines[|lines| - 1] == Quack(|lines| - 1, |lines|)
    {
      var p := messageBytes.value;
      lines := [];
      for i := 0 to |p|
        invariant |lines| == i
        invariant forall k :: 0 <= k < i ==> lines[k] == Window(p, k)
      {
        var v := UnpackU16LE(Slice(p, i, i + 2));
        if v.Some? {
          lines := lines + [Unpacked(v.value)];
        } else {
          lines := lines + [Quack(i, |p|)];
        }
      }
      forall i | 0 <= i < |p| - 1
        ensures lines[i] == Unpacked(p[i] as nat + 256 * p[i + 1] as nat)
      {
        WindowInside(p, i);
      }
      if |p| > 0 {
        WindowLast(p);
      }
    }
  }

  /** A window that starts at least two bytes before the end decodes the two
      bytes there in little-endian order. */
  lemma WindowInside(p: seq<byte>, i: nat)
    requires i + 1 < |p|
    ensures Window(p, i) == Unpacked(p[i] as nat + 256 * p[i + 1] as nat)
  {
  }

  /** The window at the last byte is one byte short: it is the caught error. */
  lemma WindowLast(p: seq<byte>)
    requires |p| > 0
    ensures Window(p, |p| - 1) == Quack(|p| - 1, |p|)
  {
  }

  /** `pretty(line)`: split the line, build the message, parse, validate,
      label and scan. */
  method Pretty(line: string) returns (r: Result<Report>)
    ensures r == LineReport(line)
  {
    var split := SplitLine(line);
    if split.Err? {
      return Err(split.error);
    }
    var fields := split.value;
    var raw := FromHex(fields.raw);
    if raw.None? {
      return Err(ValueError);
    }
    var message := new Message(fields.direction, raw.value, fields.timestamp);
    var err := message.Parse();
    if err.Some? {
      return Err(err.value);
    }
    var f := Frame(
      message.som.value, message.messageLength.value, message.messageClass.value,
      message.seqNumber.value, message.messageType.value, message.message.value,
      message.messageBytes.value, message.checksum.value, message.eom.value,
      message.computedChecksum.value);
    var verdict := Validate(f.som, f.messageClass, f.messageType, f.eom);
    var scan := message.Bruteforce();
    assert scan == Scan(f.messageBytes);
    r := Ok(Report(
      direction := fields.direction,
      timestamp := fields.timestamp,
      frame := f,
      verdict := verdict,
      classLabel := ClassLabel(f.messageClass),
      typeLabel := TypeLabel(f.messageType),
      checksumValid := f.checksum == f.computedChecksum,
      lengthValid := f.messageLength == |message.bytes|,
      scan := scan));
  }
}
