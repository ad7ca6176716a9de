# Frame decoder of the e-mount lens/camera link, in Dafny

This project models the frame decoder of `pretty.py`, a tool that decodes
captured traffic between a camera body and a lens. Each trace line holds a
direction, one frame of hex digits and a timestamp. The class `Message`:

- slices the frame into fixed fields: start marker (byte 0), a little-endian
  16-bit declared length (bytes 1-2), class, sequence number and type (bytes
  3-5), payload (`b[6:-3]`), a little-endian 16-bit checksum (`b[-3:-1]`) and
  end marker (`b[-1:]`);
- computes a second checksum from the bytes at `declared_length - 2` and
  `declared_length - 3`, using Python indexing;
- checks the markers and the class/type codes against fixed lists;
- gives the class and type codes labels;
- scans the payload with overlapping two-byte windows.

The project proves properties of all of this, over the raw bytes.

Files, one module each:

- `python.dfy` (`Python`): the Python semantics used. This covers the byte
  type, the exceptions that can be raised (`struct.error`, `IndexError`,
  `ValueError`) as a `Result`, slicing with clamped and negative bounds,
  indexing with negative wrap-around, and `struct.unpack("<H", ...)`.
- `hex.dfy` (`Hex`): `str.upper(b.hex())` and a strict `bytes.fromhex`, with
  the round trip between them.
- `lines.dfy` (`Lines`): `line.split(" ")`, its inverse `" ".join`, taking the
  three fields of a line, and the `#` comment filter.
- `frame.dfy` (`Frame`): the `Frame` value and its specification `Decode`.
  Also `Validate`, the two label functions, and the bruteforce window and scan.
  The class `Message` holds the fields as `Option`s (None until `Parse` sets
  them). Its `Parse` method fills them in source order and stops at the first
  exception. Its `Bruteforce` method is the loop of `message_bruteforce`.
  Finally, `LineReport` (a function) and `Pretty` (a method) model `pretty(line)`.
- `frame_properties.dfy` (`FrameProperties`): the lemmas, stated over the bytes.

Fields are kept the way the source keeps them: single-byte fields are the
upper-case hex text of a one-byte slice, and they are compared as strings. So
on a short buffer a missing field is the empty string, not an error. The
lemmas turn these string comparisons into statements about byte values.

What the code does at its edges (the model follows the code):

- `struct.error` is raised only on buffers shorter than three bytes (line 26).
  With three or more bytes, `IndexError` is raised exactly when the declared
  length is at least two past the buffer length (line 34). So a buffer of 3 to
  8 bytes whose declared length is below n + 2 decodes without error. Its
  payload is empty and fields past its end read as empty text.
- When the bytes of the computed checksum do not exist, `parse` raises
  `IndexError`, and nothing catches it. The model returns `Err(IndexError)`
  from `Parse`, `Decode` and `LineReport`.
- With three or more bytes present, the lower index `L - 3` is never below
  `-len(b)`. So `L >= n + 2` is the only failing case. A declared length below
  3 wraps to the end of the buffer. A declared length of 0 makes both checksums
  read the same bytes, just as `L == n` does.
- Nothing in the code catches a per-line exception. An exception raised for
  one line ends the run.
- The nine-byte frame `F0 0600 01 00 03 AABB 55` has declared length 6.
  Its computed checksum reads byte 4 (`00`, high) and byte 3 (`01`, low), which
  gives 0x0001. Its transmitted checksum is 0xBBAA (`DeclaredSixOfNine`).
- The code has no per-type payload decoder. The only payload interpretation
  is the bruteforce scan.

## Model

| member | source | states |
|---|---|---|
| `Python.Slice` | pretty.py:25-33 | a slice `s[start:stop]` has length max(0, hi - lo) with each bound clamped to [0, len] after adding len to a negative bound, and is the run of elements starting at lo |
| `Python.Index` | pretty.py:34 | `s[i]` exists exactly when -len(s) <= i < len(s), and is `s[i]` or `s[len(s) + i]` for a negative index |
| `Python.UnpackU16LE` | pretty.py:26 | `struct.unpack("<H", s)` succeeds exactly on two bytes, with low byte s[0], high byte s[1] and a value below 65536 |
| `Hex.ToHex` | pretty.py:25-33 | the hex text has two characters per byte, each an upper-case hex digit; with `FromHexToHex` and `ToHexInjective` it determines the bytes |
| `Hex.FromHex` | pretty.py:20 | a successful decode yields one byte per two characters; `FromHexToHex` shows it inverts `ToHex` |
| `Hex.FromHexToHex` | pretty.py:20 | decoding the upper-case hex of any bytes gives those bytes back |
| `Hex.ToHexInjective` | pretty.py:25-33 | two byte sequences have the same hex text exactly when they are equal |
| `Lines.Split` | pretty.py:102 | `split(" ")` gives one part more than there are spaces, and no part contains a space |
| `Lines.JoinSplit` | pretty.py:102 | joining the parts with single spaces restores the line |
| `Lines.SplitJoin` | pretty.py:102 | splitting space-free parts joined by single spaces gives the parts back |
| `Lines.SplitLine` | pretty.py:101-105 | taking `l[0]`, `l[1]`, `l[2]` succeeds exactly when the line has at least two spaces (IndexError otherwise); the three fields are space-free and the line begins with them joined by spaces, followed by the end of the line or a space |
| `Lines.DataLines` | pretty.py:112-114 | the kept lines are the non-comment lines of the trace, in order (with `DataLinesConcat`); the loop hands them to `pretty` until one raises |
| `Lines.DataLinesConcat` | pretty.py:112-114 | filtering two parts of a trace filters each in turn, so kept lines stay in trace order |
| `Frame.Message.constructor` | pretty.py:8-20 | a new message holds its direction, bytes and timestamp, and every parsed field is None |
| `Frame.Message.Parse` | pretty.py:22-34 | parse fails exactly when `Decode` does, with its exception; on success every field holds the decoded frame; on struct.error only `som` has changed; on IndexError every field except the computed checksum is set |
| `Frame.Message.SliceFields` | pretty.py:27-33 | the class, sequence, type, payload, checksum and end-marker fields are set from their slices, and the checksum unpack cannot fail once the length was unpacked |
| `Frame.Message.Bruteforce` | pretty.py:84-90 | one step per payload index; step i is the unpack of `p[i:i+2]`; every step but the last yields p[i] + 256*p[i+1]; the last step is the caught error with its index and the payload length |
| `Frame.ComputedChecksum` | pretty.py:34 | the computed checksum exists exactly when both indices `L - 2` and `L - 3` are within Python's index range, and is below 65536; `ComputedChecksumField` gives its value |
| `Frame.Decode` | pretty.py:22-34 | parse raises struct.error exactly on fewer than three bytes and never ValueError; a decoded frame's length and both checksums are below 65536 and its message text is the hex of its payload; `DecodeOutcome`, `HeaderFields`, `PayloadLayout` and `ComputedChecksumField` state the rest |
| `Frame.Validate` | pretty.py:36-48 | returns None (never True) exactly when all four checks pass; otherwise returns False naming a failing check, and every earlier check passed |
| `Frame.TypeLabel` | pretty.py:50-72 | every label starts with the code, and the label is "<code> UNKNOWN" exactly for codes outside the list that `validate` accepts |
| `Frame.ClassLabel` | pretty.py:74-82 | every label starts with the code, and the label is "<code>, UNKNOWN TOO" exactly for codes other than 01, 02, 03 |
| `Frame.Window` | pretty.py:86-90 | step i yields a value exactly when two bytes remain at i, that value is below 65536, and otherwise it is the caught error with i and the payload length |
| `Frame.Scan` | pretty.py:85-90 | one step per payload byte; `ScanShape` gives each step |
| `Frame.WindowInside` | pretty.py:87 | a window starting two or more bytes before the end decodes those two bytes little-endian |
| `Frame.WindowLast` | pretty.py:86-90 | the window at the last payload byte is one byte short and is the caught struct.error |
| `Frame.LineReport` | pretty.py:101-108 | a line with fewer than two spaces raises IndexError; a reported line has space-free direction and timestamp and one scan step per payload byte; `EncodedLineDecodes` and `ShortFrameRaises` state the outcome for a line carrying a frame's hex |
| `Frame.Pretty` | pretty.py:101-109 | splitting, building the message, parsing, validating, labelling and scanning produce exactly `LineReport(line)` |
| `FrameProperties.KnownCodesAreHex` | pretty.py:40-43 | the accepted class and type code strings are the hex of bytes 01-03 and of the ten listed type bytes |
| `FrameProperties.DeclaredLengthField` | pretty.py:26 | the declared length exists exactly when the buffer has three bytes; it is b[1] + 256*b[2], so it is below 65536 |
| `FrameProperties.TrailerChecksumField` | pretty.py:32 | for three or more bytes the transmitted checksum is b[n-3] + 256*b[n-2] |
| `FrameProperties.ComputedChecksumField` | pretty.py:34 | the computed checksum exists exactly when L < n + 2; it is 256*b[L-2] + b[L-3] for L >= 3, and for L = 2, 1, 0 the negative indices wrap to the end of the buffer |
| `FrameProperties.DecodeOutcome` | pretty.py:22-34 | parse raises struct.error exactly when n < 3, raises IndexError exactly when n >= 3 and L >= n + 2, completes otherwise, and never raises ValueError |
| `FrameProperties.HeaderFields` | pretty.py:25-33 | som, class, seq, type and eom are the hex of bytes 0, 3, 4, 5 and n-1, or empty when the buffer has no such byte; the message text is the hex of the payload |
| `FrameProperties.PayloadLayout` | pretty.py:30-31 | the payload has length max(0, n-9); for n >= 9 it is b[6..n-3], and header, payload and trailer together give back the buffer |
| `FrameProperties.LengthValidImpliesChecksumValid` | pretty.py:32-34 | when the declared length equals the buffer length, the computed checksum equals the transmitted one |
| `FrameProperties.ZeroLengthChecksumValid` | pretty.py:34 | a declared length of 0 also makes both checksums equal, through negative indexing |
| `FrameProperties.ValidateAcceptsExactly` | pretty.py:36-48 | validate returns None exactly when n >= 6, b[0] = F0, b[3] is 01-03, b[5] is one of the ten type codes and b[n-1] = 55 |
| `FrameProperties.LabelledTypesAreAccepted` | pretty.py:43-72 | a type code gets a named label exactly when validate's type check accepts it |
| `FrameProperties.ScanShape` | pretty.py:84-90 | a scan of an N-byte payload has N steps: N-1 overlapping little-endian values and exactly one caught error, at index N-1 (none when N = 0) |
| `FrameProperties.ReportLengthImpliesChecksum` | pretty.py:96-97 | wherever a line decodes, "Valid length" true implies "Valid checksum" true |
| `FrameProperties.EncodedLineDecodes` | pretty.py:101-107 | a line made of a direction, a frame's hex and a timestamp is reported with that frame, direction and timestamp when parse completes, or else fails with parse's exception |
| `FrameProperties.ShortFrameRaises` | pretty.py:26 | a frame of fewer than three bytes on a well-formed line raises struct.error |
| `FrameProperties.DeclaredSixOfNine` | pretty.py:26-34 | the frame F0 0600 01 00 03 AABB 55 decodes with length 6, checksum 0xBBAA, computed checksum 0x0001 and an empty payload |

## Left out

- Opening the trace file, reading `sys.argv` and looping over `readlines()`
  (pretty.py:111-115) are I/O. The filter in that loop is modelled
  (`DataLines`); the loop itself is not. The code has no max-lines argument.
- All printing and f-string formatting (pretty.py:23-24, 38, 41, 44, 47, 87,
  89-90, 93-97). The model returns the values being printed instead: the
  `validate` verdict with the check it reports, the labels, both validity
  flags, and each scan step.
- `Frame.Message.SliceFields` is a helper method holding lines 27-33 of
  `parse`. It exists to keep the proof of `Parse` small. The order of
  assignments and the exceptions are those of the source.
- `validate`, `pp_message_type` and `pp_message_class` are functions of the
  field values. They do not read the object. The source only calls them after
  `parse` has completed, when every field is set.
- `Hex.FromHex`: does not model the whitespace that `bytes.fromhex` skips
  between digit pairs. It accepts only text made of hex-digit pairs, and raises
  ValueError (None) on anything else.
- `message_bytes` and `computed_checksum` do not exist on a new `Message`
  (pretty.py:31, 34 create them), so reading them before `parse` would raise
  AttributeError. The model holds each absent attribute as `None`, like the
  attributes `__init__` sets to `None`; nothing reads them before `parse`.
- The `garbage` attribute (pretty.py:17) is never used and is not modelled.
- The model has no concurrency and no floating point. Integer widths are not
  an issue: every value is a byte or a 16-bit unpack, and the model is exact
  for both.
