/** The textual side of one trace line: `line.split(" ")` and its three
    leading fields (direction, hex frame, timestamp), and the `#` comment
    filter applied before a line is decoded. */
module Lines {
  import opened Python

  /** The number of spaces in `s`. */
  function Spaces(s: string): nat
  {
    if s == [] then 0 else (if s[0] == ' ' then 1 else 0) + Spaces(s[1..])
  }

  /** `s.split(" ")`: cut at every single space, so adjacent spaces give
      empty parts; there is always at least one part. */
  function Split(s: string): (parts: seq<string>)
    ensures |parts| == Spaces(s) + 1
    ensures forall k :: 0 <= k < |parts| ==> ' ' !in parts[k]
  {
    if s == [] then [""]
    else
      var rest := Split(s[1..]);
      if s[0] == ' ' then [""] + rest
      else [[s[0]] + rest[0]] + rest[1..]
  }

  /** `" ".join(parts)`, written as the first part followed by a space and
      each further part. */
  function Join(parts: seq<string>): string
    requires |parts| >= 1
  {
    parts[0] + Rest(parts[1..])
  }

  function Rest(parts: seq<string>): (r: string)
    ensures parts != [] ==> |r| > 0 && r[0] == ' '
  {
    if parts == [] then "" else " " + parts[0] + Rest(parts[1..])
  }

  /** Joining the parts with single spaces restores the line. */
  lemma {:induction false} JoinSplit(s: string)
    ensures Join(Split(s)) == s
  {
    if s != [] {
      var rest := Split(s[1..]);
      JoinSplit(s[1..]);
      assert Join(rest) == rest[0] + Rest(rest[1..]) == s[1..];
      if s[0] == ' ' {
        assert Split(s)[1..] == rest;
        assert Join(Split(s)) == " " + rest[0] + Rest(rest[1..]);
      } else {
        assert Split(s)[1..] == rest[1..];
        assert Join(Split(s)) == [s[0]] + rest[0] + Rest(rest[1..]);
      }
      assert [s[0]] + s[1..] == s;
    }
  }

  /** Splitting space-free parts joined by single spaces gives the parts back. */
  lemma {:induction false} SplitJoin(parts: seq<string>)
    requires |parts| >= 1
    requires forall k :: 0 <= k < |parts| ==> ' ' !in parts[k]
    ensures Split(Join(parts)) == parts
  {
    SplitPrefix(parts[0], Rest(parts[1..]));
    if |parts| == 1 {
      assert Rest(parts[1..]) == "" && Split("") == [""];
      assert parts[0] + "" == parts[0] && [parts[0]] == parts;
    } else {
      var tail := parts[1..];
      assert Rest(tail) == [' '] + Join(tail);
      SplitJoin(tail);
      SplitSpaceFirst(Join(tail));
      assert Split(Rest(tail)) == [""] + tail;
      assert parts[0] + "" == parts[0];
      assert [parts[0]] + tail == parts;
    }
  }

  lemma SplitSpaceFirst(s: string)
    ensures Split([' '] + s) == [""] + Split(s)
  {
  }

  /** A space-free word in front of text that is empty or starts with a
      space just extends that text's first part. */
  lemma {:induction false} SplitPrefix(w: string, t: string)
    requires ' ' !in w
    requires t == [] || t[0] == ' '
    ensures Split(w + t) == [w + Split(t)[0]] + Split(t)[1..]
  {
    if w != [] {
      assert w[0] in w;
      assert forall c :: c in w[1..] ==> c in w;
      assert (w + t)[0] == w[0] && (w + t)[1..] == w[1..] + t;
      SplitPrefix(w[1..], t);
      var r := Split(w[1..] + t);
      assert Split(w + t) == [[w[0]] + r[0]] + r[1..];
      assert [w[0]] + (w[1..] + Split(t)[0]) == w + Split(t)[0];
    } else {
      assert w + t == t;
      if t != [] {
        var st := Split(t);
        assert st == [""] + Split(t[1..]);
        assert st[0] == "";
        assert w + st[0] == "";
        assert [w + st[0]] + st[1..] == st;
      } else {
        assert Split(t) == [""];
      }
    }
  }

  /** The three leading fields of a trace line. */
  datatype LineFields = LineFields(direction: string, raw: string, timestamp: string)

  /** `l = line.split(" ")` followed by `l[0]`, `l[1]`, `l[2]`: IndexError
      unless the line holds at least two spaces. */
  function SplitLine(line: string): (r: Result<LineFields>)
    ensures r.Ok? <==> Spaces(line) >= 2
    ensures r.Err? ==> r.error == IndexError
    ensures r.Ok? ==>
      var f := r.value;
      ' ' !in f.direction && ' ' !in f.raw && ' ' !in f.timestamp &&
      var head := f.direction + " " + f.raw + " " + f.timestamp;
      |head| <= |line| && line[..|head|] == head &&
      (|head| < |line| ==> line[|head|] == ' ')
  {
    var l := Split(line);
    if |l| < 3 then Err(IndexError)
    else
      JoinSplit(line);
      assert Join(l) == l[0] + " " + l[1] + " " + l[2] + Rest(l[3..]) by {
        assert l[1..][0] == l[1] && l[1..][1..] == l[2..];
        assert l[2..][0] == l[2] && l[2..][1..] == l[3..];
        assert Rest(l[1..]) == " " + l[1] + Rest(l[2..]);
        assert Rest(l[2..]) == " " + l[2] + Rest(l[3..]);
      }
      Ok(LineFields(l[0], l[1], l[2]))
  }

  /** `line.startswith("#")`. */
  predicate IsComment(line: string)
  {
    |line| > 0 && line[0] == '#'
  }

  /** The lines that reach the decoder: the non-comment lines, in order. */
  function DataLines(lines: seq<string>): (r: seq<string>)
    ensures |r| <= |lines|
    ensures forall x :: x in r <==> x in lines && !IsComment(x)
  {
    if lines == [] then []
    else
      assert forall x :: x in lines <==> x == lines[0] || x in lines[1..];
      (if IsComment(lines[0]) then [] else [lines[0]]) + DataLines(lines[1..])
  }

  /** Filtering a trace made of two parts filters each part in turn, so the
      kept lines stay in trace order. */
  lemma {:induction false} DataLinesConcat(a: seq<string>, b: seq<string>)
    ensures DataLines(a + b) == DataLines(a) + DataLines(b)
  {
    if a != [] {
      assert (a + b)[0] == a[0] && (a + b)[1..] == a[1..] + b;
      DataLinesConcat(a[1..], b);
    } else {
      assert a + b == b;
    }
  }
}
