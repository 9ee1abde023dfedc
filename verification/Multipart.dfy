/** The multipart/form-data parser (api/src/lib/multipart.ts).  A Buffer is a string whose characters are its
    bytes, which is also its latin1 decoding. */
module Multipart {
  import opened Wrappers

  type Buffer = string

  const CRLF := "\r\n"
  const HEADER_END := "\r\n\r\n"

  // ----- searching and splitting ------------------------------------------

  predicate Occurs(s: Buffer, p: Buffer, i: int) {
    0 <= i && i + |p| <= |s| && s[i..i + |p|] == p
  }

  /** `indexOf(p, from)`; the runtime's search, so specified rather than looped. */
  function IndexOf(s: Buffer, p: Buffer, from: nat): (r: Option<nat>)
    ensures r.Some? ==> from <= r.value && r.value + |p| <= |s|
    decreases |s| + 1 - from
  {
    if from + |p| > |s| then None
    else if s[from..from + |p|] == p then Some(from)
    else IndexOf(s, p, from + 1)
  }

  /** The search finds the first occurrence from `from` on, if there is one. */
  lemma {:induction false} FirstOccurrence(s: Buffer, p: Buffer, from: nat)
    ensures var r := IndexOf(s, p, from);
            && (r.Some? ==> Occurs(s, p, r.value) && forall j :: from <= j < r.value ==> !Occurs(s, p, j))
            && (r.None? ==> forall j :: from <= j ==> !Occurs(s, p, j))
    decreases |s| + 1 - from
  {
    if from + |p| <= |s| && s[from..from + |p|] != p {
      FirstOccurrence(s, p, from + 1);
      assert !Occurs(s, p, from);
    }
  }

  lemma FoundAt(s: Buffer, p: Buffer, from: nat, i: nat)
    requires from <= i && Occurs(s, p, i) && forall j :: from <= j < i ==> !Occurs(s, p, j)
    ensures IndexOf(s, p, from) == Some(i)
  {
    FirstOccurrence(s, p, from);
  }

  lemma FoundNowhere(s: Buffer, p: Buffer, from: nat)
    requires forall j :: from <= j ==> !Occurs(s, p, j)
    ensures IndexOf(s, p, from) == None
  {
    FirstOccurrence(s, p, from);
  }

  /** Leftmost, non-overlapping split. */
  function Pieces(s: Buffer, sep: Buffer): seq<Buffer>
    requires sep != ""
    decreases |s|
  {
    match IndexOf(s, sep, 0)
    case None => [s]
    case Some(i) => [s[..i]] + Pieces(s[i + |sep|..], sep)
  }

  function Join(pieces: seq<Buffer>, sep: Buffer): Buffer {
    if |pieces| == 0 then ""
    else if |pieces| == 1 then pieces[0]
    else pieces[0] + sep + Join(pieces[1..], sep)
  }

  method SplitBuffer(buf: Buffer, sep: Buffer) returns (parts: seq<Buffer>)
    requires sep != ""
    ensures parts == Pieces(buf, sep)
  {
    hide Pieces; hide IndexOf;
    parts := [];
    var start := 0;
    assert buf[0..] == buf;
    var idx := IndexOf(buf, sep, start);
    while idx.Some?
      invariant 0 <= start <= |buf| && idx == IndexOf(buf, sep, start)
      invariant parts + Pieces(buf[start..], sep) == Pieces(buf, sep)
      decreases |buf| - start
    {
      PiecesTail(buf, sep, start);
      ghost var rest := Pieces(buf[idx.value + |sep|..], sep);
      assert parts + ([buf[start..idx.value]] + rest) == (parts + [buf[start..idx.value]]) + rest;
      parts := parts + [buf[start..idx.value]];
      start := idx.value + |sep|;
      idx := IndexOf(buf, sep, start);
    }
    PiecesTail(buf, sep, start);
    parts := parts + [buf[start..]];
  }

  /** The next piece, by the offset the loop keeps. */
  lemma PiecesTail(buf: Buffer, sep: Buffer, start: nat)
    requires sep != "" && start <= |buf|
    ensures var r := IndexOf(buf, sep, start);
            Pieces(buf[start..], sep) == if r.None? then [buf[start..]]
                                         else [buf[start..r.value]] + Pieces(buf[r.value + |sep|..], sep)
  {
    hide IndexOf; hide Pieces;
    SearchTail(buf, sep, start);
    UnfoldPieces(buf[start..], sep);
    var r := IndexOf(buf, sep, start);
    if r.Some? { TailSlices(buf, start, r.value, |sep|); }
  }

  lemma TailSlices(buf: Buffer, start: nat, i: nat, n: nat)
    requires start <= i && i + n <= |buf|
    ensures buf[start..][..i - start] == buf[start..i]
    ensures buf[start..][i - start + n..] == buf[i + n..]
  {
  }

  lemma UnfoldPieces(s: Buffer, sep: Buffer)
    requires sep != ""
    ensures IndexOf(s, sep, 0).None? ==> Pieces(s, sep) == [s]
    ensures IndexOf(s, sep, 0).Some? ==>
              Pieces(s, sep) == [s[..IndexOf(s, sep, 0).value]] + Pieces(s[IndexOf(s, sep, 0).value + |sep|..], sep)
  {
    hide IndexOf;
  }

  /** Searching from `start` is searching the tail. */
  lemma SearchTail(s: Buffer, p: Buffer, start: nat)
    requires start <= |s|
    ensures var r := IndexOf(s, p, start);
            IndexOf(s[start..], p, 0) == if r.Some? then Some(r.value - start) else None
  {
    forall j | 0 <= j ensures Occurs(s[start..], p, j) <==> Occurs(s, p, start + j) {
      if start + j + |p| <= |s| { assert s[start..][j..j + |p|] == s[start + j..start + j + |p|]; }
    }
    var r := IndexOf(s, p, start);
    FirstOccurrence(s, p, start);
    hide Occurs; hide IndexOf;
    if r.Some? {
      FoundAt(s[start..], p, 0, r.value - start);
    } else {
      FoundNowhere(s[start..], p, 0);
    }
  }

  predicate Contains(s: Buffer, p: Buffer) { exists i :: 0 <= i <= |s| && Occurs(s, p, i) }

  /** The pieces joined by the separator give back the buffer, and none contains the separator. */
  lemma {:induction false} SplitThenJoin(s: Buffer, sep: Buffer)
    requires sep != ""
    ensures |Pieces(s, sep)| >= 1 && Join(Pieces(s, sep), sep) == s
    ensures forall k :: 0 <= k < |Pieces(s, sep)| ==> !Contains(Pieces(s, sep)[k], sep)
    decreases |s|
  {
    var r := IndexOf(s, sep, 0);
    FirstOccurrence(s, sep, 0);
    if r.Some? {
      var i := r.value;
      var rest := Pieces(s[i + |sep|..], sep);
      SplitThenJoin(s[i + |sep|..], sep);
      PieceIsClean(s, sep, i);
      assert s[i..i + |sep|] == sep by { OccursMeans(s, sep, i); }
      hide IndexOf; hide Occurs; hide Contains;
      assert ([s[..i]] + rest)[1..] == rest;
      assert s == s[..i] + s[i..i + |sep|] + s[i + |sep|..];
    } else {
      NoneContained(s, sep);
    }
  }

  lemma NoneContained(s: Buffer, p: Buffer)
    requires forall j :: 0 <= j ==> !Occurs(s, p, j)
    ensures !Contains(s, p)
  {
  }

  lemma OccursMeans(s: Buffer, p: Buffer, i: nat)
    requires Occurs(s, p, i)
    ensures i + |p| <= |s| && s[i..i + |p|] == p
  {
  }

  lemma PieceIsClean(s: Buffer, sep: Buffer, i: nat)
    requires sep != "" && i <= |s| && forall j :: 0 <= j < i ==> !Occurs(s, sep, j)
    ensures !Contains(s[..i], sep)
  {
    forall j | 0 <= j ensures !Occurs(s[..i], sep, j) {
      if j + |sep| <= i {
        assert s[..i][j..j + |sep|] == s[j..j + |sep|];
        assert !Occurs(s, sep, j);
      }
    }
  }

  /** A prefix after which the separator first occurs is the first piece. */
  lemma FirstPiece(head: Buffer, sep: Buffer, tail: Buffer)
    requires sep != "" && forall j :: 0 <= j < |head| ==> !Occurs(head + sep + tail, sep, j)
    ensures Pieces(head + sep + tail, sep) == [head] + Pieces(tail, sep)
  {
    var s := head + sep + tail;
    assert s[|head|..|head| + |sep|] == sep;
    FoundAt(s, sep, 0, |head|);
    assert s[..|head|] == head && s[|head| + |sep|..] == tail;
  }

  // ----- part framing -----------------------------------------------------

  function Trimmed(buf: Buffer): Buffer {
    var front := if |buf| >= 2 && buf[0] == '\r' && buf[1] == '\n' then buf[2..] else buf;
    if |front| >= 2 && front[|front| - 2] == '\r' && front[|front| - 1] == '\n' then front[..|front| - 2] else front
  }

  method TrimSurroundingCrlf(buf: Buffer) returns (result: Buffer)
    ensures result == Trimmed(buf)
    ensures forall body :: buf == CRLF + body + CRLF ==> result == body
  {
    result := buf;
    if |result| >= 2 && result[0] == '\r' && result[1] == '\n' {
      result := result[2..];
    }
    if |result| >= 2 && result[|result| - 2] == '\r' && result[|result| - 1] == '\n' {
      result := result[..|result| - 2];
    }
    forall body | buf == CRLF + body + CRLF ensures result == body { TrimFramed(body); }
  }

  /** Exactly one line break goes on each side, whatever the body begins and ends with. */
  lemma TrimFramed(body: Buffer)
    ensures Trimmed(CRLF + body + CRLF) == body
  {
    var buf := CRLF + body + CRLF;
    assert buf[2..] == body + CRLF;
    assert (body + CRLF)[..|body|] == body;
  }

  // ----- part headers -----------------------------------------------------

  function Lower(c: char): char { if 'A' <= c <= 'Z' then (c as int + 32) as char else c }

  /** `/^prefix/i` for a lower-case ASCII prefix. */
  predicate StartsWithAnyCase(line: Buffer, prefix: Buffer) {
    |prefix| <= |line| && forall i :: 0 <= i < |prefix| ==> Lower(line[i]) == prefix[i]
  }

  /** `/key="([^"]*)"/`: the leftmost key, captured up to the next quote. */
  function QuotedParam(line: Buffer, key: Buffer): Option<Buffer> {
    match IndexOf(line, key + "=\"", 0)
    case None => None
    case Some(i) =>
      var start := i + |key| + 2;
      match IndexOf(line, "\"", start)
      case None => None
      case Some(end) => Some(line[start..end])
  }

  /** JavaScript white space within latin1. */
  predicate IsSpace(c: char) {
    c == ' ' || c == '\t' || c == '\n' || c == '\r' || c == 11 as char || c == 12 as char || c == 160 as char
  }

  function TrimStart(s: Buffer): Buffer { if s != "" && IsSpace(s[0]) then TrimStart(s[1..]) else s }
  function TrimEnd(s: Buffer): Buffer { if s != "" && IsSpace(s[|s| - 1]) then TrimEnd(s[..|s| - 1]) else s }
  function Trim(s: Buffer): Buffer { TrimEnd(TrimStart(s)) }

  datatype Headers = Headers(name: Option<Buffer>, filename: Option<Buffer>, contentType: Option<Buffer>)

  const NO_HEADERS := Headers(None, None, None)

  function HeaderLine(h: Headers, line: Buffer): Headers {
    if |line| == 0 then h
    else if StartsWithAnyCase(line, "content-disposition:") then
      h.(name := QuotedParam(line, "name"), filename := QuotedParam(line, "filename"))
    else if StartsWithAnyCase(line, "content-type:") then
      var colon := IndexOf(line, ":", 0);
      h.(contentType := Some(Trim(if colon.Some? then line[colon.value + 1..] else line)))
    else h
  }

  function HeaderLines(lines: seq<Buffer>): Headers {
    if lines == [] then NO_HEADERS else HeaderLine(HeaderLines(lines[..|lines| - 1]), lines[|lines| - 1])
  }

  method ParsePartHeaders(headerText: Buffer) returns (r: Option<Headers>)
    ensures var h := HeaderLines(Pieces(headerText, CRLF));
            r == if h.name.None? then None else Some(h)
  {
    var lines := SplitBuffer(headerText, CRLF);
    var name, filename, contentType := None, None, None;
    for i := 0 to |lines|
      invariant Headers(name, filename, contentType) == HeaderLines(lines[..i])
    {
      assert lines[..i + 1][..i] == lines[..i];
      var line := lines[i];
      if |line| == 0 { continue; }
      if StartsWithAnyCase(line, "content-disposition:") {
        name := QuotedParam(line, "name");
        filename := QuotedParam(line, "filename");
      } else if StartsWithAnyCase(line, "content-type:") {
        var colon := IndexOf(line, ":", 0);
        contentType := Some(Trim(if colon.Some? then line[colon.value + 1..] else line));
      }
    }
    assert lines[..|lines|] == lines;
    r := if name.None? then None else Some(Headers(name, filename, contentType));
  }

  // ----- the whole body ---------------------------------------------------

  datatype File = File(filename: Buffer, contentType: Buffer, content: Buffer)

  datatype Parsed = Parsed(fields: map<Buffer, seq<Buffer>>, file: Option<File>)

  /** What `push` on an inherited property raises. */
  datatype Thrown = TypeError

  /** Every plain object inherits these, so `fields[name] ?? []` finds no list and no absence either. */
  const INHERITED: set<Buffer> := {
    "constructor", "toString", "valueOf", "toLocaleString", "hasOwnProperty", "isPrototypeOf", "propertyIsEnumerable",
    "__proto__", "__defineGetter__", "__defineSetter__", "__lookupGetter__", "__lookupSetter__"
  }

  const OCTET_STREAM := "application/octet-stream"

  function AddPart(p: Parsed, h: Headers, content: Buffer): Result<Parsed, Thrown>
    requires h.name.Some?
  {
    if h.filename.Some? then
      Ok(p.(file := Some(File(h.filename.value, if h.contentType.Some? then h.contentType.value else OCTET_STREAM, content))))
    else if h.name.value in INHERITED then Err(TypeError)
    else
      var list := if h.name.value in p.fields then p.fields[h.name.value] else [];
      Ok(p.(fields := p.fields[h.name.value := list + [content]]))
  }

  function AddSegment(p: Parsed, raw: Buffer): Result<Parsed, Thrown> {
    var segment := Trimmed(raw);
    match IndexOf(segment, HEADER_END, 0)
    case None => Ok(p)
    case Some(end) =>
      var h := HeaderLines(Pieces(segment[..end], CRLF));
      if h.name.None? then Ok(p) else AddPart(p, h, segment[end + 4..])
  }

  function AddSegments(segments: seq<Buffer>): Result<Parsed, Thrown> {
    if segments == [] then Ok(Parsed(map[], None))
    else
      match AddSegments(segments[..|segments| - 1])
      case Err(e) => Err(e)
      case Ok(p) => AddSegment(p, segments[|segments| - 1])
  }

  /** `slice(1, -1)`: neither preamble nor epilogue. */
  function Inner(segments: seq<Buffer>): seq<Buffer> {
    if |segments| < 2 then [] else segments[1..|segments| - 1]
  }

  method ParseMultipart(body: Buffer, boundary: Buffer) returns (r: Result<Parsed, Thrown>)
    ensures r == AddSegments(Inner(Pieces(body, "--" + boundary)))
  {
    var segments := SplitBuffer(body, "--" + boundary);
    var inner := Inner(segments);
    var parsed := Parsed(map[], None);
    for i := 0 to |inner|
      invariant Ok(parsed) == AddSegments(inner[..i])
    {
      assert inner[..i + 1][..i] == inner[..i];
      var segment := TrimSurroundingCrlf(inner[i]);
      var headerEnd := IndexOf(segment, HEADER_END, 0);
      if headerEnd.None? { continue; }
      var headers := ParsePartHeaders(segment[..headerEnd.value]);
      if headers.None? { continue; }
      var added := AddPart(parsed, headers.value, segment[headerEnd.value + 4..]);
      if added.Err? {
        ErrorStays(inner, i + 1);
        return added;
      }
      parsed := added.value;
    }
    assert inner[..|inner|] == inner;
    return Ok(parsed);
  }

  /** An exception ends the whole parse. */
  lemma {:induction false} ErrorStays(segments: seq<Buffer>, i: nat)
    requires i <= |segments| && AddSegments(segments[..i]).Err?
    ensures AddSegments(segments) == AddSegments(segments[..i])
  {
    if i == |segments| {
      assert segments[..i] == segments;
    } else {
      var init := segments[..|segments| - 1];
      assert init[..i] == segments[..i];
      ErrorStays(init, i);
    }
  }
}
