/** The parser inverts the encoding of RFC 2046 section 5.1.1 with the part headers of RFC 7578 section 4. */
module MultipartRoundTrip {
  import opened Wrappers
  import opened Multipart

  datatype Part =
    | FieldPart(name: Buffer, content: Buffer)
    | FilePart(name: Buffer, filename: Buffer, contentType: Option<Buffer>, content: Buffer)

  // ----- the encoder ------------------------------------------------------

  function Disposition(): Buffer { "Content-Disposition: form-data; name=\"" }
  function TypePrefix(): Buffer { "Content-Type: " }

  function DispositionLine(p: Part): Buffer {
    Disposition() + p.name + "\"" + if p.FilePart? then "; filename=\"" + p.filename + "\"" else ""
  }

  function Header(p: Part): Buffer {
    DispositionLine(p) + if p.FilePart? && p.contentType.Some? then CRLF + (TypePrefix() + p.contentType.value) else ""
  }

  /** A part between its delimiters; the line breaks around it belong to the delimiters. */
  function Framed(p: Part): Buffer { CRLF + (Header(p) + HEADER_END + p.content) + CRLF }

  /** What follows the first delimiter: parts with a delimiter after each, then the closing mark. */
  function AfterDelimiter(parts: seq<Part>, delimiter: Buffer): Buffer {
    if parts == [] then "--" + CRLF else Framed(parts[0]) + delimiter + AfterDelimiter(parts[1..], delimiter)
  }

  function Encode(parts: seq<Part>, delimiter: Buffer): Buffer { delimiter + AfterDelimiter(parts, delimiter) }

  // ----- what a sender must respect ---------------------------------------

  predicate NoBreak(s: Buffer) { !Contains(s, CRLF) }
  predicate NoQuote(s: Buffer) { '"' !in s }
  predicate EndsWith(s: Buffer, t: Buffer) { |t| <= |s| && s[|s| - |t|..] == t }

  /** Names without quotes and line breaks, a type without surrounding white space. */
  predicate PlainPart(p: Part) {
    && NoQuote(p.name) && NoBreak(p.name)
    && (p.FilePart? ==>
          && NoQuote(p.filename) && NoBreak(p.filename)
          && (p.contentType.Some? ==> NoBreak(p.contentType.value) && Trim(p.contentType.value) == p.contentType.value))
  }

  /** The only way a plain name can still be misread: it swallows the file name's key. */
  predicate Misread(p: Part) {
    p.FilePart? && EndsWith(p.name, "filename=") && p.filename != "; filename="
  }

  /** A delimiter that occurs in no header and no content, and has no line break in it. */
  predicate Separates(delimiter: Buffer, p: Part) {
    && delimiter != "" && '\r' !in delimiter && '\n' !in delimiter
    && !Contains(Header(p), delimiter) && !Contains(p.content, delimiter)
  }

  // ----- no delimiter inside a framed part --------------------------------

  lemma CharOf(s: Buffer, p: Buffer, i: int, k: nat)
    requires k < |p|
    ensures Occurs(s, p, i) ==> 0 <= i + k < |s| && s[i + k] == p[k]
    ensures p[k] in p
  {
    if Occurs(s, p, i) { assert s[i..i + |p|][k] == s[i + k]; }
  }

  /** Nothing without a line break occurs across one. */
  lemma NoneAcrossBreak(a: Buffer, rest: Buffer, d: Buffer, i: int)
    requires d != "" && '\r' !in d && '\n' !in d
    ensures Occurs(a + CRLF + rest, d, i) ==> Occurs(a, d, i) || (i >= |a| + 2 && Occurs(rest, d, i - |a| - 2))
  {
    var s := a + CRLF + rest;
    assert s[|a|] == '\r' && s[|a| + 1] == '\n';
    if 0 <= i <= |a| + 1 && i + |d| > |a| {
      var k := if i <= |a| then |a| else |a| + 1;
      CharOf(s, d, i, k - i);
    } else if 0 <= i < |a| {
      assert s[i..i + |d|] == a[i..i + |d|];
    } else if i >= 0 && i + |d| <= |s| {
      assert s[i..i + |d|] == rest[i - |a| - 2..i - |a| - 2 + |d|];
    }
  }

  lemma NotContained(s: Buffer, d: Buffer, i: int)
    requires !Contains(s, d)
    ensures !Occurs(s, d, i)
  {
  }

  lemma DelimiterFirstAfterPart(p: Part, d: Buffer, tail: Buffer, i: nat)
    requires Separates(d, p) && i < |Framed(p)|
    ensures !Occurs(Framed(p) + d + tail, d, i)
  {
    hide Occurs; hide Contains; hide Header;
    var afterContent := d + tail;
    var afterBlank := p.content + CRLF + afterContent;
    var afterHeader := "" + CRLF + afterBlank;
    var afterFront := Header(p) + CRLF + afterHeader;
    assert HEADER_END == CRLF + CRLF;
    assert Framed(p) + d + tail == "" + CRLF + afterFront;
    NoneAcrossBreak("", afterFront, d, i);
    NotContained("", d, i) by { NothingInEmpty(d); }
    NoneAcrossBreak(Header(p), afterHeader, d, i - 2);
    NotContained(Header(p), d, i - 2);
    var k := i - |Header(p)| - 4;
    NoneAcrossBreak("", afterBlank, d, k);
    NotContained("", d, k) by { NothingInEmpty(d); }
    NoneAcrossBreak(p.content, afterContent, d, k - 2);
    NotContained(p.content, d, k - 2);
    assert |Framed(p)| == |Header(p)| + |p.content| + 8;
  }

  lemma NothingInEmpty(d: Buffer)
    requires d != ""
    ensures !Contains("", d)
  {
  }

  function FramedAll(parts: seq<Part>): seq<Buffer> {
    seq(|parts|, i requires 0 <= i < |parts| => Framed(parts[i]))
  }

  lemma {:induction false} PiecesAfterDelimiter(parts: seq<Part>, d: Buffer)
    requires d != "" && !Contains("--" + CRLF, d) && forall i :: 0 <= i < |parts| ==> Separates(d, parts[i])
    ensures Pieces(AfterDelimiter(parts, d), d) == FramedAll(parts) + ["--" + CRLF]
  {
    if parts == [] {
      ClosingMark(d);
      assert FramedAll(parts) + ["--" + CRLF] == ["--" + CRLF];
    } else {
      FirstFramed(parts, d);
      hide Pieces; hide Framed; hide Separates; hide Contains; hide FramedAll; hide AfterDelimiter;
      PiecesAfterDelimiter(parts[1..], d);
      PieceOfPart(parts[0], d, AfterDelimiter(parts[1..], d));
    }
  }

  lemma FirstFramed(parts: seq<Part>, d: Buffer)
    requires parts != []
    ensures FramedAll(parts) == [Framed(parts[0])] + FramedAll(parts[1..])
    ensures AfterDelimiter(parts, d) == Framed(parts[0]) + d + AfterDelimiter(parts[1..], d)
  {
    hide Framed;
  }

  lemma ClosingMark(d: Buffer)
    requires d != "" && !Contains("--" + CRLF, d)
    ensures Pieces("--" + CRLF, d) == ["--" + CRLF]
  {
    var close := "--" + CRLF;
    forall j ensures !Occurs(close, d, j) { NotContained(close, d, j); }
    FoundNowhere(close, d, 0);
  }

  lemma PieceOfPart(p: Part, d: Buffer, tail: Buffer)
    requires Separates(d, p)
    ensures Pieces(Framed(p) + d + tail, d) == [Framed(p)] + Pieces(tail, d)
  {
    forall j | 0 <= j < |Framed(p)| ensures !Occurs(Framed(p) + d + tail, d, j) {
      DelimiterFirstAfterPart(p, d, tail, j);
    }
    hide Pieces; hide IndexOf; hide Occurs; hide Framed;
    FirstPiece(Framed(p), d, tail);
  }

  /** The split of an encoding: an empty preamble, the framed parts, the closing mark. */
  lemma PiecesOfEncoding(parts: seq<Part>, d: Buffer)
    requires d != "" && !Contains("--" + CRLF, d) && forall i :: 0 <= i < |parts| ==> Separates(d, parts[i])
    ensures Inner(Pieces(Encode(parts, d), d)) == FramedAll(parts)
  {
    hide Pieces; hide Occurs; hide FramedAll; hide Separates; hide AfterDelimiter; hide Contains;
    PiecesAfterDelimiter(parts, d);
    var tail, framed, close := AfterDelimiter(parts, d), FramedAll(parts), "--" + CRLF;
    FirstPiece("", d, tail);
    assert "" + d + tail == Encode(parts, d);
    InnerOf(framed, close);
  }

  lemma InnerOf(framed: seq<Buffer>, close: Buffer)
    ensures Inner([""] + (framed + [close])) == framed
  {
  }

  // ----- the headers of one part ------------------------------------------

  lemma DispositionLength()
    ensures |Disposition()| == 38 && Disposition()[28] == 't' && Disposition()[32..] == "name=\""
  {
  }

  lemma DispositionHasNoName()
    ensures |Disposition()| == 38
    ensures forall i :: 0 <= i < 32 ==> !(Disposition()[i] == 'n' && Disposition()[i + 1] == 'a')
  {
  }

  lemma DispositionQuotes()
    ensures |Disposition()| == 38
    ensures forall i :: 0 <= i < 38 ==> (Disposition()[i] == '"' <==> i == 37)
  {
  }

  lemma DispositionUnbroken()
    ensures |Disposition()| == 38
    ensures forall i :: 0 <= i < 38 ==> Disposition()[i] != '\r' && Disposition()[i] != '\n'
  {
  }

  lemma DispositionLower()
    ensures |Disposition()| == 38
    ensures forall i :: 0 <= i < 20 ==> Lower(Disposition()[i]) == "content-disposition:"[i]
  {
  }

  /** The literal's characters, as far as the parser looks at them. */
  lemma DispositionChars()
    ensures |Disposition()| == 38 && Disposition()[28] == 't' && Disposition()[32..] == "name=\""
    ensures forall i :: 0 <= i < 32 ==> !(Disposition()[i] == 'n' && Disposition()[i + 1] == 'a')
    ensures forall i :: 0 <= i < 38 ==> (Disposition()[i] == '"' <==> i == 37) && Disposition()[i] != '\r' && Disposition()[i] != '\n'
    ensures forall i :: 0 <= i < 20 ==> Lower(Disposition()[i]) == "content-disposition:"[i]
  {
    hide Disposition; hide Lower;
    DispositionLength();
    DispositionHasNoName();
    DispositionQuotes();
    DispositionUnbroken();
    DispositionLower();
  }

  /** The first quote after the opening one closes the name. */
  lemma NextQuote(line: Buffer, start: nat, value: Buffer, rest: Buffer)
    requires NoQuote(value) && start + |value| < |line|
    requires line[start..] == value + "\"" + rest
    ensures IndexOf(line, "\"", start) == Some(start + |value|)
    ensures line[start..start + |value|] == value
  {
    var q := start + |value|;
    assert line[q] == line[start..][|value|] == '"';
    assert line[q..q + 1] == "\"";
    forall j | start <= j < q ensures !Occurs(line, "\"", j) {
      assert line[j] == line[start..][j - start] == value[j - start];
      assert line[j] in value;
      CharOf(line, "\"", j, 0);
    }
    FoundAt(line, "\"", start, q);
    assert line[start..q] == line[start..][..|value|];
  }

  lemma NameOf(p: Part)
    requires NoQuote(p.name)
    ensures QuotedParam(DispositionLine(p), "name") == Some(p.name)
  {
    var line := DispositionLine(p);
    var rest := if p.FilePart? then "; filename=\"" + p.filename + "\"" else "";
    NameKey(p, line, rest);
    assert "name=\"" == "name" + "=\"";
    hide IndexOf; hide DispositionLine;
    Captured(line, "name", "name=\"", 32, p.name, rest);
  }

  lemma Regroup(a: Buffer, b: Buffer, c: Buffer, d: Buffer)
    ensures a + b + c + d == a + (b + c + d)
    ensures (a + (b + c + d))[|a|..] == b + c + d
  {
  }

  lemma NameKey(p: Part, line: Buffer, rest: Buffer)
    requires line == DispositionLine(p) && rest == if p.FilePart? then "; filename=\"" + p.filename + "\"" else ""
    ensures IndexOf(line, "name=\"", 0) == Some(32)
    ensures 38 + |p.name| < |line| && line[38..] == p.name + "\"" + rest
  {
    hide Disposition; hide IndexOf;
    DispositionChars();
    assert line == Disposition() + p.name + "\"" + rest;
    hide DispositionLine;
    Regroup(Disposition(), p.name, "\"", rest);
    KeyInDisposition(line, p.name + "\"" + rest);
  }

  lemma KeyInDisposition(line: Buffer, tail: Buffer)
    requires |Disposition()| == 38 && line == Disposition() + tail
    ensures IndexOf(line, "name=\"", 0) == Some(32)
  {
    hide Disposition;
    DispositionChars();
    assert line[32..38] == Disposition()[32..];
    forall j | 0 <= j < 32 ensures !Occurs(line, "name=\"", j) {
      assert line[j] == Disposition()[j] && line[j + 1] == Disposition()[j + 1];
      CharOf(line, "name=\"", j, 0);
      CharOf(line, "name=\"", j, 1);
    }
    FoundAt(line, "name=\"", 0, 32);
  }

  /** Where a file-name key can start: only right before one of the quotes that follow a `=`. */
  lemma KeyBeforeQuote(line: Buffer, j: nat)
    ensures Occurs(line, "filename=\"", j) ==>
              && j + 10 <= |line| && line[j + 9] == '"' && line[j..j + 9] == "filename=" && '"' !in line[j..j + 9] && line[j] == 'f'
  {
    if Occurs(line, "filename=\"", j) {
      assert line[j..j + 9] == line[j..j + 10][..9] == "filename=\""[..9];
      assert "filename=\""[..9] == "filename=";
      CharOf(line, "filename=\"", j, 9);
      CharOf(line, "filename=\"", j, 0);
      assert '"' !in "filename=";
    }
  }

  /** Within the first part of the line, up to the name's closing quote, the key occurs exactly if the name ends with it. */
  lemma KeyInName(p: Part, line: Buffer, j: nat)
    requires NoQuote(p.name) && line == DispositionLine(p) && j + 9 <= 38 + |p.name|
    ensures Occurs(line, "filename=\"", j) <==> EndsWith(p.name, "filename=") && j == 38 + |p.name| - 9
  {
    hide Disposition;
    DispositionChars();
    var q := 38 + |p.name|;
    var rest := if p.FilePart? then "; filename=\"" + p.filename + "\"" else "";
    assert line == Disposition() + p.name + "\"" + rest;
    assert line[37] == '"' && line[q] == '"';
    assert line[..q] == Disposition() + p.name;
    KeyBeforeQuote(line, j);
    QuotesOf(p, line);
    if j + 9 == q {
      KeyEndsName(p, line, q);
    } else if j + 9 == 37 {
      assert line[28] == Disposition()[28] == 't';
    }
  }

  lemma KeyEndsName(p: Part, line: Buffer, q: nat)
    requires NoQuote(p.name) && q == 38 + |p.name| < |line| && line[..q] == Disposition() + p.name && line[q] == '"' && line[37] == '"'
    ensures Occurs(line, "filename=\"", q - 9) <==> EndsWith(p.name, "filename=")
  {
    KeyBeforeQuote(line, q - 9);
    if |p.name| >= 9 {
      assert line[q - 9..q] == line[..q][q - 9..] == p.name[|p.name| - 9..];
      assert line[q - 9..q + 1] == line[q - 9..q] + "\"";
      assert "filename=" + "\"" == "filename=\"";
    } else {
      assert line[q - 9..q][37 - (q - 9)] in line[q - 9..q];
    }
  }

  lemma QuotesOf(p: Part, line: Buffer)
    requires NoQuote(p.name) && line == DispositionLine(p)
    ensures forall k :: 0 <= k <= 38 + |p.name| ==> (line[k] == '"' <==> k == 37 || k == 38 + |p.name|)
  {
    hide Disposition;
    DispositionChars();
    forall k | 0 <= k <= 38 + |p.name| ensures line[k] == '"' <==> k == 37 || k == 38 + |p.name| {
      if k < 38 {
        assert line[k] == Disposition()[k];
      } else if k < 38 + |p.name| {
        assert line[k] == p.name[k - 38];
        assert p.name[k - 38] in p.name;
      }
    }
  }

  /** The first key in a disposition line: inside a name that ends with it, else the real one, if any. */
  lemma KeyPosition(p: Part, line: Buffer)
    requires NoQuote(p.name) && line == DispositionLine(p)
    ensures IndexOf(line, "filename=\"", 0) ==
              if EndsWith(p.name, "filename=") then Some(38 + |p.name| - 9)
              else if p.FilePart? then Some(38 + |p.name| + 3) else None
  {
    hide Disposition;
    DispositionChars();
    var q := 38 + |p.name|;
    if EndsWith(p.name, "filename=") {
      forall j | 0 <= j < q - 9 ensures !Occurs(line, "filename=\"", j) { KeyInName(p, line, j); }
      KeyInName(p, line, q - 9);
      FoundAt(line, "filename=\"", 0, q - 9);
    } else if p.FilePart? {
      FileKey(p, line, q);
      FoundAt(line, "filename=\"", 0, q + 3);
    } else {
      forall j | 0 <= j ensures !Occurs(line, "filename=\"", j) {
        if j + 9 <= q { KeyInName(p, line, j); }
      }
      FoundNowhere(line, "filename=\"", 0);
    }
  }

  lemma FileKey(p: Part, line: Buffer, q: nat)
    requires NoQuote(p.name) && line == DispositionLine(p) && p.FilePart? && q == 38 + |p.name|
    requires |Disposition()| == 38 && !EndsWith(p.name, "filename=")
    ensures Occurs(line, "filename=\"", q + 3)
    ensures forall j :: 0 <= j < q + 3 ==> !Occurs(line, "filename=\"", j)
  {
    var key := "\"; filename=\"";
    assert line == (Disposition() + p.name) + key + (p.filename + "\"");
    assert line[q..q + 13] == key;
    assert line[q + 3..q + 13] == key[3..] == "filename=\"";
    forall j | 0 <= j < q + 3 ensures !Occurs(line, "filename=\"", j) {
      if j + 9 <= q {
        KeyInName(p, line, j);
      } else {
        KeyBeforeQuote(line, j);
        assert line[j + 9] == key[j + 9 - q];
      }
    }
  }

  /** The file name read back: the sent one, except after a name that swallows the key. */
  lemma FilenameOf(p: Part)
    requires PlainPart(p)
    ensures QuotedParam(DispositionLine(p), "filename") ==
              if p.FieldPart? then None
              else if EndsWith(p.name, "filename=") then Some("; filename=") else Some(p.filename)
  {
    var line := DispositionLine(p);
    var q := 38 + |p.name|;
    KeyPosition(p, line);
    assert "filename=\"" == "filename" + "=\"";
    hide IndexOf; hide DispositionLine; hide EndsWith;
    if p.FilePart? {
      if EndsWith(p.name, "filename=") {
        SwallowedTail(p, line, q);
        Captured(line, "filename", "filename=\"", q - 9, "; filename=", p.filename + "\"");
      } else {
        FileTail(p, line, q);
        Captured(line, "filename", "filename=\"", q + 3, p.filename, "");
      }
    } else if EndsWith(p.name, "filename=") {
      NoTail(p, line, q);
    }
  }

  /** A key found at `i` whose value is closed by a quote is captured. */
  lemma Captured(line: Buffer, key: Buffer, full: Buffer, i: nat, value: Buffer, rest: Buffer)
    requires full == key + "=\"" && IndexOf(line, full, 0) == Some(i) && NoQuote(value)
    requires i + |key| + 2 + |value| < |line| && line[i + |key| + 2..] == value + "\"" + rest
    ensures QuotedParam(line, key) == Some(value)
  {
    hide IndexOf; hide NoQuote;
    NextQuote(line, i + |key| + 2, value, rest);
  }

  lemma SwallowedTail(p: Part, line: Buffer, q: nat)
    requires line == DispositionLine(p) && p.FilePart? && q == 38 + |p.name|
    ensures NoQuote("; filename=") && |"; filename="| == 11 && q + 12 < |line|
    ensures line[q + 1..] == "; filename=" + "\"" + (p.filename + "\"")
  {
    hide Disposition;
    DispositionChars();
    assert "; filename=\"" == "; filename=" + "\"";
    assert line == (Disposition() + p.name + "\"") + ("; filename=" + "\"" + (p.filename + "\""));
  }

  lemma FileTail(p: Part, line: Buffer, q: nat)
    requires line == DispositionLine(p) && p.FilePart? && q == 38 + |p.name|
    ensures q + 13 + |p.filename| < |line| && line[q + 13..] == p.filename + "\"" + ""
  {
    hide Disposition;
    DispositionChars();
    assert line == (Disposition() + p.name + "\"" + "; filename=\"") + (p.filename + "\"" + "");
  }

  lemma NoTail(p: Part, line: Buffer, q: nat)
    requires line == DispositionLine(p) && p.FieldPart? && q == 38 + |p.name|
    ensures IndexOf(line, "\"", q + 1) == None
  {
    hide Disposition;
    DispositionChars();
    assert |line| == q + 1;
    FoundNowhere(line, "\"", q + 1);
  }

  // ----- lines ------------------------------------------------------------

  predicate BreakAt(s: Buffer, i: int) { 0 <= i && i + 1 < |s| && s[i] == '\r' && s[i + 1] == '\n' }

  lemma BreakIsCrlf(s: Buffer, i: int)
    ensures BreakAt(s, i) <==> Occurs(s, CRLF, i)
  {
    if 0 <= i && i + 2 <= |s| { assert s[i..i + 2] == [s[i], s[i + 1]]; }
  }

  lemma NoBreakMeans(s: Buffer)
    ensures NoBreak(s) <==> forall i :: !BreakAt(s, i)
  {
    forall i ensures BreakAt(s, i) <==> Occurs(s, CRLF, i) { BreakIsCrlf(s, i); }
  }

  /** Joining break-free texts makes no break unless a carriage return meets a line feed. */
  lemma NoBreakJoin(a: Buffer, b: Buffer)
    requires NoBreak(a) && NoBreak(b)
    requires a == "" || a[|a| - 1] != '\r' || b == "" || b[0] != '\n'
    ensures NoBreak(a + b)
  {
    NoBreakMeans(a);
    NoBreakMeans(b);
    NoBreakMeans(a + b);
    forall i ensures !BreakAt(a + b, i) {
      assert !BreakAt(a, i) && !BreakAt(b, i - |a|);
    }
  }

  lemma DispositionOneLine(p: Part)
    requires PlainPart(p)
    ensures var line := DispositionLine(p); NoBreak(line) && line != "" && line[|line| - 1] == '"'
  {
    hide Disposition;
    DispositionChars();
    NoBreakMeans(Disposition());
    NoBreakMeans("\"");
    NoBreakMeans("; filename=\"");
    NoBreakJoin(Disposition(), p.name);
    NoBreakJoin(Disposition() + p.name, "\"");
    if p.FilePart? {
      NoBreakJoin(Disposition() + p.name + "\"", "; filename=\"");
      NoBreakJoin(Disposition() + p.name + "\"" + "; filename=\"", p.filename);
      NoBreakJoin(Disposition() + p.name + "\"" + "; filename=\"" + p.filename, "\"");
      assert DispositionLine(p) == Disposition() + p.name + "\"" + "; filename=\"" + p.filename + "\"";
    } else {
      assert DispositionLine(p) == Disposition() + p.name + "\"";
    }
  }

  lemma TrimEndLast(s: Buffer)
    ensures TrimEnd(s) == "" || !IsSpace(TrimEnd(s)[|TrimEnd(s)| - 1])
  {
  }

  lemma TypeOneLine(t: Buffer)
    requires NoBreak(t) && Trim(t) == t
    ensures var line := TypePrefix() + t; NoBreak(line) && line[|line| - 1] != '\r' && line[0] == 'C'
  {
    NoBreakMeans(TypePrefix());
    NoBreakJoin(TypePrefix(), t);
    TrimEndLast(TrimStart(t));
  }

  function HeadersOf(p: Part): Headers {
    match p
    case FieldPart(name, _) => Headers(Some(name), None, None)
    case FilePart(name, filename, contentType, _) => Headers(Some(name), Some(filename), contentType)
  }

  /** The part as the parser sees it: a name that ends with the file name's key swallows it. */
  function AsRead(p: Part): Part {
    if p.FilePart? && EndsWith(p.name, "filename=") then p.(filename := "; filename=") else p
  }

  lemma DispositionRead(p: Part)
    requires PlainPart(p)
    ensures HeaderLine(NO_HEADERS, DispositionLine(p)) == HeadersOf(AsRead(p)).(contentType := None)
  {
    var line := DispositionLine(p);
    hide Disposition;
    DispositionChars();
    assert forall i :: 0 <= i < 20 ==> line[i] == Disposition()[i];
    assert |"content-disposition:"| == 20;
    NameOf(p);
    FilenameOf(p);
    hide QuotedParam; hide DispositionLine; hide Lower;
    assert StartsWithAnyCase(line, "content-disposition:") by { StartsLike(line); }
  }

  lemma StartsLike(line: Buffer)
    requires |line| >= 20 && forall i :: 0 <= i < 20 ==> Lower(line[i]) == "content-disposition:"[i]
    ensures StartsWithAnyCase(line, "content-disposition:")
  {
  }

  lemma TypeRead(h: Headers, t: Buffer)
    requires Trim(t) == t
    ensures HeaderLine(h, TypePrefix() + t) == h.(contentType := Some(t))
  {
    var line := TypePrefix() + t;
    TypePrefixChars();
    assert line[8] == 'T' && "content-disposition:"[8] == 'd';
    assert !StartsWithAnyCase(line, "content-disposition:");
    assert forall i :: 0 <= i < 13 ==> line[i] == TypePrefix()[i];
    assert StartsWithAnyCase(line, "content-type:");
    assert line[12..13] == ":";
    forall j | 0 <= j < 12 ensures !Occurs(line, ":", j) { CharOf(line, ":", j, 0); }
    FoundAt(line, ":", 0, 12);
    assert line[13..] == " " + t;
    assert TrimStart(" " + t) == TrimStart(t) by { assert (" " + t)[1..] == t; }
  }

  lemma TypePrefixChars()
    ensures |TypePrefix()| == 14 && TypePrefix()[8] == 'T' && TypePrefix()[12] == ':' && TypePrefix()[13] == ' '
    ensures forall i :: 0 <= i < 12 ==> TypePrefix()[i] != ':'
    ensures forall i :: 0 <= i < 13 ==> Lower(TypePrefix()[i]) == "content-type:"[i]
  {
  }

  /** The parsed headers are the ones that were written, but for a swallowed key. */
  lemma HeaderRead(p: Part)
    requires PlainPart(p)
    ensures HeaderLines(Pieces(Header(p), CRLF)) == HeadersOf(AsRead(p))
  {
    hide DispositionLine; hide HeaderLine; hide HeaderLines; hide Pieces; hide NoBreak; hide Trim; hide PlainPart;
    var line := DispositionLine(p);
    DispositionOneLine(p);
    DispositionRead(p);
    if p.FilePart? && p.contentType.Some? {
      TypePlain(p);
      TypeOneLine(p.contentType.value);
      TypeRead(HeadersOf(AsRead(p)).(contentType := None), p.contentType.value);
      TwoLines(line, TypePrefix() + p.contentType.value);
      HeaderLinesTwo(line, TypePrefix() + p.contentType.value);
      assert Header(p) == line + CRLF + (TypePrefix() + p.contentType.value);
    } else {
      OneLine(line);
      assert Header(p) == line;
      HeaderLinesOne(line);
    }
  }

  lemma TypePlain(p: Part)
    requires PlainPart(p) && p.FilePart? && p.contentType.Some?
    ensures NoBreak(p.contentType.value) && Trim(p.contentType.value) == p.contentType.value
  {
  }

  lemma HeaderLinesOne(a: Buffer)
    ensures HeaderLines([a]) == HeaderLine(NO_HEADERS, a)
  {
    hide HeaderLine;
    assert [a][..0] == [];
  }

  lemma HeaderLinesTwo(a: Buffer, b: Buffer)
    ensures HeaderLines([a, b]) == HeaderLine(HeaderLine(NO_HEADERS, a), b)
  {
    hide HeaderLine;
    assert [a, b][..1] == [a];
    HeaderLinesOne(a);
  }

  lemma OneLine(a: Buffer)
    requires NoBreak(a)
    ensures Pieces(a, CRLF) == [a]
  {
    forall j ensures !Occurs(a, CRLF, j) { NotContained(a, CRLF, j); }
    FoundNowhere(a, CRLF, 0);
    UnfoldPieces(a, CRLF);
  }

  lemma TwoLines(a: Buffer, b: Buffer)
    requires NoBreak(a) && NoBreak(b) && a != "" && a[|a| - 1] != '\r'
    ensures Pieces(a + CRLF + b, CRLF) == [a, b]
  {
    var s := a + CRLF + b;
    forall j | 0 <= j < |a| ensures !Occurs(s, CRLF, j) {
      BreakIsCrlf(s, j);
      BreakIsCrlf(a, j);
      NotContained(a, CRLF, j);
    }
    FirstPiece(a, CRLF, b);
    OneLine(b);
  }

  // ----- one part ---------------------------------------------------------

  lemma BlankLineFirst(p: Part, i: nat)
    requires PlainPart(p) && i < |Header(p)|
    ensures !Occurs(Header(p) + HEADER_END + p.content, HEADER_END, i)
  {
    hide DispositionLine; hide NoBreak; hide PlainPart; hide Trim;
    var line, s := DispositionLine(p), Header(p) + HEADER_END + p.content;
    DispositionOneLine(p);
    NoBreakMeans(line);
    CharOf(s, HEADER_END, i, 0);
    CharOf(s, HEADER_END, i, 1);
    CharOf(s, HEADER_END, i, 2);
    assert forall k :: 0 <= k < |Header(p)| ==> s[k] == Header(p)[k];
    assert !BreakAt(line, i);
    if p.FilePart? && p.contentType.Some? {
      var second := TypePrefix() + p.contentType.value;
      TypePlain(p);
      TypeOneLine(p.contentType.value);
      NoBreakMeans(second);
      assert Header(p) == line + CRLF + second;
      assert !BreakAt(second, i - |line| - 2);
    } else {
      assert Header(p) == line;
    }
  }

  lemma PartRead(acc: Parsed, p: Part)
    requires PlainPart(p)
    ensures AddSegment(acc, Framed(p)) == AddPart(acc, HeadersOf(AsRead(p)), p.content)
  {
    var segment := Header(p) + HEADER_END + p.content;
    TrimFramed(segment);
    assert segment[|Header(p)|..|Header(p)| + 4] == HEADER_END;
    forall j | 0 <= j < |Header(p)| ensures !Occurs(segment, HEADER_END, j) { BlankLineFirst(p, j); }
    FoundAt(segment, HEADER_END, 0, |Header(p)|);
    assert segment[..|Header(p)|] == Header(p) && segment[|Header(p)| + 4..] == p.content;
    HeaderRead(p);
    hide Trimmed; hide IndexOf; hide Pieces; hide HeaderLines; hide Header;
  }

  // ----- all parts --------------------------------------------------------

  /** What a receiver should see. */
  function Expected(parts: seq<Part>): Result<Parsed, Thrown> {
    if parts == [] then Ok(Parsed(map[], None))
    else
      match Expected(parts[..|parts| - 1])
      case Err(e) => Err(e)
      case Ok(acc) => AddPart(acc, HeadersOf(parts[|parts| - 1]), parts[|parts| - 1].content)
  }

  function AllAsRead(parts: seq<Part>): seq<Part> { seq(|parts|, i requires 0 <= i < |parts| => AsRead(parts[i])) }

  lemma AllAsReadSnoc(parts: seq<Part>)
    requires parts != []
    ensures var n := |parts| - 1; var read := AllAsRead(parts);
            |read| == n + 1 && read[..n] == AllAsRead(parts[..n]) && read[n] == AsRead(parts[n]) && read[n].content == parts[n].content
  {
  }

  lemma {:induction false} PartsRead(parts: seq<Part>)
    requires forall i :: 0 <= i < |parts| ==> PlainPart(parts[i])
    ensures AddSegments(FramedAll(parts)) == Expected(AllAsRead(parts))
  {
    if parts != [] {
      var n := |parts| - 1;
      PartsRead(parts[..n]);
      AllAsReadSnoc(parts);
      hide AllAsRead; hide AsRead;
      assert FramedAll(parts)[..n] == FramedAll(parts[..n]);
      if Expected(AllAsRead(parts[..n])).Ok? { PartRead(Expected(AllAsRead(parts[..n])).value, parts[n]); }
      hide AddSegment; hide AddPart; hide Framed; hide HeadersOf;
    }
  }

  /** A field named like something every JavaScript object inherits. */
  predicate Inherited(p: Part) {
    p.FieldPart?
    && p.name in ["constructor", "toString", "valueOf", "toLocaleString", "hasOwnProperty", "isPrototypeOf", "propertyIsEnumerable",
                  "__proto__", "__defineGetter__", "__defineSetter__", "__lookupGetter__", "__lookupSetter__"]
  }

  lemma InheritedNames(p: Part)
    ensures Inherited(p) <==> p.FieldPart? && p.name in INHERITED
  {
  }

  /** The contents of the fields of this name, in order. */
  function ContentsOf(parts: seq<Part>, name: Buffer): seq<Buffer> {
    if parts == [] then []
    else
      var n := |parts| - 1;
      ContentsOf(parts[..n], name) + if parts[n].FieldPart? && parts[n].name == name then [parts[n].content] else []
  }

  function LastFile(parts: seq<Part>): Option<File> {
    if parts == [] then None
    else
      var p := parts[|parts| - 1];
      if p.FilePart? then
        Some(File(p.filename, if p.contentType.Some? then p.contentType.value else "application/octet-stream", p.content))
      else LastFile(parts[..|parts| - 1])
  }

  /** It throws exactly if some field is named like an inherited property. */
  lemma {:induction false} ExpectedThrows(parts: seq<Part>)
    ensures Expected(parts).Err? <==> exists i :: 0 <= i < |parts| && Inherited(parts[i])
  {
    if parts != [] {
      var n := |parts| - 1;
      ExpectedThrows(parts[..n]);
      InheritedNames(parts[n]);
      assert Expected(parts).Err? <==> Expected(parts[..n]).Err? || Inherited(parts[n]);
      hide Expected; hide Inherited;
      SomeInherited(parts);
    }
  }

  lemma SomeInherited(parts: seq<Part>)
    requires parts != []
    ensures var n := |parts| - 1;
            (exists i :: 0 <= i < |parts| && Inherited(parts[i])) <==>
              (exists i :: 0 <= i < n && Inherited(parts[..n][i])) || Inherited(parts[n])
  {
    var n := |parts| - 1;
    hide Inherited;
    assert forall i :: 0 <= i < n ==> parts[..n][i] == parts[i];
    if i :| 0 <= i < n && Inherited(parts[..n][i]) { assert Inherited(parts[i]); }
  }

  /** Otherwise: fields by name with their values in order, and the last file. */
  ghost predicate Delivers(r: Parsed, parts: seq<Part>) {
    (forall name :: FieldRead(r.fields, parts, name)) && r.file == LastFile(parts)
  }

  predicate FieldRead(fields: map<Buffer, seq<Buffer>>, parts: seq<Part>, name: Buffer) {
    if name in fields then fields[name] == ContentsOf(parts, name) != [] else ContentsOf(parts, name) == []
  }

  lemma {:induction false} ExpectedDelivers(parts: seq<Part>)
    ensures Expected(parts).Ok? ==> Delivers(Expected(parts).value, parts)
  {
    if parts != [] && Expected(parts).Ok? {
      var n := |parts| - 1;
      ExpectedDelivers(parts[..n]);
      DeliversOneMore(Expected(parts[..n]).value, parts);
    }
  }

  lemma DeliversOneMore(acc: Parsed, parts: seq<Part>)
    requires parts != [] && Delivers(acc, parts[..|parts| - 1])
    ensures var p := parts[|parts| - 1];
            AddPart(acc, HeadersOf(p), p.content).Ok? ==> Delivers(AddPart(acc, HeadersOf(p), p.content).value, parts)
  {
    AddedPart(acc, parts[|parts| - 1]);
    hide Delivers; hide AddPart; hide HeadersOf;
    if parts[|parts| - 1].FilePart? { DeliversFile(acc, parts); } else { DeliversField(acc, parts); }
  }

  lemma DeliversFile(acc: Parsed, parts: seq<Part>)
    requires parts != [] && Delivers(acc, parts[..|parts| - 1]) && parts[|parts| - 1].FilePart?
    ensures Delivers(acc.(file := LastFile(parts)), parts)
  {
    hide LastFile;
    forall name ensures FieldRead(acc.fields, parts, name) {
      assert FieldRead(acc.fields, parts[..|parts| - 1], name);
      ContentsSnoc(parts, name);
    }
    hide FieldRead;
  }

  lemma DeliversField(acc: Parsed, parts: seq<Part>)
    requires parts != [] && Delivers(acc, parts[..|parts| - 1]) && parts[|parts| - 1].FieldPart?
    ensures var p := parts[|parts| - 1];
            Delivers(acc.(fields := acc.fields[p.name := (if p.name in acc.fields then acc.fields[p.name] else []) + [p.content]]), parts)
  {
    var p := parts[|parts| - 1];
    assert LastFile(parts) == LastFile(parts[..|parts| - 1]);
    var fields := acc.fields[p.name := (if p.name in acc.fields then acc.fields[p.name] else []) + [p.content]];
    hide LastFile;
    forall name ensures FieldRead(fields, parts, name) {
      assert FieldRead(acc.fields, parts[..|parts| - 1], name);
      ContentsSnoc(parts, name);
    }
    hide FieldRead;
  }

  lemma ContentsSnoc(parts: seq<Part>, name: Buffer)
    requires parts != []
    ensures var p := parts[|parts| - 1];
            ContentsOf(parts, name)
              == ContentsOf(parts[..|parts| - 1], name) + if p.FieldPart? && p.name == name then [p.content] else []
  {
  }

  lemma AddedPart(acc: Parsed, p: Part)
    ensures var r := AddPart(acc, HeadersOf(p), p.content);
            if p.FilePart? then
              r == Ok(acc.(file := Some(File(p.filename, if p.contentType.Some? then p.contentType.value else "application/octet-stream",
                                             p.content))))
            else r.Ok? ==>
              r.value == acc.(fields := acc.fields[p.name := (if p.name in acc.fields then acc.fields[p.name] else []) + [p.content]])
  {
  }

  predicate GoodBoundary(b: Buffer) { b != "" && '\r' !in b && '\n' !in b }

  lemma ClosingMarkClean(b: Buffer)
    requires GoodBoundary(b)
    ensures !Contains("--" + CRLF, "--" + b)
  {
    var close, d := "--" + CRLF, "--" + b;
    forall i ensures !Occurs(close, d, i) {
      CharOf(close, d, i, 2);
      CharOf(close, d, i, 0);
      assert d[2] == b[0] && b[0] in b;
    }
  }

  /** The file that is delivered is one whose name swallowed its key. */
  predicate LastFileMisread(parts: seq<Part>) {
    parts != []
    && if parts[|parts| - 1].FilePart? then Misread(parts[|parts| - 1]) else LastFileMisread(parts[..|parts| - 1])
  }

  lemma {:induction false} ReadTheSame(parts: seq<Part>, name: Buffer)
    ensures ContentsOf(AllAsRead(parts), name) == ContentsOf(parts, name)
    ensures LastFile(AllAsRead(parts)) == LastFile(parts) <==> !LastFileMisread(parts)
  {
    if parts != [] {
      var n := |parts| - 1;
      ReadTheSame(parts[..n], name);
      AllAsReadSnoc(parts);
      hide EndsWith; hide AllAsRead;
    }
  }

  lemma DeliversAsReadIff(r: Parsed, parts: seq<Part>)
    requires Delivers(r, AllAsRead(parts))
    ensures Delivers(r, parts) <==> !LastFileMisread(parts)
  {
    forall name ensures FieldRead(r.fields, AllAsRead(parts), name) <==> FieldRead(r.fields, parts, name) { ReadTheSame(parts, name); }
    ReadTheSame(parts, "");
    hide FieldRead; hide ContentsOf; hide LastFile; hide LastFileMisread; hide AllAsRead;
  }

  /** For any list of plain parts whose headers and contents avoid the delimiter: parsing the encoding throws exactly
      when a field is named like an inherited property, and otherwise returns every field's values in order and the
      last file byte for byte - exactly unless that file's own name is misread. */
  lemma RoundTripIff(parts: seq<Part>, boundary: Buffer)
    requires GoodBoundary(boundary)
    requires forall i :: 0 <= i < |parts| ==> PlainPart(parts[i]) && Separates("--" + boundary, parts[i])
    ensures var r := AddSegments(Inner(Pieces(Encode(parts, "--" + boundary), "--" + boundary)));
            && (r.Err? <==> exists i :: 0 <= i < |parts| && Inherited(parts[i]))
            && (r.Ok? ==> (Delivers(r.value, parts) <==> !LastFileMisread(parts)))
  {
    var read := AllAsRead(parts);
    ClosingMarkClean(boundary);
    PiecesOfEncoding(parts, "--" + boundary);
    PartsRead(parts);
    ExpectedThrows(read);
    ExpectedDelivers(read);
    hide AddSegments; hide Pieces; hide Encode; hide Expected; hide Delivers; hide PlainPart; hide Separates;
    assert forall i :: 0 <= i < |parts| ==> (Inherited(read[i]) <==> Inherited(parts[i]));
    if Expected(read).Ok? { DeliversAsReadIff(Expected(read).value, parts); }
  }

  // ----- surrounding white space ------------------------------------------

  /** Tab, line feed, vertical tab, form feed, carriage return, space and no-break space. */
  predicate White(c: char) { c as int in [9, 10, 11, 12, 13, 32, 160] }

  predicate AllWhite(s: Buffer) { forall i :: 0 <= i < |s| ==> White(s[i]) }

  lemma {:induction false} StartStrips(pre: Buffer, s: Buffer)
    requires AllWhite(pre)
    ensures TrimStart(pre + s) == TrimStart(s)
  {
    if pre == "" {
      assert pre + s == s;
    } else {
      assert White(pre[0]) && (pre + s)[0] == pre[0] && (pre + s)[1..] == pre[1..] + s;
      StartStrips(pre[1..], s);
    }
  }

  lemma {:induction false} EndStrips(s: Buffer, post: Buffer)
    requires AllWhite(post)
    ensures TrimEnd(s + post) == TrimEnd(s)
  {
    if post == "" {
      assert s + post == s;
    } else {
      var n := |post| - 1;
      assert White(post[n]) && (s + post)[|s| + n] == post[n] && (s + post)[..|s| + n] == s + post[..n];
      EndStrips(s, post[..n]);
    }
  }

  /** The content type loses the white space around it, all of it and nothing else. */
  lemma TrimStrips(pre: Buffer, t: Buffer, post: Buffer)
    requires AllWhite(pre) && AllWhite(post) && (t != "" ==> !White(t[0]) && !White(t[|t| - 1]))
    ensures Trim(pre + (t + post)) == t
  {
    StartStrips(pre, t + post);
    if t == "" {
      assert t + post == post + "";
      StartStrips(post, "");
    } else {
      assert (t + post)[0] == t[0];
      EndStrips(t, post);
    }
  }

  // ----- segments that are no parts ---------------------------------------

  lemma OccursInSlice(s: Buffer, a: nat, b: nat, d: Buffer, i: nat)
    requires a <= b <= |s| && Occurs(s[a..b], d, i)
    ensures Occurs(s, d, a + i)
  {
    var t, w := s[a..b], s[a + i..a + i + |d|];
    forall k | 0 <= k < |d| ensures w[k] == d[k] { assert t[i..i + |d|][k] == t[i + k]; }
  }

  lemma SliceContains(s: Buffer, a: nat, b: nat, d: Buffer)
    requires a <= b <= |s| && !Contains(s, d)
    ensures !Contains(s[a..b], d)
  {
    if i :| 0 <= i <= b - a && Occurs(s[a..b], d, i) { OccursInSlice(s, a, b, d, i); }
  }

  lemma {:induction false} PiecesContain(s: Buffer, sep: Buffer, d: Buffer)
    requires sep != "" && !Contains(s, d)
    ensures forall k :: 0 <= k < |Pieces(s, sep)| ==> !Contains(Pieces(s, sep)[k], d)
    decreases |s|
  {
    hide Contains;
    match IndexOf(s, sep, 0)
    case None =>
    case Some(i) =>
      SliceContains(s, 0, i, d);
      SliceContains(s, i + |sep|, |s|, d);
      assert s[i + |sep|..|s|] == s[i + |sep|..];
      PiecesContain(s[i + |sep|..], sep, d);
  }

  lemma NamelessLine(h: Headers, line: Buffer)
    requires h.name == None && !Contains(line, "name=\"")
    ensures HeaderLine(h, line).name == None
  {
    assert "name" + "=\"" == "name=\"";
    FirstOccurrence(line, "name=\"", 0);
    hide IndexOf; hide Occurs;
  }

  lemma {:induction false} NamelessLines(lines: seq<Buffer>)
    requires forall k :: 0 <= k < |lines| ==> !Contains(lines[k], "name=\"")
    ensures HeaderLines(lines).name == None
  {
    if lines != [] {
      NamelessLines(lines[..|lines| - 1]);
      NamelessLine(HeaderLines(lines[..|lines| - 1]), lines[|lines| - 1]);
      hide HeaderLine; hide Contains;
    }
  }

  /** A segment in which no name is given is skipped. */
  lemma NamelessIsSkipped(p: Parsed, raw: Buffer)
    requires !Contains(raw, "name=\"")
    ensures AddSegment(p, raw) == Ok(p)
  {
    var segment := Trimmed(raw);
    var a := if |raw| >= 2 && raw[0] == '\r' && raw[1] == '\n' then 2 else 0;
    assert segment == raw[a..a + |segment|];
    SliceContains(raw, a, a + |segment|, "name=\"");
    var end := IndexOf(segment, HEADER_END, 0);
    hide Trimmed; hide Contains; hide IndexOf; hide Pieces; hide HeaderLines; hide AddPart;
    if end.Some? {
      SliceContains(segment, 0, end.value, "name=\"");
      assert segment[..end.value] == segment[0..end.value];
      PiecesContain(segment[..end.value], CRLF, "name=\"");
      NamelessLines(Pieces(segment[..end.value], CRLF));
    }
  }

  // ----- the two failures -------------------------------------------------

  lemma AbsentChar(s: Buffer, d: Buffer, c: char)
    requires c in d && c !in s
    ensures !Contains(s, d)
  {
    var k :| 0 <= k < |d| && d[k] == c;
    forall i ensures !Occurs(s, d, i) { CharOf(s, d, i, k); }
  }

  /** `#` occurs in no header literal, so a boundary of one `#` separates every part without it. */
  lemma HashSeparates(p: Part)
    requires '#' !in p.name && '#' !in p.content && (p.FilePart? ==> '#' !in p.filename && p.contentType.None?)
    ensures GoodBoundary("#") && Separates("--" + "#", p)
  {
    assert '#' !in Disposition();
    assert '#' !in DispositionLine(p) by { hide Disposition; }
    assert ("--" + "#")[2] == '#';
    AbsentChar(Header(p), "--" + "#", '#');
    AbsentChar(p.content, "--" + "#", '#');
  }

  /** What one part alone comes back as, behind such a boundary. */
  lemma OnePartRead(p: Part)
    requires PlainPart(p)
    requires '#' !in p.name && '#' !in p.content && (p.FilePart? ==> '#' !in p.filename && p.contentType.None?)
    ensures AddSegments(Inner(Pieces(Encode([p], "--" + "#"), "--" + "#"))) ==
              AddPart(Parsed(map[], None), HeadersOf(AsRead(p)), p.content)
  {
    HashSeparates(p);
    ClosingMarkClean("#");
    PiecesOfEncoding([p], "--" + "#");
    PartsRead([p]);
    hide AsRead; hide HeadersOf; hide AddPart; hide Encode; hide Pieces; hide AddSegments; hide FramedAll; hide Separates;
    hide PlainPart;
    assert [p][..0] == [];
    assert AllAsRead([p]) == [AsRead(p)];
    assert [AsRead(p)][..0] == [];
    assert Expected([]) == Ok(Parsed(map[], None));
  }

  /** A field named `toString` makes the parser throw. */
  lemma InheritedNameThrows()
    ensures AddSegments(Inner(Pieces(Encode([FieldPart("toString", "x")], "--" + "#"), "--" + "#"))) == Err(TypeError)
  {
    var p := FieldPart("toString", "x");
    NoBreakMeans(p.name);
    OnePartRead(p);
    hide AddSegments; hide Pieces; hide Encode;
  }

  /** A file in a field named `filename=` comes back under another name. */
  lemma KeyNameMisread()
    ensures var r := AddSegments(Inner(Pieces(Encode([FilePart("filename=", "a.txt", None, "x")], "--" + "#"), "--" + "#")));
            r.Ok? && r.value.file == Some(File("; filename=", OCTET_STREAM, "x"))
  {
    var p := FilePart("filename=", "a.txt", None, "x");
    NoBreakMeans(p.name);
    NoBreakMeans(p.filename);
    OnePartRead(p);
    assert p.name[0..] == p.name;
    hide AddSegments; hide Pieces; hide Encode;
  }
}
