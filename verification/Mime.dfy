/** The reader and writer of mail messages. */
module Mime {
  import opened Tables
  import opened GoText
  import opened Base64

  /** Library functions the model leaves open: UTF-8, lower case beyond ASCII, parsed media types, and HTML to text. */
  datatype Library = Library(bytes: string -> seq<Byte>, text: seq<Byte> -> string, lower: char -> char,
                             media: string -> (string, map<string, string>), stripHTML: string -> string)

  datatype Attachment = Attachment(filename: string, mimeType: string, disposition: string, contentId: string,
                                   encoding: string, body: seq<Byte>)
  datatype Parsed = Parsed(headers: map<string, string>, bodyText: string, bodyHTML: string,
                           attachments: seq<Attachment>)

  type Headers = map<string, string>

  const CRLF := "\r\n"
  const BLANK := "\r\n\r\n"

  function Header(h: Headers, name: string): string {
    if name in h then h[name] else ""
  }

  function FirstNonEmpty(a: string, b: string): string {
    if a != "" then a else b
  }

  // ---------------------------------------------------------------- cutting

  /** `strings.Cut`: what stands before and behind the first `sep`. */
  function Cut(s: string, sep: string): (r: Option<(string, string)>)
    ensures r.Some? ==> |r.value.1| + |sep| <= |s| && |r.value.0| <= |s|
    ensures r.Some? ==> s == r.value.0 + sep + r.value.1
  {
    if sep <= s then Some(([], s[|sep|..]))
    else if s == [] then None
    else match Cut(s[1..], sep)
      case None => None
      case Some((a, b)) => Some(([s[0]] + a, b))
  }

  /** `strings.Split` at a separator of several characters. */
  function SplitAt(s: string, sep: string): (r: seq<string>)
    requires sep != ""
    ensures forall p :: p in r ==> |p| <= |s|
    decreases |s|
  {
    match Cut(s, sep)
    case None => [s]
    case Some((a, b)) => [a] + SplitAt(b, sep)
  }

  function SplitEntity(source: string): (r: (string, string))
    ensures |r.1| < |source| || source == ""
  {
    match Cut(source, BLANK)
    case Some(r) => r
    case None =>
      match Cut(source, "\n\n")
      case Some(r) => r
      case None => (source, "")
  }

  // ---------------------------------------------------------------- headers

  function LowerRune(c: char, lib: Library): char {
    if 'A' <= c <= 'Z' then c + 32 as char else if c as int < 128 then c else lib.lower(c)
  }

  function ToLower(s: string, lib: Library): (r: string)
    ensures |r| == |s|
  {
    if s == [] then [] else [LowerRune(s[0], lib)] + ToLower(s[1..], lib)
  }

  datatype Reading = Reading(headers: Headers, current: string)

  /** One header line: a field, or the continuation of the one before. */
  function ReadLine(r: Reading, line: string, lib: Library): Reading {
    if line != [] && (line[0] == ' ' || line[0] == '\t') then
      if r.current == "" then r
      else r.(headers := r.headers[r.current := Header(r.headers, r.current) + " " + TrimSpace(line)])
    else match Cut(line, ":")
      case None => r
      case Some((name, value)) =>
        var key := ToLower(TrimSpace(name), lib);
        Reading(r.headers[key := TrimSpace(value)], key)
  }

  function ReadLines(r: Reading, lines: seq<string>, lib: Library): Reading {
    if lines == [] then r else ReadLine(ReadLines(r, lines[..|lines| - 1], lib), lines[|lines| - 1], lib)
  }

  function ParseHeaders(text: string, lib: Library): Headers {
    ReadLines(Reading(map[], ""), Split(DropCarriageReturns(text), '\n'), lib).headers
  }

  method ParseMIMEHeaders(text: string, lib: Library) returns (headers: Headers)
    ensures headers == ParseHeaders(text, lib)
  {
    hide ToLower, TrimSpace, Cut, Split, DropCarriageReturns;
    headers := map[];
    var current := "";
    var lines := Split(DropCarriageReturns(text), '\n');
    for i := 0 to |lines|
      invariant Reading(headers, current) == ReadLines(Reading(map[], ""), lines[..i], lib)
    {
      assert lines[..i + 1][..i] == lines[..i];
      var line := lines[i];
      if line != [] && (line[0] == ' ' || line[0] == '\t') {
        if current != "" {
          headers := headers[current := Header(headers, current) + " " + TrimSpace(line)];
        }
        continue;
      }
      var cut := Cut(line, ":");
      if cut.None? {
        continue;
      }
      current := ToLower(TrimSpace(cut.value.0), lib);
      headers := headers[current := TrimSpace(cut.value.1)];
    }
    assert lines[..|lines|] == lines;
  }

  // ---------------------------------------------------------------- bodies

  function TrimPartPrefix(part: string): (r: string)
    ensures |r| <= |part|
  {
    if CRLF <= part then part[2..] else if "\n" <= part then part[1..] else part
  }

  predicate EndsWith(s: string, suffix: string) {
    |suffix| <= |s| && s[|s| - |suffix|..] == suffix
  }

  function TrimPartSuffix(body: string): string {
    if EndsWith(body, CRLF) then body[..|body| - 2] else if EndsWith(body, "\n") then body[..|body| - 1] else body
  }

  const BASE64 := "base64"

  /** Equal up to the case of letters; the long s counts as an s. */
  predicate IsBase64(encoding: string) {
    |encoding| == 6 && forall i :: 0 <= i < 6 ==>
      encoding[i] == BASE64[i] || (i < 4 && encoding[i] as int == BASE64[i] as int - 32)
        || (i == 2 && encoding[i] as int == 0x17F)
  }

  function TrimBrackets(s: string): string {
    if s != [] && s[0] in "<>" then TrimBrackets(s[1..])
    else if s != [] && s[|s| - 1] in "<>" then TrimBrackets(s[..|s| - 1])
    else s
  }

  /** A body that is no multipart one: an attachment, the HTML text or the plain text, the first of each winning. */
  function ReadLeaf(h: Headers, body: string, out: Parsed, root: bool, lib: Library): Parsed {
    var (media, params) := lib.media(Header(h, "content-type"));
    var mediaType := FirstNonEmpty(media, "text/plain");
    var (disposition, dispositionParams) := lib.media(Header(h, "content-disposition"));
    var bodyText := if root then TrimSpace(body) else TrimPartSuffix(body);
    var decoded := if IsBase64(Header(h, "content-transfer-encoding")) then Decode(TrimSpace(bodyText), false, true)
      else None;
    var bytes := if decoded.Some? then decoded.value else lib.bytes(bodyText);
    var text := if decoded.Some? then lib.text(decoded.value) else bodyText;
    if disposition == "attachment" || Header(dispositionParams, "filename") != "" || Header(params, "name") != "" then
      var name := FirstNonEmpty(Header(dispositionParams, "filename"), Header(params, "name"));
      out.(attachments := out.attachments
                          + [Attachment(name, mediaType, disposition, TrimBrackets(Header(h, "content-id")),
                                        Header(h, "content-transfer-encoding"), bytes)])
    else if mediaType == "text/html" then if out.bodyHTML == "" then out.(bodyHTML := text) else out
    else if out.bodyText == "" then out.(bodyText := text)
    else out
  }

  /** The boundary of a multipart body, if the headers announce one. */
  function Boundary(h: Headers, lib: Library): string {
    var (media, params) := lib.media(Header(h, "content-type"));
    if "multipart/" <= media then Header(params, "boundary") else ""
  }

  function ReadBody(h: Headers, body: string, out: Parsed, root: bool, lib: Library): Parsed
    decreases |body|, 1, 0
  {
    if Boundary(h, lib) != "" then ReadParts(SplitAt(body, "--" + Boundary(h, lib)), |body|, out, lib)
    else ReadLeaf(h, body, out, root, lib)
  }

  /** The parts one after the other. Each part's body is strictly shorter than the body the parts come from. */
  function ReadParts(parts: seq<string>, size: nat, out: Parsed, lib: Library): Parsed
    requires forall p :: p in parts ==> |p| <= size
    decreases size, 0, |parts|
  {
    if parts == [] then out
    else
      var n := |parts| - 1;
      assert forall p :: p in parts[..n] ==> p in parts;
      assert parts[n] in parts;
      ReadPart(parts[n], ReadParts(parts[..n], size, out, lib), lib)
  }

  function ReadPart(part: string, out: Parsed, lib: Library): Parsed
    decreases |part|, 0, 0
  {
    var p := TrimPartPrefix(part);
    if p == "" || "--" <= p then out
    else
      var (headerText, body) := SplitEntity(p);
      ReadBody(ParseHeaders(headerText, lib), body, out, false, lib)
  }

  // ---------------------------------------------------------------- whole messages

  /** The raw form is tried as URL base64 without and with padding, then as standard base64. */
  function DecodeRaw(raw: string): Option<seq<Byte>> {
    var first, second := Decode(raw, true, false), Decode(raw, true, true);
    if first.Some? then first else if second.Some? then second else Decode(raw, false, true)
  }

  /** `None` where the source gives a message that is not valid. */
  function ParseRaw(raw: string, lib: Library): Option<Parsed> {
    match DecodeRaw(raw)
    case None => None
    case Some(bytes) =>
      var (headerText, body) := SplitEntity(lib.text(bytes));
      var h := ParseHeaders(headerText, lib);
      Some(ReadBody(h, body, Parsed(h, "", "", []), true, lib))
  }

  /** The reader as it runs: one result that the bodies fill in, in order. */
  class Reader {
    const lib: Library
    var out: Parsed

    constructor (headers: Headers, lib: Library)
      ensures this.lib == lib && out == Parsed(headers, "", "", [])
    {
      this.lib, out := lib, Parsed(headers, "", "", []);
    }

    method Body(h: Headers, body: string, root: bool)
      modifies this
      ensures out == ReadBody(h, body, old(out), root, lib)
      decreases |body|, 1, 0
    {
      var boundary := Boundary(h, lib);
      if boundary != "" {
        Multipart(boundary, body);
      } else {
        out := ReadLeaf(h, body, out, root, lib);
      }
    }

    method Multipart(boundary: string, body: string)
      requires boundary != ""
      modifies this
      ensures out == ReadParts(SplitAt(body, "--" + boundary), |body|, old(out), lib)
      decreases |body|, 0
    {
      var parts := SplitAt(body, "--" + boundary);
      for i := 0 to |parts|
        invariant out == ReadParts(parts[..i], |body|, old(out), lib)
      {
        assert parts[i] in parts && parts[..i + 1][..i] == parts[..i];
        var part := TrimPartPrefix(parts[i]);
        if part == "" || "--" <= part {
          continue;
        }
        var (headerText, partBody) := SplitEntity(part);
        var headers := ParseMIMEHeaders(headerText, lib);
        Body(headers, partBody, false);
      }
      assert parts[..|parts|] == parts;
    }
  }

  method ParseRawMessage(raw: string, lib: Library) returns (r: Option<Parsed>)
    ensures r == ParseRaw(raw, lib)
  {
    var bytes := DecodeRaw(raw);
    if bytes.None? {
      return None;
    }
    var (headerText, body) := SplitEntity(lib.text(bytes.value));
    var headers := ParseMIMEHeaders(headerText, lib);
    var reader := new Reader(headers, lib);
    reader.Body(headers, body, true);
    return Some(reader.out);
  }

  // ---------------------------------------------------------------- writing

  datatype Message = Message(from: string, to: string, cc: string, bcc: string, replyTo: string, subject: string,
                             date: string, messageId: string, references: string, inReplyTo: string,
                             bodyText: string, bodyHTML: string)

  datatype Field = Field(name: string, value: string)

  function IfPresent(name: string, value: string): seq<Field> {
    if value == "" then [] else [Field(name, value)]
  }

  function Fields(m: Message): seq<Field> {
    [Field("From", m.from), Field("To", m.to)] + IfPresent("Cc", m.cc) + IfPresent("Bcc", m.bcc)
      + IfPresent("Reply-To", m.replyTo)
    + [Field("Subject", m.subject), Field("Date", m.date), Field("Message-ID", m.messageId)]
    + IfPresent("References", m.references) + IfPresent("In-Reply-To", m.inReplyTo)
  }

  function Lines(fields: seq<Field>): (r: seq<string>)
    ensures |r| == |fields|
    ensures forall i :: 0 <= i < |r| ==> r[i] == fields[i].name + ": " + fields[i].value
  {
    seq(|fields|, i requires 0 <= i < |fields| => fields[i].name + ": " + fields[i].value)
  }

  function BuildMessageText(m: Message, lib: Library): string {
    Join(Lines(Fields(m)), CRLF) + BLANK + FirstNonEmpty(m.bodyText, lib.stripHTML(m.bodyHTML))
  }
}
