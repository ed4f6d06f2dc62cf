/** Reading a multipart message gives back its parts, each whole and in order. */
module MimeParts {
  import opened Tables
  import opened GoText
  import opened Base64
  import opened Mime
  import opened MimeRoundTrip

  datatype Part = Part(fields: seq<Field>, body: string)

  /** Headers and body as they stand between two delimiters. */
  function Chunk(p: Part): string {
    CRLF + Join(Lines(p.fields), CRLF) + BLANK + p.body + CRLF
  }

  /** A body of several parts (section 5.1.1 of RFC 2046): each behind a delimiter, and a closing one behind them. */
  function WriteParts(parts: seq<Part>, boundary: string, epilogue: string): string {
    if parts == [] then "--" + boundary + ("--" + epilogue)
    else "--" + boundary + (Chunk(parts[0]) + WriteParts(parts[1..], boundary, epilogue))
  }

  // ---------------------------------------------------------------- splitting

  /** The separator is first met right behind the text, whatever follows it. */
  ghost predicate Avoids(s: string, sep: string)
    requires sep != ""
  {
    Cut(s + sep[..|sep| - 1], sep) == None
  }

  lemma {:induction false} CutBehind(a: string, sep: string, rest: string)
    requires sep != "" && Avoids(a, sep)
    ensures Cut(a + (sep + rest), sep) == Some((a, rest))
    decreases |a|
  {
    var short, s := a + sep[..|sep| - 1], a + (sep + rest);
    if a == [] {
      assert s == sep + rest && s[..|sep|] == sep;
    } else {
      assert s[..|sep|] == short[..|sep|];
      assert !(sep <= short) && !(sep <= s);
      assert short[1..] == a[1..] + sep[..|sep| - 1] && s[1..] == a[1..] + (sep + rest);
      CutStep(short, sep);
      CutStep(s, sep);
      CutBehind(a[1..], sep, rest);
      assert a == [a[0]] + a[1..];
    }
  }

  /** A text shorter than the separator does not hold it. */
  lemma {:induction false} TooShort(s: string, sep: string)
    requires |s| < |sep|
    ensures Cut(s, sep) == None
  {
    if s != [] {
      TooShort(s[1..], sep);
    }
  }

  lemma NothingAvoids(sep: string)
    requires sep != ""
    ensures Avoids("", sep)
  {
    hide Cut;
    TooShort("" + sep[..|sep| - 1], sep);
  }

  function Chunks(parts: seq<Part>): seq<string> {
    seq(|parts|, i requires 0 <= i < |parts| => Chunk(parts[i]))
  }

  /** The delimiter is met nowhere but where the writer put it. */
  ghost predicate Delimited(parts: seq<Part>, boundary: string, epilogue: string) {
    && boundary != ""
    && (forall i :: 0 <= i < |parts| ==> Avoids(Chunk(parts[i]), "--" + boundary))
    && Cut("--" + epilogue, "--" + boundary) == None
  }

  lemma SplitStep(a: string, sep: string, rest: string)
    requires sep != "" && Avoids(a, sep)
    ensures SplitAt(a + (sep + rest), sep) == [a] + SplitAt(rest, sep)
  {
    hide Avoids, Cut;
    CutBehind(a, sep, rest);
  }

  lemma {:induction false} PartsSplit(before: string, parts: seq<Part>, boundary: string, epilogue: string)
    requires Delimited(parts, boundary, epilogue) && Avoids(before, "--" + boundary)
    ensures SplitAt(before + WriteParts(parts, boundary, epilogue), "--" + boundary)
         == [before] + Chunks(parts) + ["--" + epilogue]
    decreases |parts|
  {
    hide Avoids, Cut, Chunk, SplitAt;
    var sep := "--" + boundary;
    if parts == [] {
      SplitStep(before, sep, "--" + epilogue);
      SplitsNoMore("--" + epilogue, sep);
      assert Chunks(parts) == [];
    } else {
      var rest := Chunk(parts[0]) + WriteParts(parts[1..], boundary, epilogue);
      SplitStep(before, sep, rest);
      PartsSplit(Chunk(parts[0]), parts[1..], boundary, epilogue);
      ChunksStep(parts);
    }
  }

  lemma SplitsNoMore(s: string, sep: string)
    requires sep != "" && Cut(s, sep) == None
    ensures SplitAt(s, sep) == [s]
  {
  }

  lemma ChunksStep(parts: seq<Part>)
    requires parts != []
    ensures Chunks(parts) == [Chunk(parts[0])] + Chunks(parts[1..])
  {
    hide Chunk;
  }

  // ---------------------------------------------------------------- reading one part

  ghost predicate CleanPart(p: Part) {
    p.fields != [] && CleanFields(p.fields) && !("--" <= p.fields[0].name)
  }

  function HeadersOf(fields: seq<Field>, lib: Library): Headers {
    ParseHeaders(Join(Lines(fields), CRLF), lib)
  }

  /** What the reader makes of the parts: each body with the line break behind it, one after the other. */
  function ReadAll(parts: seq<Part>, out: Parsed, lib: Library): Parsed {
    if parts == [] then out
    else
      var n := |parts| - 1;
      ReadBody(HeadersOf(parts[n].fields, lib), parts[n].body + CRLF, ReadAll(parts[..n], out, lib), false, lib)
  }

  lemma ChunkReads(p: Part, out: Parsed, lib: Library)
    requires CleanPart(p)
    ensures ReadPart(Chunk(p), out, lib) == ReadBody(HeadersOf(p.fields, lib), p.body + CRLF, out, false, lib)
  {
    hide CleanFields, ParseHeaders, ReadBody, Cut, Join;
    var header, body := Join(Lines(p.fields), CRLF), p.body + CRLF;
    var entity := header + BLANK + body;
    assert Chunk(p) == CRLF + entity && Chunk(p)[2..] == entity;
    FieldsAreLines(p.fields, lib);
    CutHeader(Lines(p.fields), body);
    EntityStarts(p, body, lib);
  }

  lemma EntityStarts(p: Part, body: string, lib: Library)
    requires CleanPart(p)
    ensures var entity := Join(Lines(p.fields), CRLF) + BLANK + body; entity != "" && !("--" <= entity)
  {
    var name, entity := p.fields[0].name, Join(Lines(p.fields), CRLF) + BLANK + body;
    assert PlainName(name);
    assert Lines(p.fields)[0] == name + ": " + p.fields[0].value;
    assert (name + ": ") <= Lines(p.fields)[0] <= entity;
    assert entity[0] == name[0] && (|name| > 1 ==> entity[1] == name[1]) && (|name| == 1 ==> entity[1] == ':');
    if |name| > 1 {
      assert entity[..2] == name[..2];
    }
  }

  lemma {:induction false} ChunksRead(chunks: seq<string>, parts: seq<Part>, size: nat, out: Parsed, lib: Library)
    requires (forall p :: p in parts ==> CleanPart(p)) && (forall c :: c in chunks ==> |c| <= size)
    requires chunks == Chunks(parts)
    ensures ReadParts(chunks, size, out, lib) == ReadAll(parts, out, lib)
    decreases |parts|
  {
    hide CleanPart, Chunk, ReadPart, ReadBody, HeadersOf;
    if parts != [] {
      var n := |parts| - 1;
      assert chunks[..n] == Chunks(parts[..n]);
      ChunksRead(chunks[..n], parts[..n], size, out, lib);
      ChunkReads(parts[n], ReadAll(parts[..n], out, lib), lib);
    }
  }

  lemma {:induction false} ReadPartsJoin(a: seq<string>, b: seq<string>, size: nat, out: Parsed, lib: Library)
    requires (forall p :: p in a ==> |p| <= size) && (forall p :: p in b ==> |p| <= size)
    ensures forall p :: p in a + b ==> |p| <= size
    ensures ReadParts(a + b, size, out, lib) == ReadParts(b, size, ReadParts(a, size, out, lib), lib)
    decreases |b|
  {
    hide ReadPart;
    if b == [] {
      assert a + b == a;
    } else {
      var n := |b| - 1;
      assert (a + b)[..|a + b| - 1] == a + b[..n];
      ReadPartsJoin(a, b[..n], size, out, lib);
    }
  }

  /** A body under a multipart type is read as its parts, each whole and in order, at any nesting. */
  lemma PartsReadBack(h: Headers, parts: seq<Part>, epilogue: string, out: Parsed, root: bool, lib: Library)
    requires Boundary(h, lib) != "" && Delimited(parts, Boundary(h, lib), epilogue)
    requires forall p :: p in parts ==> CleanPart(p)
    ensures ReadBody(h, WriteParts(parts, Boundary(h, lib), epilogue), out, root, lib) == ReadAll(parts, out, lib)
  {
    hide CleanPart, Chunk, ReadPart, HeadersOf, WriteParts, Delimited, Avoids, Boundary;
    var boundary := Boundary(h, lib);
    var body := WriteParts(parts, boundary, epilogue);
    var last := ["--" + epilogue];
    NothingAvoids("--" + boundary);
    PartsSplit("", parts, boundary, epilogue);
    assert "" + body == body;
    var all := SplitAt(body, "--" + boundary);
    assert forall p :: p in all ==> |p| <= |body|;
    assert all == ([""] + Chunks(parts)) + last;
    assert forall c :: c in [""] + Chunks(parts) ==> c in all;
    assert forall c :: c in last ==> c in all;
    ReadPartsJoin([""] + Chunks(parts), last, |body|, out, lib);
    ReadPartsJoin([""], Chunks(parts), |body|, out, lib);
    NothingInBetween(epilogue, |body|, out, lib);
    ChunksRead(Chunks(parts), parts, |body|, out, lib);
    NothingInBetween(epilogue, |body|, ReadAll(parts, out, lib), lib);
  }

  /** What stands before the first and behind the last delimiter is no part. */
  lemma NothingInBetween(epilogue: string, size: nat, out: Parsed, lib: Library)
    requires |"--" + epilogue| <= size
    ensures ReadParts([""], size, out, lib) == out && ReadParts(["--" + epilogue], size, out, lib) == out
  {
    assert [""][..0] == [] && ["--" + epilogue][..0] == [];
    assert ("--" + epilogue)[0] == '-';
  }

  // ---------------------------------------------------------------- whole messages

  /** The base64 form of a message of several parts is read back part by part. */
  lemma MultipartReadsBack(fields: seq<Field>, parts: seq<Part>, epilogue: string, lib: Library)
    requires Faithful(lib) && fields != [] && CleanFields(fields) && forall p :: p in parts ==> CleanPart(p)
    requires var boundary := Boundary(HeadersOf(fields, lib), lib);
             boundary != "" && Delimited(parts, boundary, epilogue)
    ensures var h := HeadersOf(fields, lib);
            var text := Join(Lines(fields), CRLF) + BLANK + WriteParts(parts, Boundary(h, lib), epilogue);
            ParseRaw(Encode(lib.bytes(text)), lib) == Some(ReadAll(parts, Parsed(h, "", "", []), lib))
  {
    hide CleanFields, CleanPart, Delimited, Boundary, ReadBody, ReadAll, WriteParts, ParseHeaders, Encode, Decode, Cut,
         Join;
    var h := HeadersOf(fields, lib);
    var body := WriteParts(parts, Boundary(h, lib), epilogue);
    DecodeEncode(lib.bytes(Join(Lines(fields), CRLF) + BLANK + body));
    FieldsAreLines(fields, lib);
    CutHeader(Lines(fields), body);
    PartsReadBack(h, parts, epilogue, Parsed(h, "", "", []), true, lib);
  }

  // ---------------------------------------------------------------- what the parts hold

  datatype Content = Plain | Html | File(bytes: seq<Byte>)

  /** The part's headers make it plain text, HTML text or a file in base64, not a multipart body. */
  ghost predicate Holds(p: Part, content: Content, lib: Library) {
    var h := HeadersOf(p.fields, lib);
    Boundary(h, lib) == "" &&
    match content
    case Plain => TextHeaders(h, lib) && lib.media(Header(h, "content-type")).0 in ["", "text/plain"]
    case Html => TextHeaders(h, lib) && lib.media(Header(h, "content-type")).0 == "text/html"
    case File(bytes) => FileHeaders(h, lib) && p.body == EncodePadded(bytes)
  }

  /** Neither a file nor encoded. */
  ghost predicate TextHeaders(h: Headers, lib: Library) {
    var (disposition, params) := lib.media(Header(h, "content-disposition"));
    disposition != "attachment" && Header(params, "filename") == "" && !IsBase64(Header(h, "content-transfer-encoding"))
    && Header(lib.media(Header(h, "content-type")).1, "name") == ""
  }

  ghost predicate FileHeaders(h: Headers, lib: Library) {
    lib.media(Header(h, "content-disposition")).0 == "attachment" && IsBase64(Header(h, "content-transfer-encoding"))
  }

  /** The text of that kind: the first one that is not empty. */
  function TextOf(parts: seq<Part>, contents: seq<Content>, kind: Content): string
    requires |parts| == |contents|
  {
    if parts == [] then ""
    else
      var n := |parts| - 1;
      var before := TextOf(parts[..n], contents[..n], kind);
      if before == "" && contents[n] == kind then parts[n].body else before
  }

  function Files(contents: seq<Content>): seq<seq<Byte>> {
    if contents == [] then []
    else
      var n := |contents| - 1;
      Files(contents[..n]) + if contents[n].File? then [contents[n].bytes] else []
  }

  function Bodies(attachments: seq<Attachment>): seq<seq<Byte>> {
    seq(|attachments|, i requires 0 <= i < |attachments| => attachments[i].body)
  }

  lemma BreakComesOff(body: string)
    ensures TrimPartSuffix(body + CRLF) == body
  {
    var s := body + CRLF;
    assert s[|s| - 2..] == CRLF && s[..|s| - 2] == body;
  }

  lemma TextReads(p: Part, content: Content, out: Parsed, lib: Library)
    requires Holds(p, content, lib) && !content.File?
    ensures ReadBody(HeadersOf(p.fields, lib), p.body + CRLF, out, false, lib)
         == if content == Html then out.(bodyHTML := FirstNonEmpty(out.bodyHTML, p.body))
            else out.(bodyText := FirstNonEmpty(out.bodyText, p.body))
  {
    hide HeadersOf, Boundary, ReadParts, IsBase64, TrimPartSuffix;
    BreakComesOff(p.body);
  }

  lemma FileReads(p: Part, content: Content, out: Parsed, lib: Library)
    requires Holds(p, content, lib) && content.File?
    ensures var r := ReadBody(HeadersOf(p.fields, lib), p.body + CRLF, out, false, lib);
            r == out.(attachments := r.attachments)
            && Bodies(r.attachments) == Bodies(out.attachments) + [content.bytes]
  {
    hide HeadersOf, Boundary, ReadParts, IsBase64, TrimPartSuffix, Decode, EncodePadded, TrimSpace, TrimBrackets;
    BreakComesOff(p.body);
    EncodedIsTrimmed(content.bytes);
    DecodePadded(content.bytes);
  }

  lemma EncodedIsTrimmed(bytes: seq<Byte>)
    ensures TrimSpace(EncodePadded(bytes)) == EncodePadded(bytes)
  {
    hide TrimSpace, EncodeSextets;
    var d, s := Digits(EncodeSextets(bytes), false), EncodePadded(bytes);
    forall i | 0 <= i < |s|
      ensures !IsSpace(s[i])
    {
      if i < |d| {
        DigitIsNoSpace(EncodeSextets(bytes)[i]);
      }
    }
    TrimTrimmed(s);
  }

  lemma DigitIsNoSpace(n: Sextet)
    ensures !IsSpace(Digit(n, false))
  {
  }

  ghost predicate AllHold(parts: seq<Part>, contents: seq<Content>, lib: Library) {
    |parts| == |contents| && forall i :: 0 <= i < |parts| ==> Holds(parts[i], contents[i], lib)
  }

  lemma {:induction false} ContentsRead(h: Headers, parts: seq<Part>, contents: seq<Content>, lib: Library)
    requires AllHold(parts, contents, lib)
    ensures var r := ReadAll(parts, Parsed(h, "", "", []), lib);
            r.headers == h
            && r.bodyText == TextOf(parts, contents, Plain) && r.bodyHTML == TextOf(parts, contents, Html)
            && Bodies(r.attachments) == Files(contents)
    decreases |parts|
  {
    hide Holds, HeadersOf, ReadBody;
    if parts != [] {
      var n := |parts| - 1;
      ContentsRead(h, parts[..n], contents[..n], lib);
      var out := ReadAll(parts[..n], Parsed(h, "", "", []), lib);
      if contents[n].File? {
        FileReads(parts[n], contents[n], out, lib);
      } else {
        TextReads(parts[n], contents[n], out, lib);
      }
    }
  }

  /** Of a message of texts and files, the first plain and the first HTML text come back as they were, and the bytes of
      all files in order. */
  lemma ContentsReadBack(fields: seq<Field>, parts: seq<Part>, contents: seq<Content>, epilogue: string, lib: Library)
    requires Faithful(lib) && fields != [] && CleanFields(fields) && forall p :: p in parts ==> CleanPart(p)
    requires var boundary := Boundary(HeadersOf(fields, lib), lib);
             boundary != "" && Delimited(parts, boundary, epilogue)
    requires AllHold(parts, contents, lib)
    ensures var h := HeadersOf(fields, lib);
            var text := Join(Lines(fields), CRLF) + BLANK + WriteParts(parts, Boundary(h, lib), epilogue);
            var r := ParseRaw(Encode(lib.bytes(text)), lib);
            r.Some? && r.value.headers == h
            && r.value.bodyText == TextOf(parts, contents, Plain) && r.value.bodyHTML == TextOf(parts, contents, Html)
            && Bodies(r.value.attachments) == Files(contents)
  {
    hide CleanFields, CleanPart, Delimited, Boundary, ReadAll, WriteParts, HeadersOf, ParseRaw, Faithful, AllHold;
    MultipartReadsBack(fields, parts, epilogue, lib);
    ContentsRead(HeadersOf(fields, lib), parts, contents, lib);
  }
}
