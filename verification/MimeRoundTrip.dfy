/** Reading a written message gives back its headers and its text. */
module MimeRoundTrip {
  import opened Tables
  import opened GoText
  import opened Base64
  import opened Mime

  /** What is assumed of the library: UTF-8 is read back, and no media type is read where there is none. */
  ghost predicate Faithful(lib: Library) {
    (forall s :: lib.text(lib.bytes(s)) == s) && lib.media("") == ("", map[])
  }

  ghost predicate Unbroken(s: string) {
    '\r' !in s && '\n' !in s
  }

  ghost predicate CleanValue(s: string) {
    Trimmed(s) && Unbroken(s)
  }

  /** The headers are trimmed and have no line breaks. */
  ghost predicate CleanHeaders(m: Message) {
    CleanValue(m.from) && CleanValue(m.to) && CleanValue(m.cc) && CleanValue(m.bcc) && CleanValue(m.replyTo)
      && CleanValue(m.subject)
    && CleanValue(m.date) && CleanValue(m.messageId) && CleanValue(m.references) && CleanValue(m.inReplyTo)
  }

  // ---------------------------------------------------------------- cutting the header off

  lemma {:induction false} CutSkips(a: string, b: string, sep: string)
    requires sep != "" && forall i :: 0 <= i < |a| ==> !(sep <= (a + b)[i..])
    ensures Cut(a + b, sep) == match Cut(b, sep) case None => None case Some((x, y)) => Some((a + x, y))
    decreases |a|
  {
    hide Cut;
    if a == [] {
      assert [] + b == b;
      assert Cut(b, sep).Some? ==> [] + Cut(b, sep).value.0 == Cut(b, sep).value.0;
    } else {
      var s := a + b;
      assert s[0..] == s && s[1..] == a[1..] + b;
      forall i | 0 <= i < |a[1..]|
        ensures !(sep <= (a[1..] + b)[i..])
      {
        assert s[i + 1..] == (a[1..] + b)[i..];
      }
      CutSkips(a[1..], b, sep);
      CutStep(s, sep);
      if Cut(b, sep).Some? {
        assert [a[0]] + (a[1..] + Cut(b, sep).value.0) == a + Cut(b, sep).value.0;
      }
    }
  }

  lemma CutStep(s: string, sep: string)
    requires s != [] && !(sep <= s)
    ensures Cut(s, sep) == match Cut(s[1..], sep) case None => None case Some((x, y)) => Some(([s[0]] + x, y))
  {
  }

  /** Text without the separator's first character cannot hold the separator. */
  lemma SkipsLine(line: string, rest: string, sep: string)
    requires sep != "" && sep[0] !in line
    ensures forall i :: 0 <= i < |line| ==> !(sep <= (line + rest)[i..])
  {
    forall i | 0 <= i < |line|
      ensures !(sep <= (line + rest)[i..])
    {
      assert (line + rest)[i..][0] == line[i];
    }
  }

  ghost predicate FullLines(lines: seq<string>) {
    forall i :: 0 <= i < |lines| ==> lines[i] != "" && Unbroken(lines[i])
  }

  lemma {:induction false} CutHeader(lines: seq<string>, body: string)
    requires lines != [] && FullLines(lines)
    ensures Cut(Join(lines, CRLF) + BLANK + body, BLANK) == Some((Join(lines, CRLF), body))
    decreases |lines|
  {
    var s := Join(lines, CRLF) + BLANK + body;
    if |lines| == 1 {
      var tail := BLANK + body;
      SkipsLine(lines[0], tail, BLANK);
      CutSkips(lines[0], tail, BLANK);
      assert tail[|BLANK|..] == body;
      assert s == lines[0] + tail && lines[0] + [] == lines[0];
    } else {
      var rest := Join(lines[1..], CRLF) + BLANK + body;
      var a := lines[0] + CRLF;
      CutHeader(lines[1..], body);
      assert s == a + rest;
      assert rest[0] == lines[1][0];
      SkipsLine(lines[0], CRLF + rest, BLANK);
      assert lines[0] + (CRLF + rest) == a + rest;
      forall i | 0 <= i < |a|
        ensures !(BLANK <= (a + rest)[i..])
      {
        if i == |lines[0]| {
          assert (a + rest)[i..][2] == rest[0];
        } else if i > |lines[0]| {
          assert (a + rest)[i..][0] == '\n';
        }
      }
      CutSkips(a, rest, BLANK);
      assert a + Join(lines[1..], CRLF) == Join(lines, CRLF);
    }
  }

  // ---------------------------------------------------------------- the lines come back

  lemma {:induction false} DropSkips(line: string, rest: string)
    requires '\r' !in line
    ensures DropCarriageReturns(line + rest) == line + DropCarriageReturns(rest)
  {
    if line == [] {
      assert [] + rest == rest && [] + DropCarriageReturns(rest) == DropCarriageReturns(rest);
    } else {
      DropSkips(line[1..], rest);
      assert (line + rest)[1..] == line[1..] + rest && (line + rest)[0] == line[0];
      assert [line[0]] + (line[1..] + DropCarriageReturns(rest)) == line + DropCarriageReturns(rest);
    }
  }

  lemma {:induction false} DropJoins(lines: seq<string>)
    requires FullLines(lines)
    ensures DropCarriageReturns(Join(lines, CRLF)) == Join(lines, "\n")
    decreases |lines|
  {
    if |lines| == 1 {
      NoCarriageReturns(lines[0]);
    } else if |lines| > 1 {
      var rest := Join(lines[1..], CRLF);
      DropJoins(lines[1..]);
      DropSkips(lines[0], CRLF + rest);
      assert Join(lines, CRLF) == lines[0] + (CRLF + rest);
      assert (CRLF + rest)[2..] == rest;
      assert lines[0] + (['\n'] + Join(lines[1..], "\n")) == lines[0] + "\n" + Join(lines[1..], "\n");
    }
  }

  lemma LinesComeBack(lines: seq<string>)
    requires lines != [] && FullLines(lines)
    ensures Split(DropCarriageReturns(Join(lines, CRLF)), '\n') == lines
  {
    DropJoins(lines);
    SplitJoin(lines, '\n');
  }

  // ---------------------------------------------------------------- fields

  /** A name as the writer uses it. */
  ghost predicate PlainName(name: string) {
    name != "" && Trimmed(name) && Unbroken(name) && ':' !in name
  }

  ghost predicate CleanFields(fields: seq<Field>) {
    forall i :: 0 <= i < |fields| ==> PlainName(fields[i].name) && CleanValue(fields[i].value)
  }

  lemma FieldReadsBack(r: Reading, f: Field, lib: Library)
    requires PlainName(f.name) && CleanValue(f.value)
    ensures var line := f.name + ": " + f.value;
            line != "" && Unbroken(line)
            && ReadLine(r, line, lib) == Reading(r.headers[ToLower(f.name, lib) := f.value], ToLower(f.name, lib))
  {
    hide TrimSpace, ToLower;
    var line := f.name + ": " + f.value;
    assert line[0] == f.name[0] && !IsSpace(f.name[0]);
    FieldCuts(f);
    TrimTrimmed(f.name);
    SpacesUnique(" ");
    TrimIndented(1, f.value);
  }

  lemma FieldCuts(f: Field)
    requires ':' !in f.name
    ensures Cut(f.name + ": " + f.value, ":") == Some((f.name, " " + f.value))
  {
    hide Cut;
    var rest := " " + f.value;
    var tail := ":" + rest;
    assert f.name + ": " + f.value == f.name + tail;
    SkipsLine(f.name, tail, ":");
    CutSkips(f.name, tail, ":");
    CutHere(":", rest);
    assert f.name + [] == f.name;
  }

  lemma CutHere(sep: string, rest: string)
    ensures Cut(sep + rest, sep) == Some(([], rest))
  {
  }

  /** The value of the last field of that name. */
  function Lookup(fields: seq<Field>, key: string, lib: Library): Option<string> {
    if fields == [] then None
    else
      var n := |fields| - 1;
      if ToLower(fields[n].name, lib) == key then Some(fields[n].value) else Lookup(fields[..n], key, lib)
  }

  lemma {:induction false} FieldsReadBack(fields: seq<Field>, key: string, lib: Library)
    requires CleanFields(fields)
    ensures var h := ReadLines(Reading(map[], ""), Lines(fields), lib).headers;
            if Lookup(fields, key, lib).Some? then key in h && h[key] == Lookup(fields, key, lib).value else key !in h
  {
    if fields != [] {
      var n := |fields| - 1;
      var front := fields[..n];
      FieldsReadBack(front, key, lib);
      assert Lines(fields)[..n] == Lines(front);
      FieldReadsBack(ReadLines(Reading(map[], ""), Lines(front), lib), fields[n], lib);
    }
  }

  lemma FieldsAreLines(fields: seq<Field>, lib: Library)
    requires CleanFields(fields)
    ensures FullLines(Lines(fields))
  {
    forall i | 0 <= i < |fields|
      ensures Lines(fields)[i] != "" && Unbroken(Lines(fields)[i])
    {
      FieldReadsBack(Reading(map[], ""), fields[i], lib);
    }
  }

  lemma {:induction false} LookupJoins(a: seq<Field>, b: seq<Field>, key: string, lib: Library)
    ensures Lookup(a + b, key, lib) == if Lookup(b, key, lib).Some? then Lookup(b, key, lib) else Lookup(a, key, lib)
    decreases |b|
  {
    if b == [] {
      assert a + b == a;
    } else {
      var n := |b| - 1;
      LookupJoins(a, b[..n], key, lib);
      assert (a + b)[..|a + b| - 1] == a + b[..n];
    }
  }

  lemma {:induction false} LowerAt(s: string, lib: Library)
    ensures forall i :: 0 <= i < |s| ==> ToLower(s, lib)[i] == LowerRune(s[i], lib)
  {
    if s != [] {
      LowerAt(s[1..], lib);
    }
  }

  lemma LowerNames(lib: Library)
    ensures ToLower("From", lib) == "from" && ToLower("To", lib) == "to" && ToLower("Cc", lib) == "cc"
            && ToLower("Bcc", lib) == "bcc"
    ensures ToLower("Reply-To", lib) == "reply-to" && ToLower("Subject", lib) == "subject"
            && ToLower("Date", lib) == "date"
    ensures ToLower("Message-ID", lib) == "message-id" && ToLower("References", lib) == "references"
    ensures ToLower("In-Reply-To", lib) == "in-reply-to"
  {
    hide ToLower;
    LowerAt("From", lib);
    LowerAt("To", lib);
    LowerAt("Cc", lib);
    LowerAt("Bcc", lib);
    LowerAt("Reply-To", lib);
    LowerAt("Subject", lib);
    LowerAt("Date", lib);
    LowerAt("Message-ID", lib);
    LowerAt("References", lib);
    LowerAt("In-Reply-To", lib);
  }

  lemma LookupOne(name: string, value: string, key: string, lib: Library)
    ensures Lookup([Field(name, value)], key, lib) == if ToLower(name, lib) == key then Some(value) else None
    ensures Lookup(IfPresent(name, value), key, lib)
            == if ToLower(name, lib) == key && value != "" then Some(value) else None
  {
  }

  /** The value the writer gives a header, if it writes the header. */
  function Written(m: Message, key: string): Option<string> {
    if key == "in-reply-to" && m.inReplyTo != "" then Some(m.inReplyTo)
    else if key == "references" && m.references != "" then Some(m.references)
    else if key == "message-id" then Some(m.messageId)
    else if key == "date" then Some(m.date)
    else if key == "subject" then Some(m.subject)
    else if key == "reply-to" && m.replyTo != "" then Some(m.replyTo)
    else if key == "bcc" && m.bcc != "" then Some(m.bcc)
    else if key == "cc" && m.cc != "" then Some(m.cc)
    else if key == "to" then Some(m.to)
    else if key == "from" then Some(m.from)
    else None
  }

  function Front(m: Message): seq<Field> {
    [Field("From", m.from)] + [Field("To", m.to)] + IfPresent("Cc", m.cc) + IfPresent("Bcc", m.bcc)
      + IfPresent("Reply-To", m.replyTo)
  }

  function Back(m: Message): seq<Field> {
    [Field("Subject", m.subject)] + [Field("Date", m.date)] + [Field("Message-ID", m.messageId)]
    + IfPresent("References", m.references) + IfPresent("In-Reply-To", m.inReplyTo)
  }

  lemma FieldsAreFrontAndBack(m: Message)
    ensures Fields(m) == Front(m) + Back(m)
  {
    hide IfPresent;
    var cc, bcc, reply := IfPresent("Cc", m.cc), IfPresent("Bcc", m.bcc), IfPresent("Reply-To", m.replyTo);
    var references, inReply := IfPresent("References", m.references), IfPresent("In-Reply-To", m.inReplyTo);
    var mid := [Field("Subject", m.subject), Field("Date", m.date), Field("Message-ID", m.messageId)];
    assert Front(m) == [Field("From", m.from), Field("To", m.to)] + cc + bcc + reply;
    assert Back(m) == mid + references + inReply;
  }

  lemma LookupInFront(m: Message, key: string, lib: Library)
    ensures Lookup(Front(m), key, lib)
            == if key in ["from", "to", "cc", "bcc", "reply-to"] then Written(m, key) else None
  {
    hide Lookup, ToLower, IfPresent;
    LowerNames(lib);
    var a := [Field("From", m.from)] + [Field("To", m.to)];
    var b := a + IfPresent("Cc", m.cc);
    var c := b + IfPresent("Bcc", m.bcc);
    LookupJoins([Field("From", m.from)], [Field("To", m.to)], key, lib);
    LookupJoins(a, IfPresent("Cc", m.cc), key, lib);
    LookupJoins(b, IfPresent("Bcc", m.bcc), key, lib);
    LookupJoins(c, IfPresent("Reply-To", m.replyTo), key, lib);
    LookupOne("From", m.from, key, lib);
    LookupOne("To", m.to, key, lib);
    LookupOne("Cc", m.cc, key, lib);
    LookupOne("Bcc", m.bcc, key, lib);
    LookupOne("Reply-To", m.replyTo, key, lib);
  }

  lemma LookupInBack(m: Message, key: string, lib: Library)
    ensures Lookup(Back(m), key, lib) ==
            if key in ["subject", "date", "message-id", "references", "in-reply-to"] then Written(m, key) else None
  {
    hide Lookup, ToLower, IfPresent;
    LowerNames(lib);
    var a := [Field("Subject", m.subject)] + [Field("Date", m.date)];
    var b := a + [Field("Message-ID", m.messageId)];
    var c := b + IfPresent("References", m.references);
    LookupJoins([Field("Subject", m.subject)], [Field("Date", m.date)], key, lib);
    LookupJoins(a, [Field("Message-ID", m.messageId)], key, lib);
    LookupJoins(b, IfPresent("References", m.references), key, lib);
    LookupJoins(c, IfPresent("In-Reply-To", m.inReplyTo), key, lib);
    LookupOne("Subject", m.subject, key, lib);
    LookupOne("Date", m.date, key, lib);
    LookupOne("Message-ID", m.messageId, key, lib);
    LookupOne("References", m.references, key, lib);
    LookupOne("In-Reply-To", m.inReplyTo, key, lib);
  }

  lemma LookupInFields(m: Message, key: string, lib: Library)
    ensures Lookup(Fields(m), key, lib) == Written(m, key)
  {
    hide Lookup, Front, Back, Fields;
    FieldsAreFrontAndBack(m);
    LookupJoins(Front(m), Back(m), key, lib);
    LookupInFront(m, key, lib);
    LookupInBack(m, key, lib);
  }

  lemma CleanOne(name: string, value: string)
    requires PlainName(name) && CleanValue(value)
    ensures CleanFields([Field(name, value)]) && CleanFields(IfPresent(name, value))
  {
    hide PlainName, CleanValue;
  }

  lemma CleanJoins(a: seq<Field>, b: seq<Field>)
    requires CleanFields(a) && CleanFields(b)
    ensures CleanFields(a + b)
  {
    hide PlainName, CleanValue;
  }

  predicate IsNameRune(c: char) {
    'A' <= c <= 'Z' || 'a' <= c <= 'z' || c == '-'
  }

  lemma LettersArePlain(name: string)
    requires name != "" && forall i :: 0 <= i < |name| ==> IsNameRune(name[i])
    ensures PlainName(name)
  {
  }

  lemma NamesArePlain()
    ensures PlainName("From") && PlainName("To") && PlainName("Cc") && PlainName("Bcc") && PlainName("Reply-To")
    ensures PlainName("Subject") && PlainName("Date") && PlainName("Message-ID") && PlainName("References")
            && PlainName("In-Reply-To")
  {
    hide PlainName;
    LettersArePlain("From");
    LettersArePlain("To");
    LettersArePlain("Cc");
    LettersArePlain("Bcc");
    LettersArePlain("Reply-To");
    LettersArePlain("Subject");
    LettersArePlain("Date");
    LettersArePlain("Message-ID");
    LettersArePlain("References");
    LettersArePlain("In-Reply-To");
  }

  lemma FieldsAreClean(m: Message)
    requires CleanHeaders(m)
    ensures CleanFields(Fields(m))
  {
    hide PlainName, CleanValue, CleanFields, IfPresent, Fields;
    NamesArePlain();
    CleanOne("From", m.from);
    CleanOne("To", m.to);
    CleanOne("Cc", m.cc);
    CleanOne("Bcc", m.bcc);
    CleanOne("Reply-To", m.replyTo);
    CleanOne("Subject", m.subject);
    CleanOne("Date", m.date);
    CleanOne("Message-ID", m.messageId);
    CleanOne("References", m.references);
    CleanOne("In-Reply-To", m.inReplyTo);
    var a := [Field("From", m.from)] + [Field("To", m.to)];
    CleanJoins([Field("From", m.from)], [Field("To", m.to)]);
    CleanJoins(a, IfPresent("Cc", m.cc));
    CleanJoins(a + IfPresent("Cc", m.cc), IfPresent("Bcc", m.bcc));
    CleanJoins(a + IfPresent("Cc", m.cc) + IfPresent("Bcc", m.bcc), IfPresent("Reply-To", m.replyTo));
    var b := [Field("Subject", m.subject)] + [Field("Date", m.date)];
    CleanJoins([Field("Subject", m.subject)], [Field("Date", m.date)]);
    CleanJoins(b, [Field("Message-ID", m.messageId)]);
    CleanJoins(b + [Field("Message-ID", m.messageId)], IfPresent("References", m.references));
    CleanJoins(b + [Field("Message-ID", m.messageId)] + IfPresent("References", m.references),
               IfPresent("In-Reply-To", m.inReplyTo));
    CleanJoins(Front(m), Back(m));
    FieldsAreFrontAndBack(m);
  }

  // ---------------------------------------------------------------- the round trip

  /** What a reader finds in the headers of a written message. */
  ghost predicate SameHeaders(h: Headers, m: Message) {
    && Header(h, "from") == m.from && Header(h, "to") == m.to && Header(h, "cc") == m.cc && Header(h, "bcc") == m.bcc
    && Header(h, "reply-to") == m.replyTo && Header(h, "subject") == m.subject && Header(h, "date") == m.date
    && Header(h, "message-id") == m.messageId && Header(h, "references") == m.references
      && Header(h, "in-reply-to") == m.inReplyTo
  }

  lemma HeaderReadsBack(m: Message, key: string, lib: Library)
    requires CleanHeaders(m)
    ensures var h := ParseHeaders(Join(Lines(Fields(m)), CRLF), lib);
            match Written(m, key) case Some(v) => key in h && h[key] == v case None => key !in h
  {
    hide Lines, Fields, Join, CleanHeaders, Written;
    FieldsAreClean(m);
    FieldsAreLines(Fields(m), lib);
    SomeFields(m);
    LinesComeBack(Lines(Fields(m)));
    FieldsReadBack(Fields(m), key, lib);
    LookupInFields(m, key, lib);
  }

  lemma SomeFields(m: Message)
    ensures Fields(m) != []
  {
  }

  lemma HeadersReadBack(m: Message, lib: Library)
    requires CleanHeaders(m)
    ensures var h := ParseHeaders(Join(Lines(Fields(m)), CRLF), lib);
            SameHeaders(h, m) && "content-type" !in h && "content-disposition" !in h
              && "content-transfer-encoding" !in h
  {
    hide Fields, Lines, ParseHeaders, CleanHeaders, Join;
    FrontReadsBack(m, lib);
    HeaderReadsBack(m, "subject", lib);
    HeaderReadsBack(m, "date", lib);
    HeaderReadsBack(m, "message-id", lib);
    HeaderReadsBack(m, "references", lib);
    HeaderReadsBack(m, "in-reply-to", lib);
    NothingElseReadsBack(m, lib);
  }

  lemma FrontReadsBack(m: Message, lib: Library)
    requires CleanHeaders(m)
    ensures var h := ParseHeaders(Join(Lines(Fields(m)), CRLF), lib);
            Header(h, "from") == m.from && Header(h, "to") == m.to && Header(h, "cc") == m.cc
              && Header(h, "bcc") == m.bcc
            && Header(h, "reply-to") == m.replyTo
  {
    hide Fields, Lines, ParseHeaders, CleanHeaders, Join;
    HeaderReadsBack(m, "from", lib);
    HeaderReadsBack(m, "to", lib);
    HeaderReadsBack(m, "cc", lib);
    HeaderReadsBack(m, "bcc", lib);
    HeaderReadsBack(m, "reply-to", lib);
  }

  lemma NothingElseReadsBack(m: Message, lib: Library)
    requires CleanHeaders(m)
    ensures var h := ParseHeaders(Join(Lines(Fields(m)), CRLF), lib);
            "content-type" !in h && "content-disposition" !in h && "content-transfer-encoding" !in h
  {
    hide Fields, Lines, ParseHeaders, CleanHeaders, Join;
    HeaderReadsBack(m, "content-type", lib);
    HeaderReadsBack(m, "content-disposition", lib);
    HeaderReadsBack(m, "content-transfer-encoding", lib);
  }

  /** For every message with trimmed headers free of line breaks, the base64 form of the written message is read back
      with the same headers and the text, trimmed, that was written, and nothing else. */
  lemma MessageReadsBack(m: Message, lib: Library)
    requires Faithful(lib) && CleanHeaders(m)
    ensures var r := ParseRaw(Encode(lib.bytes(BuildMessageText(m, lib))), lib);
            var text := FirstNonEmpty(m.bodyText, lib.stripHTML(m.bodyHTML));
            r.Some? && SameHeaders(r.value.headers, m)
            && r.value.bodyText == TrimSpace(text) && (Trimmed(text) ==> r.value.bodyText == text)
            && r.value.bodyHTML == "" && r.value.attachments == []
  {
    hide Fields, Lines, ParseHeaders, CleanHeaders, Join, Encode, Decode, SameHeaders, Cut, TrimSpace;
    var text, body := BuildMessageText(m, lib), FirstNonEmpty(m.bodyText, lib.stripHTML(m.bodyHTML));
    var header := Join(Lines(Fields(m)), CRLF);
    DecodeEncode(lib.bytes(text));
    FieldsAreClean(m);
    FieldsAreLines(Fields(m), lib);
    SomeFields(m);
    CutHeader(Lines(Fields(m)), body);
    HeadersReadBack(m, lib);
    var h := ParseHeaders(header, lib);
    assert SplitEntity(text) == (header, body);
    LeafReadsBack(h, body, lib);
    if Trimmed(body) {
      TrimTrimmed(body);
    }
  }

  lemma LeafReadsBack(h: Headers, body: string, lib: Library)
    requires Faithful(lib)
    requires "content-type" !in h && "content-disposition" !in h && "content-transfer-encoding" !in h
    ensures ReadBody(h, body, Parsed(h, "", "", []), true, lib) == Parsed(h, TrimSpace(body), "", [])
  {
    hide TrimSpace, ReadParts, SplitAt;
  }
}
