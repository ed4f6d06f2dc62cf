/** Parsing the printed text of a configuration gives the configuration back. */
module YamlRoundTrip {
  import opened Tables
  import opened GoText
  import opened YamlText
  import opened GoNumbers
  import opened YamlParser
  import opened YamlPrinter

  // ---------------------------------------------------------------- what is expected

  /** The generic value a printed configuration value stands for. */
  function Meaning(v: Config): Yaml
    decreases v
  {
    match v
    case CMap(f) => YMap(Meanings(f))
    case CMapList(_) => YSeq(seq(|v.items|, i requires 0 <= i < |v.items| => YMap(Meanings(v.items[i]))))
    case CStrList(strings) => YSeq(seq(|strings|, i requires 0 <= i < |strings| => YStr(strings[i])))
    case CStr(s) => YStr(s)
    case CBool(b) => YBool(b)
    case CInt(n) => YInt(n)
    case COther => YNull
  }

  function Meanings(f: Fields): map<string, Yaml>
    decreases f
  {
    map k | k in f.m :: Meaning(f.m[k])
  }

  /** A key that the scanners read as it is written: it is trimmed and on one line, does not start like an item of a
      sequence, closes its quotes, and outside them has no colon before a blank and no hash that starts a comment. */
  predicate ReadableKey(k: string) {
    && k != "" && Trimmed(k) && '\n' !in k && !(DASH <= k)
    && NoColon(k, START) && Steps(START, k) == START && CommentAt(k, START, true) == None
  }

  /** A word without white space, colons, hashes and quotes, such as an identifier. */
  predicate PlainWord(k: string) {
    k != "" && forall i :: 0 <= i < |k| ==> !IsSpace(k[i]) && k[i] !in ":#'\""
  }

  ghost predicate ReadableKeys(v: Config)
    decreases v
  {
    match v
    case CMap(f) => AllReadable(f)
    case CMapList(_) => forall i :: 0 <= i < |v.items| ==> AllReadable(v.items[i])
    case _ => true
  }

  ghost predicate AllReadable(f: Fields)
    decreases f
  {
    forall k :: k in f.m ==> ReadableKey(k) && ReadableKeys(f.m[k])
  }

  // ---------------------------------------------------------------- texts that survive the tokenizer

  ghost predicate OneLine(s: string) {
    '\n' !in s
  }

  /** A text every scanner passes over as a whole. */
  ghost predicate Token(s: string) {
    s != "" && Trimmed(s) && OneLine(s) && NoBareMarks(s, START) && Steps(START, s) == START
  }

  ghost predicate CleanText(s: string) {
    s != "" && Trimmed(s) && OneLine(s) && CommentAt(s, START, true) == None
  }

  ghost predicate Clean(line: Line) {
    line.indent % 2 == 0 && CleanText(line.text)
  }

  ghost predicate AllClean(ls: seq<Line>) {
    forall i :: 0 <= i < |ls| ==> Clean(ls[i])
  }

  lemma TokenEnds(t: string)
    requires Token(t)
    ensures ColonAt(t, START) == None && CommentAt(t, START, true) == None && CleanText(t)
  {
    ColonBehind(t, "", START);
    CommentBehind(t, "", START, true);
    assert t + "" == t;
  }

  lemma {:induction false} PlainPasses(s: string)
    requires forall i :: 0 <= i < |s| ==> s[i] !in ":#'\""
    ensures NoBareMarks(s, START) && Steps(START, s) == START
    decreases |s|
  {
    if s != "" {
      PlainPasses(s[1..]);
    }
  }

  lemma PlainWordIsToken(k: string)
    requires PlainWord(k)
    ensures Token(k)
  {
    PlainPasses(k);
  }

  lemma QuoteEnds(s: string, lib: Library)
    ensures var q := Quote(s, lib); |q| >= 2 && q[0] == '"' && q[|q| - 1] == '"' && Trimmed(q)
  {
  }

  lemma ParseQuoted(t: string, s: string, lib: Library)
    requires t != "" && t[0] == '"' && Trimmed(t) && Unquote(t) == Some(s)
    ensures ParseScalar(t, lib) == Ok(YStr(s)) && !IsBlockScalar(t)
  {
    TrimTrimmed(t);
    hide Unquote, TrimSpace, ParseScalars, ParseInt, ReplaceDoubledQuotes, SplitInline;
  }

  lemma ParseNumber(t: string, n: int, lib: Library)
    requires t != "" && Trimmed(t) && (t[0] == '-' || '0' <= t[0] <= '9') && '0' <= t[|t| - 1] <= '9'
    requires ParseInt(t) == Some(n)
    ensures ParseScalar(t, lib) == Ok(YInt(n)) && !IsBlockScalar(t)
  {
    TrimTrimmed(t);
    hide Unquote, TrimSpace, ParseScalars, ParseInt, ReplaceDoubledQuotes, SplitInline;
    NumberIsNoWord(t);
  }

  lemma NumberIsNoWord(t: string)
    requires t != "" && (t[0] == '-' || '0' <= t[0] <= '9')
    ensures t !in ["null", "Null", "NULL", "~"] && t !in ["true", "True", "TRUE"] && t !in ["false", "False", "FALSE"]
    ensures t != "{}" && t != "[]" && t !in ["|", ">", "|-", ">-", "|+", ">+"]
  {
  }

  /** The fixed words of the format. */
  lemma WordLaw(t: string, lib: Library)
    requires t in ["true", "false", "{}", "[]"]
    ensures Token(t) && !IsBlockScalar(t)
    ensures ParseScalar(t, lib) == Ok(if t == "{}" then YMap(map[]) else if t == "[]" then YSeq([])
                                      else YBool(t == "true"))
  {
    assert PlainWord(t);
    PlainWordIsToken(t);
    WordParses(t, lib);
  }

  lemma WordParses(t: string, lib: Library)
    requires t in ["true", "false", "{}", "[]"]
    ensures !IsBlockScalar(t)
    ensures ParseScalar(t, lib) == Ok(if t == "{}" then YMap(map[]) else if t == "[]" then YSeq([])
                                      else YBool(t == "true"))
  {
    TrimTrimmed(t);
    hide Unquote, TrimSpace, ParseScalars, ParseInt, ReplaceDoubledQuotes, SplitInline;
    WordIsNoBlockMark(t);
  }

  lemma WordIsNoBlockMark(t: string)
    requires t in ["true", "false", "{}", "[]"]
    ensures t !in ["|", ">", "|-", ">-", "|+", ">+"] && t !in ["null", "Null", "NULL", "~"]
  {
    assert t[0] in "tf{[";
  }

  lemma ScalarIsToken(v: Config, lib: Library)
    requires ControlsHidden(lib)
    requires v.CStr? || v.CBool? || v.CInt?
    ensures Token(ScalarText(v, lib)) && !IsBlockScalar(ScalarText(v, lib))
    ensures ParseScalar(ScalarText(v, lib), lib) == Ok(Meaning(v))
  {
    hide Quote, Itoa, ParseScalar, IsBlockScalar, Unquote, ParseInt, IsSpace, NoBareMarks, Steps, ControlsHidden;
    match v
    case CStr(s) =>
      QuoteIsToken(s, lib);
      QuoteHasNoBreak(s, lib);
      UnquoteQuote(s, lib);
      QuoteEnds(s, lib);
      ParseQuoted(Quote(s, lib), s, lib);
    case CBool(b) =>
      WordLaw(if b then "true" else "false", lib);
    case CInt(n) =>
      ItoaReadsBack(n);
      DigitsArePlain(Itoa(n));
      PlainWordIsToken(Itoa(n));
      ParseNumber(Itoa(n), n, lib);
  }

  lemma DigitsArePlain(t: string)
    requires t != "" && forall i :: 0 <= i < |t| ==> t[i] == '-' || '0' <= t[i] <= '9'
    ensures PlainWord(t)
  {
  }

  lemma EmptyMeaning(v: Config)
    requires Empty(v)
    ensures Meaning(v) == if v.CMap? then YMap(map[]) else YSeq([])
  {
    if v.CMap? {
      assert Meanings(v.fields) == map[];
    } else {
      assert Meaning(v).items == [];
    }
  }

  lemma HeadLaw(v: Config, lib: Library)
    requires ControlsHidden(lib) && Supported(v)
    ensures Head(v, lib) == "" <==> IsContainer(v) && !Empty(v)
    ensures Head(v, lib) != "" ==> Token(Head(v, lib)) && !IsBlockScalar(Head(v, lib)) && TrimSpace(Head(v, lib)) != ""
    ensures Head(v, lib) != "" ==> ParseScalar(Head(v, lib), lib) == Ok(Meaning(v))
  {
    hide ParseScalar, IsBlockScalar, ScalarText, NoBareMarks, Steps, ControlsHidden;
    if !IsContainer(v) {
      ScalarIsToken(v, lib);
      TrimTrimmed(ScalarText(v, lib));
    } else if Empty(v) {
      WordLaw(Head(v, lib), lib);
      TrimTrimmed(Head(v, lib));
      EmptyMeaning(v);
    }
  }

  /** A field's line is clean and splits at the colon behind its key. */
  lemma FieldTextLaw(key: string, head: string)
    requires ReadableKey(key) && (head == "" || Token(head))
    ensures var t := FieldText(key, head);
            CleanText(t) && SplitKeyValue(t) == Some((key, head)) && !(DASH <= t) && t[0] == key[0]
  {
    hide FieldText, CleanText, SplitKeyValue, ReadableKey, Token;
    FieldTextSplits(key, head);
    FieldTextClean(key, head);
  }

  lemma FieldTextSplits(key: string, head: string)
    requires ReadableKey(key) && (head == "" || Token(head))
    ensures SplitKeyValue(FieldText(key, head)) == Some((key, head))
  {
    var t, mark := FieldText(key, head), FieldText("", head);
    FieldTextParts(key, head);
    MarkLaw(head);
    hide FieldText, IsSpace, NoBareMarks, Steps, ColonAt, CommentAt, TrimSpace, NoColon, IsBlank, OneLine;
    ColonPasses(key, mark, START);
    TrimTrimmed(key);
    assert t[..|key|] == key && t[|key| + 1..] == mark[1..];
  }

  lemma FieldTextClean(key: string, head: string)
    requires ReadableKey(key) && (head == "" || Token(head))
    ensures var t := FieldText(key, head); CleanText(t) && !(DASH <= t) && t[0] == key[0]
  {
    var t, mark := FieldText(key, head), FieldText("", head);
    FieldTextParts(key, head);
    MarkLaw(head);
    assert !IsBlank(key[|key| - 1]);
    hide FieldText, IsSpace, NoBareMarks, Steps, ColonAt, CommentAt, TrimSpace, NoColon, IsBlank;
    ColonIsNoBlank();
    CommentPasses(key, mark, START, true);
    assert t[|t| - 1] == mark[|mark| - 1];
    NoDashBefore(key, mark);
  }

  lemma ColonIsNoBlank()
    ensures !IsBlank(':')
  {
  }

  lemma FieldTextParts(key: string, head: string)
    ensures FieldText(key, head) == key + FieldText("", head) && FieldText("", head) != ""
            && FieldText("", head)[0] == ':'
  {
  }

  lemma NoDashBefore(key: string, mark: string)
    requires key != "" && !(DASH <= key) && mark != "" && mark[0] == ':'
    ensures !(DASH <= key + mark)
  {
    assert |key| > 1 ==> (key + mark)[..2] == key[..2];
    assert |key| == 1 ==> (key + mark)[1] == ':';
  }

  /** Identifiers are readable. */
  lemma PlainWordIsReadable(k: string)
    requires PlainWord(k)
    ensures ReadableKey(k)
  {
    PlainPasses(k);
    ColonBehind(k, ".", START);
    CommentBehind(k, "", START, true);
    assert k + "" == k && "."[1..] == "";
    assert |k| > 1 ==> !IsSpace(k[1]);
  }

  /** The colon behind a key, and the value behind the colon. */
  lemma MarkLaw(head: string)
    requires head == "" || Token(head)
    ensures var mark := FieldText("", head);
            mark != "" && ColonAt(mark, START) == Some(0) && CommentAt(mark, START, false) == None
              && TrimSpace(mark[1..]) == head
            && OneLine(mark) && !IsSpace(mark[|mark| - 1])
  {
    var mark := FieldText("", head);
    if head == "" {
      assert mark == ":" && mark[1..] == "";
    } else {
      assert mark == ": " + head;
      SpacedLaw(mark, head);
    }
  }

  lemma SpacedLaw(mark: string, head: string)
    requires Token(head) && mark == ": " + head
    ensures ColonAt(mark, START) == Some(0) && CommentAt(mark, START, false) == None && TrimSpace(mark[1..]) == head
    ensures OneLine(mark) && !IsSpace(mark[|mark| - 1])
  {
    TokenEnds(head);
    TrimIndented(1, head);
    SpacesUnique(" ");
    assert mark[1..] == " " + head && mark[|mark| - 1] == head[|head| - 1];
    CommentAfterColon(mark, head);
    hide NoBareMarks, Steps, IsSpace, TrimSpace, Spaces, CommentAt;
  }

  lemma CommentAfterColon(mark: string, head: string)
    requires mark == ": " + head && CommentAt(head, START, true) == None
    ensures CommentAt(mark, START, false) == None
  {
    var spaced := " " + head;
    assert mark[1..] == spaced && spaced[1..] == head;
    assert CommentAt(spaced, START, false) == None;
  }

  lemma DashLaw(t: string)
    requires CleanText(t)
    ensures CleanText(DASH + t) && DASH <= DASH + t && TrimSpace((DASH + t)[2..]) == t
  {
    PlainPasses(DASH);
    CommentBehind(DASH, t, START, true);
    assert (DASH + t)[2..] == t;
    TrimTrimmed(t);
  }

  lemma EmptyItemLaw(lib: Library)
    ensures CleanText("- {}") && DASH <= "- {}" && TrimSpace("- {}"[2..]) == "{}"
    ensures SplitKeyValue("{}") == None && ParseScalar("{}", lib) == Ok(YMap(map[]))
  {
    hide ParseScalar, CleanText, TrimSpace, ColonAt;
    WordLaw("{}", lib);
    TokenEnds("{}");
    DashLaw("{}");
    assert DASH + "{}" == "- {}";
  }

  // ---------------------------------------------------------------- lines come back

  lemma LineReadsBack(line: Line)
    requires Clean(line)
    ensures TokenizeLine(Spaces(line.indent) + line.text) == Ok(Some(line))
    ensures var s := Spaces(line.indent) + line.text; OneLine(s) && s != "" && !IsSpace(s[|s| - 1])
  {
    hide IsSpace, TrimSpace, LeadingSpaces, NoBareMarks, Steps, CommentAt;
    var pad := Spaces(line.indent);
    var s := pad + line.text;
    assert s[|s| - 1] == line.text[|line.text| - 1];
    TrimIndented(line.indent, line.text);
    PaddingHasNoComment(line.indent, line.text);
    SpaceIsSpace();
    LeadingOf(line.indent, line.text);
    assert s[line.indent] == line.text[0];
  }

  lemma SpaceIsSpace()
    ensures IsSpace(' ') && IsSpace('\t')
  {
  }

  lemma PaddingHasNoComment(n: nat, text: string)
    requires CommentAt(text, START, true) == None
    ensures CommentAt(Spaces(n) + text, START, true) == None
  {
    hide CommentAt;
    PlainPasses(Spaces(n));
    CommentBehind(Spaces(n), text, START, true);
  }

  lemma {:induction false} LeadingOf(n: nat, t: string)
    requires t != "" && t[0] != ' '
    ensures LeadingSpaces(Spaces(n) + t) == n
  {
    if n == 0 {
      assert Spaces(0) + t == t;
    } else {
      assert (Spaces(n) + t)[1..] == Spaces(n - 1) + t;
      LeadingOf(n - 1, t);
    }
  }

  lemma {:induction false} RenderSplits(ls: seq<Line>)
    requires forall i :: 0 <= i < |ls| ==> Clean(ls[i])
    ensures !HasPair(Render(ls))
    ensures TokenizeLines(Split(Render(ls), '\n')) == Ok(ls)
  {
    hide Spaces, Clean, TokenizeLine, TokenizeLines, Split, OneLine;
    if ls == [] {
      NothingSplits();
    } else {
      var first := Spaces(ls[0].indent) + ls[0].text;
      LineReadsBack(ls[0]);
      RenderSplits(ls[1..]);
      NoReturnJoins(first, Render(ls[1..]));
      assert Render(ls) == first + ['\n'] + Render(ls[1..]);
      SplitFirst(first, Render(ls[1..]), '\n');
      TokenizeStep(first, ls[0], Split(Render(ls[1..]), '\n'), ls[1..]);
      assert [ls[0]] + ls[1..] == ls;
    }
  }

  lemma NothingSplits()
    ensures TokenizeLines(Split("", '\n')) == Ok([])
  {
    assert [""][1..] == [];
  }

  lemma NoReturnJoins(first: string, rest: string)
    requires OneLine(first) && first != "" && !IsSpace(first[|first| - 1]) && !HasPair(rest)
    ensures !HasPair(first + "\n" + rest) && '\n' !in first
  {
    var s, n := first + "\n" + rest, |first|;
    forall i | 0 <= i < |s| - 1
      ensures !(s[i] == '\r' && s[i + 1] == '\n')
    {
      if i < n - 1 {
        assert s[i + 1] == first[i + 1];
      } else if i > n {
        assert s[i] == rest[i - n - 1] && s[i + 1] == rest[i - n];
      }
    }
  }

  lemma TokenizeStep(source: string, line: Line, sources: seq<string>, ls: seq<Line>)
    requires TokenizeLine(source) == Ok(Some(line)) && TokenizeLines(sources) == Ok(ls)
    ensures TokenizeLines([source] + sources) == Ok([line] + ls)
  {
    hide TokenizeLine;
    assert ([source] + sources)[1..] == sources;
  }

  /** The tokenizer reads printed lines back. */
  lemma TokenizeRender(ls: seq<Line>)
    requires AllClean(ls)
    ensures Tokenize(Render(ls)) == Ok(ls)
  {
    RenderSplits(ls);
    NoPairsStay(Render(ls));
  }

  // ---------------------------------------------------------------- printed lines are clean

  lemma CleanJoins(a: seq<Line>, b: seq<Line>)
    requires AllClean(a) && AllClean(b)
    ensures AllClean(a + b)
  {
  }

  lemma DashedClean(ls: seq<Line>, indent: nat, lib: Library)
    requires AllClean(ls) && indent % 2 == 0
    ensures AllClean(Dashed(ls, indent))
  {
    hide CleanText;
    if ls != [] {
      DashLaw(ls[0].text);
    } else {
      EmptyItemLaw(lib);
    }
  }

  lemma {:induction false} BodyClean(v: Config, indent: nat, lib: Library)
    requires ControlsHidden(lib) && Supported(v) && ReadableKeys(v) && indent % 2 == 0
    ensures AllClean(Body(v, indent, lib))
    decreases v, |if v.CMapList? then v.items else []| + 1
  {
    match v
    case CMap(f) => MapClean(f, SortKeys(f.m.Keys), indent, lib);
    case CMapList(_) => ItemsClean(v, 0, indent, lib);
    case CStrList(strings) => StringsClean(strings, indent, lib);
    case _ =>
  }

  lemma {:induction false} MapClean(f: Fields, keys: seq<string>, indent: nat, lib: Library)
    requires forall k :: k in keys ==> k in f.m
    requires ControlsHidden(lib) && AllSupported(f) && AllReadable(f) && indent % 2 == 0
    ensures AllClean(MapLines(f, keys, indent, lib))
    ensures keys != [] ==> MapLines(f, keys, indent, lib) != []
    decreases f, |keys|
  {
    if keys != [] {
      var k, v := keys[0], f.m[keys[0]];
      hide Head, FieldText, Body, CleanText, Token, SplitKeyValue, IsSpace;
      HeadLaw(v, lib);
      FieldTextLaw(k, Head(v, lib));
      BodyClean(v, indent + 2, lib);
      MapClean(f, keys[1..], indent, lib);
      CleanJoins([Line(indent, FieldText(k, Head(v, lib)))], Body(v, indent + 2, lib));
      CleanJoins(FieldLines(k, v, indent, lib), MapLines(f, keys[1..], indent, lib));
    }
  }

  lemma {:induction false} ItemsClean(v: Config, i: nat, indent: nat, lib: Library)
    requires v.CMapList? && i <= |v.items|
    requires ControlsHidden(lib) && Supported(v) && ReadableKeys(v) && indent % 2 == 0
    ensures AllClean(ItemLines(v, i, indent, lib))
    decreases v, |v.items| - i
  {
    hide MapLines, ItemLines, SortKeys, Dashed, AllClean, AllSupported, AllReadable, ControlsHidden;
    if i < |v.items| {
      ItemsNext(v, i, indent, lib);
      var f := v.items[i];
      var ls := MapLines(f, SortKeys(f.m.Keys), indent + 2, lib);
      MapClean(f, SortKeys(f.m.Keys), indent + 2, lib);
      ItemsClean(v, i + 1, indent, lib);
      DashedClean(ls, indent, lib);
      CleanJoins(Dashed(ls, indent), ItemLines(v, i + 1, indent, lib));
    } else {
      NoItems(v, indent, lib);
    }
  }

  lemma NoItems(v: Config, indent: nat, lib: Library)
    requires v.CMapList?
    ensures AllClean(ItemLines(v, |v.items|, indent, lib))
  {
  }

  lemma {:induction false} StringsClean(strings: seq<string>, indent: nat, lib: Library)
    requires ControlsHidden(lib) && indent % 2 == 0
    ensures AllClean(StringLines(strings, indent, lib))
  {
    if strings != [] {
      ScalarIsToken(CStr(strings[0]), lib);
      TokenEnds(Quote(strings[0], lib));
      DashLaw(Quote(strings[0], lib));
      StringsClean(strings[1..], indent, lib);
    }
  }

  // ---------------------------------------------------------------- the parser reads them

  /** `part` stands in `ls` at `pos`. */
  ghost predicate At(ls: seq<Line>, pos: nat, part: seq<Line>) {
    pos + |part| <= |ls| && ls[pos..pos + |part|] == part
  }

  /** What starts at `pos` is indented less than `indent`. */
  ghost predicate Ends(ls: seq<Line>, pos: nat, indent: nat) {
    pos == |ls| || (pos < |ls| && ls[pos].indent < indent)
  }

  lemma AtSplits(ls: seq<Line>, pos: nat, a: seq<Line>, b: seq<Line>)
    requires At(ls, pos, a + b)
    ensures At(ls, pos, a) && At(ls, pos + |a|, b)
  {
    assert ls[pos..pos + |a|] == (a + b)[..|a|] == a;
    assert ls[pos + |a|..pos + |a| + |b|] == (a + b)[|a|..] == b;
  }

  // One step of each parser loop.

  lemma FieldsStep(ls: seq<Line>, pos: nat, indent: nat, fields: map<string, Yaml>, key: string, raw: string,
                   v: Yaml, next: nat, lib: Library)
    requires pos < |ls| && ls[pos].indent == indent && !(DASH <= ls[pos].text)
    requires SplitKeyValue(ls[pos].text) == Some((key, raw)) && key != ""
    requires ParseValue(ls, pos + 1, raw, indent, lib) == Ok((v, next))
    ensures next <= |ls| && ParseFields(ls, pos, indent, fields, lib)
            == ParseFields(ls, next, indent, fields[key := v], lib)
  {
    hide ParseValue, SplitKeyValue;
  }

  lemma FieldsStop(ls: seq<Line>, pos: nat, indent: nat, fields: map<string, Yaml>, lib: Library)
    requires Ends(ls, pos, indent)
    ensures ParseFields(ls, pos, indent, fields, lib) == Ok((fields, pos))
  {
  }

  lemma SequenceStep(ls: seq<Line>, pos: nat, indent: nat, items: seq<Yaml>, v: Yaml, next: nat, lib: Library)
    requires pos < |ls| && ls[pos].indent == indent && DASH <= ls[pos].text
    requires ParseItem(ls, pos + 1, TrimSpace(ls[pos].text[2..]), indent, lib) == Ok((v, next))
    ensures next <= |ls| && ParseSequence(ls, pos, indent, items, lib)
            == ParseSequence(ls, next, indent, items + [v], lib)
  {
    hide ParseItem, TrimSpace;
  }

  lemma SequenceStop(ls: seq<Line>, pos: nat, indent: nat, items: seq<Yaml>, lib: Library)
    requires Ends(ls, pos, indent)
    ensures ParseSequence(ls, pos, indent, items, lib) == Ok((items, pos))
  {
  }

  lemma ItemStep(ls: seq<Line>, pos: nat, text: string, indent: nat, key: string, raw: string, v: Yaml, next: nat,
                 fields: map<string, Yaml>, end: nat, lib: Library)
    requires pos <= |ls| && text != "" && SplitKeyValue(text) == Some((key, raw))
    requires ParseValue(ls, pos, raw, indent, lib) == Ok((v, next))
    requires next <= |ls| && ParseFields(ls, next, indent + 2, map[key := v], lib) == Ok((fields, end))
    ensures ParseItem(ls, pos, text, indent, lib) == Ok((YMap(fields), end))
  {
    hide ParseValue, SplitKeyValue, ParseFields;
  }

  lemma BlockOfFields(ls: seq<Line>, pos: nat, indent: nat, fields: map<string, Yaml>, next: nat, lib: Library)
    requires pos < |ls| && ls[pos].indent == indent && !(DASH <= ls[pos].text)
    requires ParseFields(ls, pos, indent, map[], lib) == Ok((fields, next))
    ensures ParseBlock(ls, pos, indent, lib) == Ok((YMap(fields), next))
  {
    hide ParseFields;
  }

  lemma BlockOfItems(ls: seq<Line>, pos: nat, indent: nat, items: seq<Yaml>, next: nat, lib: Library)
    requires pos < |ls| && ls[pos].indent == indent && DASH <= ls[pos].text
    requires ParseSequence(ls, pos, indent, [], lib) == Ok((items, next))
    ensures ParseBlock(ls, pos, indent, lib) == Ok((YSeq(items), next))
  {
    hide ParseSequence;
  }

  /** Printed fields start at their own indentation, behind no dash. */
  lemma FieldsStart(f: Fields, keys: seq<string>, indent: nat, lib: Library)
    requires forall k :: k in keys ==> k in f.m
    requires ControlsHidden(lib) && AllSupported(f) && AllReadable(f) && keys != []
    ensures var ls := MapLines(f, keys, indent, lib);
            ls != [] && ls[0] == Line(indent, FieldText(keys[0], Head(f.m[keys[0]], lib))) && !(DASH <= ls[0].text)
    ensures SplitKeyValue(FieldText(keys[0], Head(f.m[keys[0]], lib))) == Some((keys[0], Head(f.m[keys[0]], lib)))
  {
    HeadLaw(f.m[keys[0]], lib);
    FieldTextLaw(keys[0], Head(f.m[keys[0]], lib));
  }

  lemma AtWhole(ls: seq<Line>)
    ensures At(ls, 0, ls)
  {
  }

  lemma AtFirst(ls: seq<Line>, pos: nat, part: seq<Line>)
    requires At(ls, pos, part) && part != []
    ensures pos < |ls| && ls[pos] == part[0]
  {
    assert ls[pos] == ls[pos..pos + |part|][0];
  }

  lemma {:induction false} ValueReadsBack(ls: seq<Line>, pos: nat, v: Config, indent: nat, deeper: nat, lib: Library)
    requires ControlsHidden(lib) && Supported(v) && ReadableKeys(v)
    requires indent < deeper && At(ls, pos, Body(v, deeper, lib)) && Ends(ls, pos + |Body(v, deeper, lib)|, deeper)
    ensures ParseValue(ls, pos, Head(v, lib), indent, lib) == Ok((Meaning(v), pos + |Body(v, deeper, lib)|))
    decreases v, |if v.CMapList? then v.items else []| + 2
  {
    hide At, Token, IsBlockScalar, Head, ParseFields, ParseSequence, ParseScalar, SortKeys, FieldText, MapLines,
         ItemLines;
    HeadLaw(v, lib);
    if Head(v, lib) == "" {
      BlockReadsBack(ls, pos, v, deeper, lib);
      BodyStarts(v, deeper, lib);
      AtFirst(ls, pos, Body(v, deeper, lib));
    } else {
      ScalarHasNoBody(v, deeper, lib);
    }
  }

  lemma ScalarHasNoBody(v: Config, indent: nat, lib: Library)
    requires !IsContainer(v) || Empty(v)
    ensures Body(v, indent, lib) == []
  {
  }

  lemma BodyStarts(v: Config, indent: nat, lib: Library)
    requires ControlsHidden(lib) && Supported(v) && ReadableKeys(v) && IsContainer(v) && !Empty(v)
    ensures var ls := Body(v, indent, lib); ls != [] && ls[0].indent == indent && (DASH <= ls[0].text <==> !v.CMap?)
  {
    if v.CMap? {
      FieldsStart(v.fields, SortKeys(v.fields.m.Keys), indent, lib);
    }
  }

  lemma {:induction false} BlockReadsBack(ls: seq<Line>, pos: nat, v: Config, indent: nat, lib: Library)
    requires ControlsHidden(lib) && Supported(v) && ReadableKeys(v) && IsContainer(v) && !Empty(v)
    requires At(ls, pos, Body(v, indent, lib)) && Ends(ls, pos + |Body(v, indent, lib)|, indent)
    ensures ParseBlock(ls, pos, indent, lib) == Ok((Meaning(v), pos + |Body(v, indent, lib)|))
    decreases v, |if v.CMapList? then v.items else []| + 1
  {
    hide At, AllSupported, AllReadable, ParseFields, ParseSequence, ParseBlock, Meaning, Meanings, SortKeys, FieldText,
         MapLines, ItemLines, StringLines;
    BodyStarts(v, indent, lib);
    AtFirst(ls, pos, Body(v, indent, lib));
    var next := pos + |Body(v, indent, lib)|;
    match v
    case CMap(f) =>
      FieldsReadBack(ls, pos, f, SortKeys(f.m.Keys), indent, map[], lib);
      AllMeanings(f);
      BlockOfFields(ls, pos, indent, Meanings(f), next, lib);
    case CMapList(_) =>
      ItemsReadBack(ls, pos, v, 0, indent, [], lib);
      assert [] + ItemMeanings(v)[0..] == ItemMeanings(v);
      BlockOfItems(ls, pos, indent, ItemMeanings(v), next, lib);
    case CStrList(strings) =>
      assert strings[0..] == strings;
      StringsReadBack(ls, pos, strings, 0, indent, [], lib);
      assert [] + StringMeanings(strings)[0..] == StringMeanings(strings);
      BlockOfItems(ls, pos, indent, StringMeanings(strings), next, lib);
  }

  function Chosen(f: Fields, keys: seq<string>): map<string, Yaml>
    requires forall k :: k in keys ==> k in f.m
  {
    map k | k in keys :: Meaning(f.m[k])
  }

  lemma AllMeanings(f: Fields)
    ensures map[] + Chosen(f, SortKeys(f.m.Keys)) == Meanings(f) && Chosen(f, SortKeys(f.m.Keys)) == Meanings(f)
    ensures Meaning(CMap(f)) == YMap(Meanings(f))
  {
    hide Meaning, SortKeys;
    MeaningOfMap(f);
  }

  lemma MeaningOfMap(f: Fields)
    ensures Meaning(CMap(f)) == YMap(Meanings(f))
  {
  }

  lemma {:induction false} FieldsReadBack(ls: seq<Line>, pos: nat, f: Fields, keys: seq<string>, indent: nat,
                                          fields: map<string, Yaml>, lib: Library)
    requires forall k :: k in keys ==> k in f.m
    requires ControlsHidden(lib) && AllSupported(f) && AllReadable(f)
    requires At(ls, pos, MapLines(f, keys, indent, lib)) && Ends(ls, pos + |MapLines(f, keys, indent, lib)|, indent)
    ensures ParseFields(ls, pos, indent, fields, lib)
         == Ok((fields + Chosen(f, keys), pos + |MapLines(f, keys, indent, lib)|))
    decreases f, |keys|
  {
    hide At, Head, FieldText, Body, ParseValue, SplitKeyValue, Meaning, ParseFields, IsSpace;
    if keys == [] {
      FieldsStop(ls, pos, indent, fields, lib);
      assert fields + Chosen(f, keys) == fields;
    } else {
      var k, v := keys[0], f.m[keys[0]];
      var below, rest := Body(v, indent + 2, lib), MapLines(f, keys[1..], indent, lib);
      var line := Line(indent, FieldText(k, Head(v, lib)));
      FieldsStart(f, keys, indent, lib);
      AtSplits(ls, pos, [line] + below, rest);
      AtSplits(ls, pos, [line], below);
      AtFirst(ls, pos, [line]);
      var next := pos + 1 + |below|;
      RestEnds(ls, next, f, keys[1..], indent, lib);
      ValueReadsBack(ls, pos + 1, v, indent, indent + 2, lib);
      FieldsStep(ls, pos, indent, fields, k, Head(v, lib), Meaning(v), next, lib);
      FieldsReadBack(ls, next, f, keys[1..], indent, fields[k := Meaning(v)], lib);
      FieldsGrow(fields, f, keys);
    }
  }

  lemma FieldsGrow(fields: map<string, Yaml>, f: Fields, keys: seq<string>)
    requires keys != [] && forall k :: k in keys ==> k in f.m
    ensures fields[keys[0] := Meaning(f.m[keys[0]])] + Chosen(f, keys[1..])
         == fields + Chosen(f, keys)
  {
    assert keys == [keys[0]] + keys[1..];
  }

  /** What follows the lines below a field ends them. */
  lemma RestEnds(ls: seq<Line>, pos: nat, f: Fields, keys: seq<string>, indent: nat, lib: Library)
    requires forall k :: k in keys ==> k in f.m
    requires ControlsHidden(lib) && AllSupported(f) && AllReadable(f)
    requires At(ls, pos, MapLines(f, keys, indent, lib)) && Ends(ls, pos + |MapLines(f, keys, indent, lib)|, indent)
    ensures Ends(ls, pos, indent + 1) && Ends(ls, pos, indent + 2)
  {
    if keys != [] {
      FieldsStart(f, keys, indent, lib);
      AtFirst(ls, pos, MapLines(f, keys, indent, lib));
    }
  }

  function ItemMeanings(v: Config): (r: seq<Yaml>)
    requires v.CMapList?
    ensures |r| == |v.items| && Meaning(v) == YSeq(r)
    ensures forall i :: 0 <= i < |r| ==> r[i] == YMap(Meanings(v.items[i]))
  {
    Meaning(v).items
  }

  function StringMeanings(strings: seq<string>): (r: seq<Yaml>)
    ensures |r| == |strings| && Meaning(CStrList(strings)) == YSeq(r)
    ensures forall i :: 0 <= i < |r| ==> r[i] == YStr(strings[i])
  {
    Meaning(CStrList(strings)).items
  }

  lemma {:induction false} ItemsReadBack(ls: seq<Line>, pos: nat, v: Config, i: nat, indent: nat, items: seq<Yaml>,
                                         lib: Library)
    requires v.CMapList? && i <= |v.items|
    requires ControlsHidden(lib) && Supported(v) && ReadableKeys(v)
    requires At(ls, pos, ItemLines(v, i, indent, lib)) && Ends(ls, pos + |ItemLines(v, i, indent, lib)|, indent)
    ensures ParseSequence(ls, pos, indent, items, lib)
         == Ok((items + ItemMeanings(v)[i..], pos + |ItemLines(v, i, indent, lib)|))
    decreases v, |v.items| - i
  {
    hide At, MapLines, SortKeys, ParseItem, ParseSequence, Dashed, Meaning, Meanings, ItemMeanings, ItemLines,
         TrimSpace, AllSupported, AllReadable, ControlsHidden;
    ItemsNone(v, indent, lib);
    if i == |v.items| {
      SequenceStop(ls, pos, indent, items, lib);
      assert items + ItemMeanings(v)[i..] == items;
    } else {
      var f := v.items[i];
      var ds := Dashed(MapLines(f, SortKeys(f.m.Keys), indent + 2, lib), indent);
      var rest := ItemLines(v, i + 1, indent, lib);
      ItemsNext(v, i, indent, lib);
      AtSplits(ls, pos, ds, rest);
      AtFirst(ls, pos, ds);
      var next := pos + |ds|;
      ItemsEndItem(ls, next, v, i + 1, indent, lib);
      ItemReadsBack(ls, pos, f, SortKeys(f.m.Keys), indent, lib);
      AllMeanings(f);
      SequenceStep(ls, pos, indent, items, YMap(Meanings(f)), next, lib);
      ItemsReadBack(ls, next, v, i + 1, indent, items + [YMap(Meanings(f))], lib);
      ItemMovesOver(items, ItemMeanings(v), i);
    }
  }

  lemma ItemMovesOver(items: seq<Yaml>, all: seq<Yaml>, i: nat)
    requires i < |all|
    ensures items + all[i..] == (items + [all[i]]) + all[i + 1..]
  {
  }

  lemma ItemsNone(v: Config, indent: nat, lib: Library)
    requires v.CMapList?
    ensures ItemLines(v, |v.items|, indent, lib) == []
  {
  }

  lemma ItemsEndItem(ls: seq<Line>, pos: nat, v: Config, i: nat, indent: nat, lib: Library)
    requires v.CMapList? && i <= |v.items|
    requires At(ls, pos, ItemLines(v, i, indent, lib)) && Ends(ls, pos + |ItemLines(v, i, indent, lib)|, indent)
    ensures Ends(ls, pos, indent + 2)
  {
    hide MapLines, SortKeys;
    if i < |v.items| {
      AtFirst(ls, pos, ItemLines(v, i, indent, lib));
    }
  }

  lemma {:induction false} ItemReadsBack(ls: seq<Line>, pos: nat, f: Fields, keys: seq<string>, indent: nat,
                                         lib: Library)
    requires forall k :: k in keys ==> k in f.m
    requires ControlsHidden(lib) && AllSupported(f) && AllReadable(f)
    requires var ds := Dashed(MapLines(f, keys, indent + 2, lib), indent);
             At(ls, pos, ds) && Ends(ls, pos + |ds|, indent + 2)
    ensures var ds := Dashed(MapLines(f, keys, indent + 2, lib), indent);
            DASH <= ds[0].text && ds[0].indent == indent
            && ParseItem(ls, pos + 1, TrimSpace(ds[0].text[2..]), indent, lib)
            == Ok((YMap(Chosen(f, keys)), pos + |ds|))
    decreases f, |keys|
  {
    hide At, Head, FieldText, Body, ParseValue, ParseFields, ParseItem, SplitKeyValue, Meaning, TrimSpace, IsSpace,
         MapLines, Dashed, ReadableKey, ControlsHidden, Chosen;
    if keys == [] {
      EmptyItemReadsBack(ls, pos + 1, f, indent, lib);
    } else {
      var k, v := keys[0], f.m[keys[0]];
      var text := FieldText(k, Head(v, lib));
      var below, rest := Body(v, indent + 4, lib), MapLines(f, keys[1..], indent + 2, lib);
      ItemStarts(f, keys, indent, lib);
      AtSplits(ls, pos, [Line(indent, DASH + text)] + below, rest);
      AtSplits(ls, pos, [Line(indent, DASH + text)], below);
      var next := pos + 1 + |below|;
      RestEnds(ls, next, f, keys[1..], indent + 2, lib);
      ValueReadsBack(ls, pos + 1, v, indent, indent + 4, lib);
      FieldsReadBack(ls, next, f, keys[1..], indent + 2, map[k := Meaning(v)], lib);
      FieldsGrow(map[], f, keys);
      assert map[] + Chosen(f, keys) == Chosen(f, keys) && map[][k := Meaning(v)] == map[k := Meaning(v)];
      ItemStep(ls, pos + 1, text, indent, k, Head(v, lib), Meaning(v), next, Chosen(f, keys), next + |rest|, lib);
    }
  }

  lemma EmptyItemReadsBack(ls: seq<Line>, pos: nat, f: Fields, indent: nat, lib: Library)
    requires pos <= |ls|
    ensures Dashed(MapLines(f, [], indent + 2, lib), indent) == [Line(indent, "- {}")] && DASH <= "- {}"
    ensures ParseItem(ls, pos, TrimSpace("- {}"[2..]), indent, lib) == Ok((YMap(Chosen(f, [])), pos))
  {
    hide TrimSpace, ParseScalar, SplitKeyValue, ParseValue, ParseFields;
    EmptyItemLaw(lib);
    assert Chosen(f, []) == map[];
  }

  /** The first line of an item holds its first field. */
  lemma ItemStarts(f: Fields, keys: seq<string>, indent: nat, lib: Library)
    requires forall k :: k in keys ==> k in f.m
    requires ControlsHidden(lib) && AllSupported(f) && AllReadable(f) && keys != []
    ensures var v := f.m[keys[0]];
            var text := FieldText(keys[0], Head(v, lib));
            Dashed(MapLines(f, keys, indent + 2, lib), indent)
            == [Line(indent, DASH + text)] + Body(v, indent + 4, lib) + MapLines(f, keys[1..], indent + 2, lib)
            && text != "" && DASH <= DASH + text && TrimSpace((DASH + text)[2..]) == text
            && SplitKeyValue(text) == Some((keys[0], Head(v, lib)))
  {
    hide Head, FieldText, Body, SplitKeyValue, TrimSpace, CleanText, ReadableKey, ReadableKeys, Supported, Token,
         ControlsHidden, IsBlockScalar, ParseScalar, Meaning;
    var v := f.m[keys[0]];
    HeadLaw(v, lib);
    FieldTextLaw(keys[0], Head(v, lib));
    DashLaw(FieldText(keys[0], Head(v, lib)));
    NotBlank(FieldText(keys[0], Head(v, lib)));
    FirstLineDashed(f, keys, indent, lib);
  }

  lemma NotBlank(t: string)
    requires CleanText(t)
    ensures t != ""
  {
  }

  lemma FirstLineDashed(f: Fields, keys: seq<string>, indent: nat, lib: Library)
    requires (forall k :: k in keys ==> k in f.m) && keys != []
    ensures var v := f.m[keys[0]];
            Dashed(MapLines(f, keys, indent + 2, lib), indent)
            == [Line(indent, DASH + FieldText(keys[0], Head(v, lib)))] + Body(v, indent + 4, lib)
               + MapLines(f, keys[1..], indent + 2, lib)
  {
    hide Head, FieldText, Body;
    var v := f.m[keys[0]];
    var first, more := Line(indent + 2, FieldText(keys[0], Head(v, lib))), Body(v, indent + 4, lib);
    assert MapLines(f, keys, indent + 2, lib) == [first] + more + MapLines(f, keys[1..], indent + 2, lib);
  }

  lemma {:induction false} StringsReadBack(ls: seq<Line>, pos: nat, strings: seq<string>, i: nat, indent: nat,
                                           items: seq<Yaml>, lib: Library)
    requires i <= |strings| && ControlsHidden(lib)
    requires At(ls, pos, StringLines(strings[i..], indent, lib))
             && Ends(ls, pos + |StringLines(strings[i..], indent, lib)|, indent)
    ensures ParseSequence(ls, pos, indent, items, lib)
         == Ok((items + StringMeanings(strings)[i..], pos + |StringLines(strings[i..], indent, lib)|))
    decreases |strings| - i
  {
    hide At, Quote, ParseScalar, SplitKeyValue, TrimSpace, ParseItem, ParseSequence, StringMeanings;
    if i == |strings| {
      SequenceStop(ls, pos, indent, items, lib);
      assert items + StringMeanings(strings)[i..] == items;
    } else {
      var q := Quote(strings[i], lib);
      var line := Line(indent, DASH + q);
      var rest := StringLines(strings[i + 1..], indent, lib);
      assert strings[i..][0] == strings[i] && strings[i..][1..] == strings[i + 1..];
      assert StringLines(strings[i..], indent, lib) == [line] + rest;
      AtSplits(ls, pos, [line], rest);
      AtFirst(ls, pos, [line]);
      StringItemReadsBack(ls, pos + 1, strings[i], indent, lib);
      SequenceStep(ls, pos, indent, items, YStr(strings[i]), pos + 1, lib);
      StringsReadBack(ls, pos + 1, strings, i + 1, indent, items + [YStr(strings[i])], lib);
      ItemMovesOver(items, StringMeanings(strings), i);
    }
  }

  lemma StringItemReadsBack(ls: seq<Line>, pos: nat, s: string, indent: nat, lib: Library)
    requires pos <= |ls| && ControlsHidden(lib)
    ensures var text := DASH + Quote(s, lib);
            DASH <= text && ParseItem(ls, pos, TrimSpace(text[2..]), indent, lib) == Ok((YStr(s), pos))
  {
    hide Quote, ParseScalar;
    ScalarIsToken(CStr(s), lib);
    TokenEnds(Quote(s, lib));
    DashLaw(Quote(s, lib));
  }

  // ---------------------------------------------------------------- the round trip

  /** For every configuration of supported values with plain keys, parsing what the printer wrote gives
      the configuration's value. */
  lemma PrintedReadsBack(f: Fields, services: seq<string>, lib: Library)
    requires ControlsHidden(lib) && AllSupported(f) && AllReadable(f)
    ensures ParseDocument(Printed(f, services, lib), lib) == Ok(Meanings(f))
  {
    hide TopKeys, MapLines, ParseFields, Tokenize, At, AllClean, AllSupported, AllReadable, FieldText, SplitKeyValue;
    var keys := TopKeys(f.m.Keys, services);
    var ls := MapLines(f, keys, 0, lib);
    MapClean(f, keys, 0, lib);
    TokenizeRender(ls);
    assert Meanings(f) == Chosen(f, keys);
    if keys == [] {
      NoLines(f, lib);
      assert Meanings(f) == map[];
    } else {
      FieldsStart(f, keys, 0, lib);
      AtWhole(ls);
      FieldsReadBack(ls, 0, f, keys, 0, map[], lib);
      assert map[] + Meanings(f) == Meanings(f);
      BlockOfFields(ls, 0, 0, Meanings(f), |ls|, lib);
    }
  }

  lemma NoLines(f: Fields, lib: Library)
    ensures MapLines(f, [], 0, lib) == []
  {
  }

  /** Two configurations that print the same have the same value: the printer loses nothing. */
  lemma PrinterIsFaithful(f: Fields, g: Fields, services: seq<string>, lib: Library)
    requires ControlsHidden(lib) && AllSupported(f) && AllReadable(f) && AllSupported(g) && AllReadable(g)
    requires Printed(f, services, lib) == Printed(g, services, lib)
    ensures Meanings(f) == Meanings(g)
  {
    PrintedReadsBack(f, services, lib);
    PrintedReadsBack(g, services, lib);
  }

  /** The printer and the parser as they run. */
  method PrintAndParse(f: Fields, services: seq<string>, lib: Library) returns (r: Result<map<string, Yaml>>)
    requires ControlsHidden(lib) && AllReadable(f)
    ensures AllSupported(f) ==> r == Ok(Meanings(f))
    ensures !AllSupported(f) ==> r.Err?
  {
    var text := EncodeYAML(f, services, lib);
    if text.Err? {
      return Err;
    }
    PrintedReadsBack(f, services, lib);
    r := ParseYAMLDocument(text.value, lib);
  }
}
