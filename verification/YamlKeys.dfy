/** Which keys survive printing and parsing. */
module YamlKeys {
  import opened Tables
  import opened GoText
  import opened YamlText
  import opened YamlParser
  import opened YamlPrinter
  import opened YamlRoundTrip

  // ---------------------------------------------------------------- trimming

  lemma {:induction false} TrimLeftIsSuffix(s: string)
    ensures exists n :: 0 <= n <= |s| && TrimLeft(s) == s[n..]
  {
    if s != [] && IsSpace(s[0]) {
      TrimLeftIsSuffix(s[1..]);
      var n :| 0 <= n <= |s[1..]| && TrimLeft(s[1..]) == s[1..][n..];
      assert s[1..][n..] == s[n + 1..];
    } else {
      assert s[0..] == s;
    }
  }

  /** Trimmed text has no white space at its ends, and no characters of its own. */
  lemma TrimSpaceLaw(s: string)
    ensures Trimmed(TrimSpace(s)) && forall c :: c in TrimSpace(s) ==> c in s
  {
    TrimLeftIsSuffix(s);
    var t := TrimLeft(s);
    var r := TrimRight(t);
    assert r <= t;
    assert r != [] ==> r[0] == t[0];
  }

  /** Text that starts without white space loses nothing up to its last character that is none. */
  lemma {:induction false} TrimRightKeeps(s: string, p: nat)
    requires p < |s| && !IsSpace(s[p])
    ensures |TrimRight(s)| > p
    decreases |s|
  {
    if IsSpace(s[|s| - 1]) {
      TrimRightKeeps(s[..|s| - 1], p);
    }
  }

  // ---------------------------------------------------------------- keys come from lines

  /** Some line from `pos` on is a field of that key. */
  ghost predicate KeyOfLine(ls: seq<Line>, pos: nat, key: string) {
    exists i :: pos <= i < |ls| && FieldOf(ls[i].text, key)
  }

  ghost predicate FieldOf(text: string, key: string) {
    !(DASH <= text) && key != "" && SplitKeyValue(text).Some? && SplitKeyValue(text).value.0 == key
  }

  lemma {:induction false} FieldsComeFromLines(ls: seq<Line>, pos: nat, indent: nat, fields: map<string, Yaml>,
                                               lib: Library, key: string)
    requires pos <= |ls|
    requires var r := ParseFields(ls, pos, indent, fields, lib); r.Ok? && key in r.value.0
    ensures key in fields || KeyOfLine(ls, pos, key)
    decreases |ls| - pos
  {
    hide ParseValue, SplitKeyValue;
    if pos < |ls| && ls[pos].indent == indent && !(DASH <= ls[pos].text) {
      var (k, raw) := SplitKeyValue(ls[pos].text).value;
      var v := ParseValue(ls, pos + 1, raw, indent, lib);
      FieldsComeFromLines(ls, v.value.1, indent, fields[k := v.value.0], lib, key);
      if key == k {
        assert FieldOf(ls[pos].text, key);
      }
    }
  }

  /** A document that is read holds only keys of its lines. */
  lemma DocumentKeys(raw: string, lib: Library, key: string)
    requires ParseDocument(raw, lib).Ok? && key in ParseDocument(raw, lib).value
    ensures Tokenize(raw).Ok? && KeyOfLine(Tokenize(raw).value, 0, key)
  {
    hide ParseFields, ParseSequence, Tokenize;
    var ls := Tokenize(raw).value;
    FieldsComeFromLines(ls, 0, ls[0].indent, map[], lib, key);
  }

  // ---------------------------------------------------------------- lines come from the text

  ghost predicate LineOf(source: string, line: Line) {
    TokenizeLine(source) == Ok(Some(line))
  }

  lemma {:induction false} LinesComeFromSources(sources: seq<string>, i: nat)
    requires TokenizeLines(sources).Ok? && i < |TokenizeLines(sources).value|
    ensures exists source :: source in sources && LineOf(source, TokenizeLines(sources).value[i])
    decreases |sources|
  {
    hide TokenizeLine;
    var first := TokenizeLine(sources[0]);
    if first.value.Some? && i == 0 {
      assert sources[0] in sources && LineOf(sources[0], TokenizeLines(sources).value[i]);
    } else {
      var j := if first.value.Some? then i - 1 else i;
      LinesComeFromSources(sources[1..], j);
      assert TokenizeLines(sources).value[i] == TokenizeLines(sources[1..]).value[j];
      var source :| source in sources[1..] && LineOf(source, TokenizeLines(sources[1..]).value[j]);
      assert source in sources;
    }
  }

  lemma {:induction false} SourcesHaveNoBreak(s: string)
    ensures forall source :: source in Split(s, '\n') ==> '\n' !in source
  {
    if s != [] {
      SourcesHaveNoBreak(s[1..]);
      var rest := Split(s[1..], '\n');
      assert rest[0] in rest;
    }
  }

  lemma {:induction false} TrimRightBlanksIsPrefix(s: string)
    ensures TrimRightBlanks(s) <= s
  {
    if s != [] && IsBlank(s[|s| - 1]) {
      TrimRightBlanksIsPrefix(s[..|s| - 1]);
    }
  }

  lemma StripIsPrefix(s: string)
    ensures StripComment(s) <= s
  {
    match CommentAt(s, START, true)
    case None =>
    case Some(i) => TrimRightBlanksIsPrefix(s[..i]);
  }

  /** The key of a field is trimmed, and made of characters of the line before the colon. */
  lemma FieldKey(text: string, key: string)
    requires FieldOf(text, key)
    ensures Trimmed(key) && key != "" && (forall c :: c in key ==> c in text)
    ensures ColonAt(text, START).Some? && key == TrimSpace(text[..ColonAt(text, START).value])
  {
    hide ColonAt;
    TrimSpaceLaw(text[..ColonAt(text, START).value]);
  }

  lemma LineText(source: string, line: Line)
    requires LineOf(source, line)
    ensures line.text == TrimSpace(StripComment(source)) && forall c :: c in line.text ==> c in source
  {
    hide StripComment;
    StripIsPrefix(source);
    TrimSpaceLaw(StripComment(source));
  }

  // ---------------------------------------------------------------- one key

  /** A document of one key. */
  function Single(k: string): Fields {
    Fields(map[k := CBool(true)])
  }

  function SingleLine(k: string): string {
    k + ": true"
  }

  lemma SinglePrinted(k: string, lib: Library)
    ensures Printed(Single(k), [], lib) == SingleLine(k) + "\n"
  {
    hide MapLines, TopKeys, Render;
    var f, line := Single(k), Line(0, SingleLine(k));
    assert f.m.Keys == {k};
    OneKey(k);
    SingleLines(k, lib);
    RenderLine(line);
    assert Spaces(0) + line.text + "\n" == line.text + "\n";
  }

  lemma SingleLines(k: string, lib: Library)
    ensures MapLines(Single(k), [k], 0, lib) == [Line(0, SingleLine(k))]
  {
    assert [k][1..] == [];
    assert FieldText(k, "true") == SingleLine(k);
    assert FieldLines(k, CBool(true), 0, lib) == [Line(0, SingleLine(k))];
  }

  lemma OneKey(k: string)
    ensures TopKeys({k}, []) == [k]
  {
    var keys := TopKeys({k}, []);
    if k != "tokens" {
      var rest := {k} - (set x | x in FirstKeys({k}, []));
      assert rest == {k};
      assert SortKeys({k}) == [k] by { OneSorted(k); }
    } else {
      assert {k} - (set x | x in FirstKeys({k}, [])) == {};
    }
  }

  lemma OneSorted(k: string)
    ensures SortKeys({k}) == [k]
  {
    var r := SortKeys({k});
    assert |r| == 1 && r[0] in r;
  }

  /** What the round trip gives for a document of one key. */
  ghost predicate KeyReadsBack(k: string, lib: Library) {
    ParseDocument(Printed(Single(k), [], lib), lib) == Ok(map[k := YBool(true)])
  }

  lemma ReadableReadsBack(k: string, lib: Library)
    requires ControlsHidden(lib) && ReadableKey(k)
    ensures KeyReadsBack(k, lib)
  {
    hide ReadableKey, ParseDocument, Printed;
    PrintedReadsBack(Single(k), [], lib);
    assert Meanings(Single(k)) == map[k := YBool(true)];
  }

  /** A key that reads back is the key of a line of the text. */
  lemma ReadsBackFromSource(k: string, lib: Library) returns (source: string, line: Line)
    requires KeyReadsBack(k, lib)
    ensures source in Split(DropCarriageReturns(SingleLine(k) + "\n"), '\n') && LineOf(source, line)
            && FieldOf(line.text, k)
  {
    hide ParseDocument, Printed, TokenizeLines, Split, DropCarriageReturns, FieldOf, LineOf;
    var raw := SingleLine(k) + "\n";
    SinglePrinted(k, lib);
    DocumentKeys(raw, lib, k);
    var ls := Tokenize(raw).value;
    var i :| 0 <= i < |ls| && FieldOf(ls[i].text, k);
    LinesComeFromSources(Split(DropCarriageReturns(raw), '\n'), i);
    source :| source in Split(DropCarriageReturns(raw), '\n') && LineOf(source, ls[i]);
    line := ls[i];
  }

  /** So it is trimmed and on one line, and the text is that line alone. */
  lemma ReadsBackOnOneLine(k: string, lib: Library) returns (line: Line)
    requires KeyReadsBack(k, lib)
    ensures k != "" && Trimmed(k) && '\n' !in k && LineOf(SingleLine(k), line) && FieldOf(line.text, k)
  {
    hide KeyReadsBack, Split, DropCarriageReturns, IsSpace;
    var source;
    source, line := ReadsBackFromSource(k, lib);
    var raw := SingleLine(k) + "\n";
    SourcesHaveNoBreak(DropCarriageReturns(raw));
    KeyIsInSource(source, line, k);
    NothingDropped(k);
    SplitFirst(SingleLine(k), "", '\n');
    assert SingleLine(k) + ['\n'] + "" == raw;
    EmptySplit();
    if source == "" {
      EmptyIsNoLine(line);
    }
  }

  lemma KeyIsInSource(source: string, line: Line, k: string)
    requires LineOf(source, line) && FieldOf(line.text, k)
    ensures k != "" && Trimmed(k) && forall c :: c in k ==> c in source
  {
    hide LineOf, FieldOf;
    LineText(source, line);
    FieldKey(line.text, k);
  }

  lemma EmptySplit()
    ensures Split("", '\n') == [""]
  {
  }

  lemma EmptyIsNoLine(line: Line)
    ensures !LineOf("", line)
  {
  }

  lemma NothingDropped(k: string)
    requires '\n' !in k
    ensures DropCarriageReturns(SingleLine(k) + "\n") == SingleLine(k) + "\n" && '\n' !in SingleLine(k)
  {
    var raw, n := SingleLine(k) + "\n", |k|;
    assert raw[n..] == ": true\n";
    assert forall i :: n <= i < |raw| ==> raw[i] == ": true\n"[i - n];
    forall i | 0 <= i < |raw| - 1
      ensures !(raw[i] == '\r' && raw[i + 1] == '\n')
    {
      if i < n - 1 {
        assert raw[i + 1] == k[i + 1];
      }
    }
    NoPairsStay(raw);
  }

  /** No comment was cut off the line: the key would be longer than what is left. */
  lemma ReadsBackUncommented(k: string, line: Line)
    requires k != "" && Trimmed(k) && LineOf(SingleLine(k), line) && FieldOf(line.text, k)
    ensures CommentAt(SingleLine(k), START, true) == None && line.text == SingleLine(k)
  {
    hide TrimSpace, ColonAt, CommentAt, IsSpace, TrimRightBlanks, StripComment, FieldOf;
    LineText(SingleLine(k), line);
    KeyShorter(line.text, k);
    StripShortens(k);
    if CommentAt(SingleLine(k), START, true) == None {
      StripNothing(k);
      SingleTrimmed(k);
      TrimTrimmed(SingleLine(k));
    }
  }

  lemma StripNothing(k: string)
    requires CommentAt(SingleLine(k), START, true) == None
    ensures StripComment(SingleLine(k)) == SingleLine(k)
  {
  }

  lemma KeyShorter(text: string, key: string)
    requires FieldOf(text, key)
    ensures |key| < |text|
  {
    hide ColonAt, TrimSpace;
  }

  /** A comment can only start inside the key. */
  lemma StripShortens(k: string)
    ensures CommentAt(SingleLine(k), START, true).Some? ==> |StripComment(SingleLine(k))| < |k|
  {
    hide CommentAt;
    var s := SingleLine(k);
    assert s[|k|..] == ": true";
    assert forall i :: |k| <= i < |s| ==> s[i] == ": true"[i - |k|];
  }

  lemma SingleTrimmed(k: string)
    requires k != "" && Trimmed(k)
    ensures Trimmed(SingleLine(k))
  {
    var s := SingleLine(k);
    assert s[0] == k[0] && s[|s| - 1] == 'e';
  }

  /** The line splits at the colon behind the key and nowhere before. */
  lemma ReadsBackAtColon(k: string)
    requires k != "" && Trimmed(k) && FieldOf(SingleLine(k), k)
    ensures ColonAt(SingleLine(k), START) == Some(|k|)
  {
    hide ColonAt, IsSpace, TrimRight, TrimLeft;
    var s := SingleLine(k);
    FieldKey(s, k);
    var j := ColonAt(s, START).value;
    if j > |k| {
      var before := s[..j];
      assert before[0] == k[0] && before[|k|] == ':';
      ColonIsVisible();
      StartsVisible(before);
      TrimRightKeeps(before, |k|);
    }
  }

  lemma ColonIsVisible()
    ensures !IsSpace(':')
  {
  }

  lemma StartsVisible(s: string)
    requires s != "" && !IsSpace(s[0])
    ensures TrimSpace(s) == TrimRight(s)
  {
  }

  lemma ReadsBackReadable(k: string, lib: Library)
    requires KeyReadsBack(k, lib)
    ensures ReadableKey(k)
  {
    hide KeyReadsBack, LineOf, TrimSpace, ColonAt, CommentAt, IsSpace, SplitKeyValue, NoColon, Steps;
    var line := ReadsBackOnOneLine(k, lib);
    ReadsBackUncommented(k, line);
    ReadsBackAtColon(k);
    ColonPassed(k, ": true", START);
    NoCommentInside(k, ": true", START, true);
    assert DASH <= k ==> DASH <= k + ": true";
  }

  /** A key is read back if and only if it is readable; and with readable keys everything else is, too. */
  lemma KeyReadsBackIff(k: string, lib: Library)
    requires ControlsHidden(lib)
    ensures KeyReadsBack(k, lib) <==> ReadableKey(k)
  {
    hide KeyReadsBack, ReadableKey;
    if ReadableKey(k) {
      ReadableReadsBack(k, lib);
    }
    if KeyReadsBack(k, lib) {
      ReadsBackReadable(k, lib);
    }
  }

  /** What the scanners do with a character that is no quote. */
  lemma OneCharacter(c: char, s: string, open: bool)
    requires c != '\'' && c != '"'
    ensures Steps(START, [c] + s) == Steps(START, s)
    ensures CommentAt([c] + s, START, open)
         == if c == '#' && open then Some(0) else Shift(1, CommentAt(s, START, IsBlank(c)))
    ensures ColonAt([c] + s, START)
         == if c == ':' && (s == [] || IsBlank(s[0])) then Some(0) else Shift(1, ColonAt(s, START))
  {
    assert ([c] + s)[1..] == s;
  }

  /** A colon or a blank between two letters. */
  lemma ShortKey(c: char)
    requires c == ':' || c == ' '
    ensures ReadableKey(['a', c, 'b'])
  {
    hide ColonAt, CommentAt, Steps;
    Ends();
    OneCharacter('.', [], false);
    OneCharacter('b', [], true);
    OneCharacter('b', [], false);
    OneCharacter('b', ['.'], false);
    assert ['b'] + [] == ['b'] && ['b'] + ['.'] == ['b', '.'] && ['.'] + [] == ['.'];
    OneCharacter(c, ['b'], false);
    OneCharacter(c, ['b', '.'], false);
    assert [c] + ['b'] == [c, 'b'] && [c] + ['b', '.'] == [c, 'b', '.'];
    OneCharacter('a', [c, 'b'], true);
    OneCharacter('a', [c, 'b', '.'], false);
    assert ['a'] + [c, 'b'] == ['a', c, 'b'] && ['a'] + [c, 'b', '.'] == ['a', c, 'b'] + ".";
  }

  lemma Ends()
    ensures Steps(START, []) == START && ColonAt([], START) == None
    ensures CommentAt([], START, true) == None && CommentAt([], START, false) == None
  {
  }

  /** A colon before a blank splits the key; a colon or a blank alone does no harm. */
  lemma ColonKeyIsLost(lib: Library)
    requires ControlsHidden(lib)
    ensures !KeyReadsBack("a: b", lib) && KeyReadsBack("a:b", lib) && KeyReadsBack("a b", lib)
  {
    hide KeyReadsBack, ControlsHidden, ReadableKey;
    KeyReadsBackIff("a: b", lib);
    KeyReadsBackIff("a:b", lib);
    KeyReadsBackIff("a b", lib);
    assert ['a', ':', 'b'] == "a:b" && ['a', ' ', 'b'] == "a b";
    ShortKey(':');
    ShortKey(' ');
    SplitKey();
  }

  lemma SplitKey()
    ensures !ReadableKey("a: b")
  {
    hide ColonAt, CommentAt, Steps;
    OneCharacter(':', [' ', 'b', '.'], false);
    OneCharacter('a', [':', ' ', 'b', '.'], false);
    assert [':'] + [' ', 'b', '.'] == [':', ' ', 'b', '.'];
    assert ['a'] + [':', ' ', 'b', '.'] == "a: b" + ".";
  }
}
