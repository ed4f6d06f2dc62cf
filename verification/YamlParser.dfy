/** The indentation-driven parser of the configuration format. */
module YamlParser {
  import opened Tables
  import opened GoText
  import opened YamlText
  import opened GoNumbers

  datatype Yaml = YNull | YBool(b: bool) | YInt(n: int) | YFloat(text: string) | YStr(s: string)
                | YSeq(items: seq<Yaml>) | YMap(fields: map<string, Yaml>)
  datatype Result<+T> = Ok(value: T) | Err
  datatype Line = Line(indent: nat, text: string)

  // ---------------------------------------------------------------- scalars

  function ReplaceDoubledQuotes(s: string): string {
    if |s| >= 2 && s[0] == '\'' && s[1] == '\'' then "'" + ReplaceDoubledQuotes(s[2..])
    else if s == [] then []
    else [s[0]] + ReplaceDoubledQuotes(s[1..])
  }

  /** The comma-separated parts of an inline sequence, `None` when a quote stays open.
      `part` is what was read since the last comma. */
  function SplitInline(s: string, st: Scan, part: string): (r: Option<seq<string>>)
    ensures r.Some? ==> forall p :: p in r.value ==> |p| <= |part| + |s|
    decreases |s|
  {
    if s == [] then if st.inSingle || st.inDouble then None else Some([TrimSpace(part)])
    else if s[0] == ',' && st == START then
      var rest := SplitInline(s[1..], st, []);
      if rest.None? then None else Some([TrimSpace(part)] + rest.value)
    else SplitInline(s[1..], Step(st, s[0]), part + [s[0]])
  }

  function ParseScalar(raw: string, lib: Library): Result<Yaml>
    decreases |raw|, 1
  {
    var value := TrimSpace(raw);
    if value == "" then Ok(YStr(""))
    else if value in ["null", "Null", "NULL", "~"] then Ok(YNull)
    else if value in ["true", "True", "TRUE"] then Ok(YBool(true))
    else if value in ["false", "False", "FALSE"] then Ok(YBool(false))
    else if value == "{}" then Ok(YMap(map[]))
    else if value == "[]" then Ok(YSeq([]))
    else if value[0] == '"' then
      var s := Unquote(value);
      if s.None? then Err else Ok(YStr(s.value))
    else if value[0] == '\'' && value[|value| - 1] == '\'' && |value| >= 2 then
      Ok(YStr(ReplaceDoubledQuotes(value[1..|value| - 1])))
    else if value[0] == '[' && value[|value| - 1] == ']' then
      var inner := TrimSpace(value[1..|value| - 1]);
      if inner == "" then Ok(YSeq([]))
      else
        var parts := SplitInline(inner, START, []);
        if parts.None? then Err else ParseScalars(parts.value, |raw| - 1, lib)
    else
      var n := ParseInt(value);
      if n.Some? then Ok(YInt(n.value))
      else if lib.isFloat(value) && exists i :: 0 <= i < |value| && value[i] in ".eE" then Ok(YFloat(value))
      else Ok(YStr(value))
  }

  function ParseScalars(parts: seq<string>, bound: nat, lib: Library): Result<Yaml>
    requires forall p :: p in parts ==> |p| <= bound
    decreases bound, 2, |parts|
  {
    if parts == [] then Ok(YSeq([]))
    else
      var first, rest := ParseScalar(parts[0], lib), ParseScalars(parts[1..], bound, lib);
      if first.Err? || rest.Err? || !rest.value.YSeq? then Err else Ok(YSeq([first.value] + rest.value.items))
  }

  predicate IsBlockScalar(raw: string) {
    TrimSpace(raw) in ["|", ">", "|-", ">-", "|+", ">+"]
  }

  // ---------------------------------------------------------------- lines

  function LeadingSpaces(s: string): (n: nat)
    ensures n <= |s| && forall i :: 0 <= i < n ==> s[i] == ' '
    ensures n < |s| ==> s[n] != ' '
  {
    if s != [] && s[0] == ' ' then 1 + LeadingSpaces(s[1..]) else 0
  }

  /** One source line: skipped when blank or only a comment, refused when indented by tabs or an odd number. */
  function TokenizeLine(source: string): Result<Option<Line>> {
    if TrimSpace(source) == "" then Ok(None)
    else
      var text := StripComment(source);
      if TrimSpace(text) == "" then Ok(None)
      else
        var indent := LeadingSpaces(text);
        if (indent < |text| && text[indent] == '\t') || indent % 2 != 0 then Err
        else Ok(Some(Line(indent, TrimSpace(text))))
  }

  function TokenizeLines(sources: seq<string>): Result<seq<Line>> {
    if sources == [] then Ok([])
    else
      var first, rest := TokenizeLine(sources[0]), TokenizeLines(sources[1..]);
      if first.Err? || rest.Err? then Err
      else if first.value.None? then rest
      else Ok([first.value.value] + rest.value)
  }

  function Tokenize(raw: string): Result<seq<Line>> {
    TokenizeLines(Split(DropCarriageReturns(raw), '\n'))
  }

  // ---------------------------------------------------------------- blocks

  const DASH := "- "

  type Parsed<T> = Result<(T, nat)>

  ghost predicate Within<T>(r: Parsed<T>, pos: nat, ls: seq<Line>) {
    r.Ok? ==> pos <= r.value.1 <= |ls|
  }

  function ParseBlock(ls: seq<Line>, pos: nat, indent: nat, lib: Library): (r: Parsed<Yaml>)
    requires pos <= |ls|
    ensures Within(r, pos, ls)
    decreases |ls| - pos, 2
  {
    if pos == |ls| || ls[pos].indent < indent then Ok((YMap(map[]), pos))
    else if ls[pos].indent != indent then Err
    else if DASH <= ls[pos].text then
      var r := ParseSequence(ls, pos, indent, [], lib);
      if r.Err? then Err else Ok((YSeq(r.value.0), r.value.1))
    else
      var r := ParseFields(ls, pos, indent, map[], lib);
      if r.Err? then Err else Ok((YMap(r.value.0), r.value.1))
  }

  /** The entries of a mapping at one indentation, added to those read so far. */
  function ParseFields(ls: seq<Line>, pos: nat, indent: nat, fields: map<string, Yaml>,
                       lib: Library): (r: Parsed<map<string, Yaml>>)
    requires pos <= |ls|
    ensures Within(r, pos, ls)
    decreases |ls| - pos, 1
  {
    if pos == |ls| || ls[pos].indent < indent then Ok((fields, pos))
    else if ls[pos].indent != indent then Err
    else if DASH <= ls[pos].text then Ok((fields, pos))
    else match SplitKeyValue(ls[pos].text)
      case None => Err
      case Some((key, raw)) =>
        if key == "" then Err
        else
          var v := ParseValue(ls, pos + 1, raw, indent, lib);
          if v.Err? then Err else ParseFields(ls, v.value.1, indent, fields[key := v.value.0], lib)
  }

  function ParseSequence(ls: seq<Line>, pos: nat, indent: nat, items: seq<Yaml>, lib: Library): (r: Parsed<seq<Yaml>>)
    requires pos <= |ls|
    ensures Within(r, pos, ls)
    decreases |ls| - pos, 1
  {
    if pos == |ls| || ls[pos].indent < indent then Ok((items, pos))
    else if ls[pos].indent != indent then Err
    else if !(DASH <= ls[pos].text) then Ok((items, pos))
    else
      var item := ParseItem(ls, pos + 1, TrimSpace(ls[pos].text[2..]), indent, lib);
      if item.Err? then Err else ParseSequence(ls, item.value.1, indent, items + [item.value.0], lib)
  }

  /** One item of a sequence, with what stands behind its dash. */
  function ParseItem(ls: seq<Line>, pos: nat, text: string, indent: nat, lib: Library): (r: Parsed<Yaml>)
    requires pos <= |ls|
    ensures Within(r, pos, ls)
    decreases |ls| - pos, 4
  {
    if text == "" then ParseNested(ls, pos, indent, lib)
    else match SplitKeyValue(text)
      case Some((key, raw)) =>
        var v := ParseValue(ls, pos, raw, indent, lib);
        if v.Err? then Err
        else
          var r := ParseFields(ls, v.value.1, indent + 2, map[key := v.value.0], lib);
          if r.Err? then Err else Ok((YMap(r.value.0), r.value.1))
      case None =>
        var v := ParseScalar(text, lib);
        if v.Err? then Err else Ok((v.value, pos))
  }

  function ParseValue(ls: seq<Line>, pos: nat, raw: string, indent: nat, lib: Library): (r: Parsed<Yaml>)
    requires pos <= |ls|
    ensures Within(r, pos, ls)
    decreases |ls| - pos, 3, 1
  {
    if TrimSpace(raw) == "" then ParseNested(ls, pos, indent, lib)
    else if IsBlockScalar(raw) then
      var (s, next) := ParseBlockScalar(ls, pos, raw, indent);
      Ok((YStr(s), next))
    else
      var v := ParseScalar(raw, lib);
      if v.Err? then Err else Ok((v.value, pos))
  }

  function ParseNested(ls: seq<Line>, pos: nat, parent: nat, lib: Library): (r: Parsed<Yaml>)
    requires pos <= |ls|
    ensures Within(r, pos, ls)
    decreases |ls| - pos, 3, 0
  {
    if pos == |ls| || ls[pos].indent <= parent then Ok((YMap(map[]), pos))
    else ParseBlock(ls, pos, ls[pos].indent, lib)
  }

  /** The lines of a block scalar from `pos` on, and where they end. */
  function BlockParts(ls: seq<Line>, pos: nat, indent: nat): (r: (seq<string>, nat))
    requires pos <= |ls|
    ensures pos <= r.1 <= |ls|
    decreases |ls| - pos
  {
    if pos == |ls| || ls[pos].indent < indent then ([], pos)
    else
      var (parts, next) := BlockParts(ls, pos + 1, indent);
      ([Spaces(ls[pos].indent - indent) + ls[pos].text] + parts, next)
  }

  function ParseBlockScalar(ls: seq<Line>, pos: nat, marker: string, parent: nat): (r: (string, nat))
    requires pos <= |ls|
    ensures pos <= r.1 <= |ls|
  {
    if pos == |ls| || ls[pos].indent <= parent then ("", pos)
    else
      var (parts, next) := BlockParts(ls, pos, ls[pos].indent);
      var value := Join(parts, if ">" <= marker then " " else "\n");
      var chomped := marker != [] && marker[|marker| - 1] == '-';
      (if !chomped && value != "" then value + "\n" else value, next)
  }

  /** The whole document: a mapping with nothing behind it. */
  function ParseDocument(raw: string, lib: Library): Result<map<string, Yaml>> {
    var ls := Tokenize(raw);
    if ls.Err? then Err
    else if ls.value == [] then Ok(map[])
    else
      var r := ParseBlock(ls.value, 0, ls.value[0].indent, lib);
      if r.Err? || r.value.1 != |ls.value| || !r.value.0.YMap? then Err else Ok(r.value.0.fields)
  }

  // ---------------------------------------------------------------- the parser as it runs

  function Prepend(lines: seq<Line>, r: Result<seq<Line>>): Result<seq<Line>> {
    if r.Err? then Err else Ok(lines + r.value)
  }

  lemma PrependNone(r: Result<seq<Line>>)
    ensures Prepend([], r) == r
  {
    if r.Ok? {
      assert [] + r.value == r.value;
    }
  }

  lemma PrependMore(lines: seq<Line>, line: Line, r: Result<seq<Line>>)
    ensures r.Ok? ==> Prepend(lines, Ok([line] + r.value)) == Prepend(lines + [line], r)
  {
    if r.Ok? {
      assert lines + ([line] + r.value) == (lines + [line]) + r.value;
    }
  }

  /** The tokenizer's loop over the source lines. */
  method TokenizeYAML(raw: string) returns (r: Result<seq<Line>>)
    ensures r == Tokenize(raw)
  {
    hide StripComment, Split, DropCarriageReturns, TrimSpace;
    var sources := Split(DropCarriageReturns(raw), '\n');
    var lines: seq<Line> := [];
    assert sources[0..] == sources;
    PrependNone(TokenizeLines(sources));
    for i := 0 to |sources|
      invariant Tokenize(raw) == Prepend(lines, TokenizeLines(sources[i..]))
    {
      assert sources[i..][0] == sources[i] && sources[i..][1..] == sources[i + 1..];
      if TrimSpace(sources[i]) == "" {
        continue;
      }
      var text := StripYAMLComment(sources[i]);
      if TrimSpace(text) == "" {
        continue;
      }
      var indent := LeadingSpaces(text);
      if indent < |text| && text[indent] == '\t' {
        return Err;
      }
      if indent % 2 != 0 {
        return Err;
      }
      PrependMore(lines, Line(indent, TrimSpace(text)), TokenizeLines(sources[i + 1..]));
      lines := lines + [Line(indent, TrimSpace(text))];
    }
    assert sources[|sources|..] == [];
    assert lines + [] == lines;
    return Ok(lines);
  }

  class Parser {
    const lines: seq<Line>
    const lib: Library
    var pos: nat

    constructor (lines: seq<Line>, lib: Library)
      ensures this.lines == lines && this.lib == lib && pos == 0
    {
      this.lines, this.lib, pos := lines, lib, 0;
    }

    /** A method did what the specification says: the same value, and the position behind it. */
    ghost predicate Did<T>(r: Result<T>, spec: Parsed<T>)
      reads this
    {
      (r.Ok? <==> spec.Ok?) && (r.Ok? ==> (r.value, pos) == spec.value)
    }

    method Block(indent: nat) returns (r: Result<Yaml>)
      requires pos <= |lines|
      modifies this
      ensures Did(r, ParseBlock(lines, old(pos), indent, lib))
      decreases |lines| - pos, 2
    {
      if pos >= |lines| {
        return Ok(YMap(map[]));
      }
      var line := lines[pos];
      if line.indent < indent {
        return Ok(YMap(map[]));
      }
      if line.indent != indent {
        return Err;
      }
      if DASH <= line.text {
        var items := Sequence(indent);
        return if items.Err? then Err else Ok(YSeq(items.value));
      }
      var fields := Fields(indent, map[]);
      return if fields.Err? then Err else Ok(YMap(fields.value));
    }

    method Fields(indent: nat, start: map<string, Yaml>) returns (r: Result<map<string, Yaml>>)
      requires pos <= |lines|
      modifies this
      ensures Did(r, ParseFields(lines, old(pos), indent, start, lib))
      decreases |lines| - pos, 1
    {
      hide SplitKeyValue, ParseValue;
      var out := start;
      while pos < |lines|
        invariant old(pos) <= pos <= |lines|
        invariant ParseFields(lines, old(pos), indent, start, lib) == ParseFields(lines, pos, indent, out, lib)
        decreases |lines| - pos
      {
        var line := lines[pos];
        if line.indent < indent {
          break;
        }
        if line.indent != indent {
          return Err;
        }
        if DASH <= line.text {
          break;
        }
        var entry := SplitYAMLKeyValue(line.text);
        if entry.None? || entry.value.0 == "" {
          return Err;
        }
        pos := pos + 1;
        var value := Value(entry.value.1, indent);
        if value.Err? {
          return Err;
        }
        out := out[entry.value.0 := value.value];
      }
      return Ok(out);
    }

    method Sequence(indent: nat) returns (r: Result<seq<Yaml>>)
      requires pos <= |lines|
      modifies this
      ensures Did(r, ParseSequence(lines, old(pos), indent, [], lib))
      decreases |lines| - pos, 1
    {
      hide ParseItem, TrimSpace;
      var values: seq<Yaml> := [];
      while pos < |lines|
        invariant old(pos) <= pos <= |lines|
        invariant ParseSequence(lines, old(pos), indent, [], lib) == ParseSequence(lines, pos, indent, values, lib)
        decreases |lines| - pos
      {
        var line := lines[pos];
        if line.indent < indent {
          break;
        }
        if line.indent != indent {
          return Err;
        }
        if !(DASH <= line.text) {
          break;
        }
        pos := pos + 1;
        var item := Item(TrimSpace(line.text[2..]), indent);
        if item.Err? {
          return Err;
        }
        values := values + [item.value];
      }
      return Ok(values);
    }

    method Item(text: string, indent: nat) returns (r: Result<Yaml>)
      requires pos <= |lines|
      modifies this
      ensures Did(r, ParseItem(lines, old(pos), text, indent, lib))
      decreases |lines| - pos, 4
    {
      if text == "" {
        r := Nested(indent);
        return;
      }
      var entry := SplitYAMLKeyValue(text);
      if entry.None? {
        return ParseScalar(text, lib);
      }
      var value := Value(entry.value.1, indent);
      if value.Err? {
        return Err;
      }
      var fields := Fields(indent + 2, map[entry.value.0 := value.value]);
      return if fields.Err? then Err else Ok(YMap(fields.value));
    }

    method Value(raw: string, indent: nat) returns (r: Result<Yaml>)
      requires pos <= |lines|
      modifies this
      ensures Did(r, ParseValue(lines, old(pos), raw, indent, lib))
      decreases |lines| - pos, 3, 1
    {
      if TrimSpace(raw) == "" {
        r := Nested(indent);
      } else if IsBlockScalar(raw) {
        var s := BlockScalar(raw, indent);
        r := Ok(YStr(s));
      } else {
        r := ParseScalar(raw, lib);
      }
    }

    method Nested(parent: nat) returns (r: Result<Yaml>)
      requires pos <= |lines|
      modifies this
      ensures Did(r, ParseNested(lines, old(pos), parent, lib))
      decreases |lines| - pos, 3, 0
    {
      if pos >= |lines| || lines[pos].indent <= parent {
        return Ok(YMap(map[]));
      }
      r := Block(lines[pos].indent);
    }

    method BlockScalar(marker: string, parent: nat) returns (s: string)
      requires pos <= |lines|
      modifies this
      ensures (s, pos) == ParseBlockScalar(lines, old(pos), marker, parent)
    {
      if pos >= |lines| || lines[pos].indent <= parent {
        return "";
      }
      var content := lines[pos].indent;
      var parts: seq<string> := [];
      assert parts + BlockParts(lines, pos, content).0 == BlockParts(lines, pos, content).0;
      while pos < |lines| && lines[pos].indent >= content
        invariant old(pos) <= pos <= |lines|
        invariant BlockParts(lines, old(pos), content)
               == (parts + BlockParts(lines, pos, content).0, BlockParts(lines, pos, content).1)
      {
        var part := Spaces(lines[pos].indent - content) + lines[pos].text;
        assert parts + ([part] + BlockParts(lines, pos + 1, content).0)
            == (parts + [part]) + BlockParts(lines, pos + 1, content).0;
        parts := parts + [part];
        pos := pos + 1;
      }
      assert parts + [] == parts;
      s := Join(parts, if ">" <= marker then " " else "\n");
      var chomped := marker != [] && marker[|marker| - 1] == '-';
      if !chomped && s != "" {
        s := s + "\n";
      }
    }
  }

  method ParseYAMLDocument(raw: string, lib: Library) returns (r: Result<map<string, Yaml>>)
    ensures r == ParseDocument(raw, lib)
  {
    var lines := TokenizeYAML(raw);
    if lines.Err? {
      return Err;
    }
    if lines.value == [] {
      return Ok(map[]);
    }
    var parser := new Parser(lines.value, lib);
    var value := parser.Block(lines.value[0].indent);
    if value.Err? || parser.pos != |lines.value| || !value.value.YMap? {
      return Err;
    }
    return Ok(value.value.fields);
  }
}
