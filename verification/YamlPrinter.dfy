/** The printer of the configuration format. */
module YamlPrinter {
  import opened GoText
  import opened YamlText
  import opened GoNumbers
  import opened YamlParser

  /** A configuration value by its Go type; the printer refuses every type but the first six. */
  datatype Config = CMap(fields: Fields) | CMapList(items: seq<Fields>) | CStrList(strings: seq<string>)
                  | CStr(s: string) | CBool(b: bool) | CInt(n: Int64) | COther
  datatype Fields = Fields(m: map<string, Config>)

  ghost predicate Supported(v: Config)
    decreases v
  {
    match v
    case CMap(f) => AllSupported(f)
    case CMapList(_) => forall i :: 0 <= i < |v.items| ==> AllSupported(v.items[i])
    case COther => false
    case _ => true
  }

  ghost predicate AllSupported(f: Fields)
    decreases f
  {
    forall k :: k in f.m ==> Supported(f.m[k])
  }

  // ---------------------------------------------------------------- the printed lines

  function ScalarText(v: Config, lib: Library): string
  {
    match v
    case CStr(s) => Quote(s, lib)
    case CBool(b) => if b then "true" else "false"
    case CInt(n) => Itoa(n)
    case _ => ""
  }

  predicate Empty(v: Config) {
    (v.CMap? && v.fields.m == map[]) || (v.CMapList? && v.items == []) || (v.CStrList? && v.strings == [])
  }

  predicate IsContainer(v: Config) { v.CMap? || v.CMapList? || v.CStrList? }

  /** What stands on the line of the key: nothing when the value follows on lines of its own. */
  function Head(v: Config, lib: Library): string {
    if !IsContainer(v) then ScalarText(v, lib)
    else if !Empty(v) then ""
    else if v.CMap? then "{}"
    else "[]"
  }

  function FieldText(key: string, head: string): string {
    if head == "" then key + ":" else key + ": " + head
  }

  ghost function FieldLines(key: string, v: Config, indent: nat, lib: Library): seq<Line>
    decreases v, |if v.CMapList? then v.items else []| + 2
  {
    [Line(indent, FieldText(key, Head(v, lib)))] + Body(v, indent + 2, lib)
  }

  /** The lines below the key. */
  ghost function Body(v: Config, indent: nat, lib: Library): seq<Line>
    decreases v, |if v.CMapList? then v.items else []| + 1
  {
    match v
    case CMap(f) => MapLines(f, SortKeys(f.m.Keys), indent, lib)
    case CMapList(_) => ItemLines(v, 0, indent, lib)
    case CStrList(strings) => StringLines(strings, indent, lib)
    case _ => []
  }

  ghost function MapLines(f: Fields, keys: seq<string>, indent: nat, lib: Library): seq<Line>
    requires forall k :: k in keys ==> k in f.m
    decreases f, |keys|
  {
    if keys == [] then []
    else FieldLines(keys[0], f.m[keys[0]], indent, lib) + MapLines(f, keys[1..], indent, lib)
  }

  /** The lines of the list's items from the `i`th on. */
  ghost function ItemLines(v: Config, i: nat, indent: nat, lib: Library): seq<Line>
    requires v.CMapList? && i <= |v.items|
    decreases v, |v.items| - i
  {
    if i == |v.items| then []
    else
      Dashed(MapLines(v.items[i], SortKeys(v.items[i].m.Keys), indent + 2, lib), indent)
      + ItemLines(v, i + 1, indent, lib)
  }

  /** Lines whose first one moves behind a dash. */
  function Dashed(ls: seq<Line>, indent: nat): (r: seq<Line>)
    ensures |r| > 0 && r[0].indent == indent
  {
    if ls == [] then [Line(indent, "- {}")] else [Line(indent, DASH + ls[0].text)] + ls[1..]
  }

  function StringLines(strings: seq<string>, indent: nat, lib: Library): seq<Line> {
    if strings == [] then []
    else [Line(indent, DASH + Quote(strings[0], lib))] + StringLines(strings[1..], indent, lib)
  }

  function Render(ls: seq<Line>): string {
    if ls == [] then "" else Spaces(ls[0].indent) + ls[0].text + "\n" + Render(ls[1..])
  }

  lemma Associates(a: string, b: string, c: string)
    ensures a + (b + c) == a + b + c
  {
  }

  lemma {:induction false} RenderJoins(a: seq<Line>, b: seq<Line>)
    ensures Render(a + b) == Render(a) + Render(b)
  {
    if a == [] {
      assert a + b == b;
    } else {
      hide Spaces;
      RenderJoins(a[1..], b);
      assert (a + b)[1..] == a[1..] + b && (a + b)[0] == a[0];
      Associates(Spaces(a[0].indent) + a[0].text + "\n", Render(a[1..]), Render(b));
    }
  }

  lemma RenderNone()
    ensures Render([]) == ""
  {
  }

  lemma EmptyBody(v: Config, indent: nat, lib: Library)
    ensures Empty(v) ==> Supported(v) && Body(v, indent, lib) == []
  {
  }

  lemma ItemsNext(v: Config, i: nat, indent: nat, lib: Library)
    requires v.CMapList? && i < |v.items|
    ensures ItemLines(v, i, indent, lib)
         == Dashed(MapLines(v.items[i], SortKeys(v.items[i].m.Keys), indent + 2, lib), indent)
           + ItemLines(v, i + 1, indent, lib)
  {
    hide MapLines, SortKeys, Dashed;
  }

  lemma ItemsEnd(v: Config, indent: nat, lib: Library)
    requires v.CMapList?
    ensures Render(ItemLines(v, |v.items|, indent, lib)) == ""
  {
    hide MapLines, SortKeys, Dashed;
  }

  lemma FieldsEnd(f: Fields, indent: nat, lib: Library)
    ensures Render(MapLines(f, [], indent, lib)) == ""
  {
  }

  lemma NoFields(f: Fields, indent: nat, lib: Library)
    ensures Dashed(MapLines(f, [], indent + 2, lib), indent) == [Line(indent, "- {}")]
  {
  }

  lemma RenderLine(line: Line)
    ensures Render([line]) == Spaces(line.indent) + line.text + "\n"
  {
    assert [line][1..] == [];
  }

  /** The keys of the document in print order: tokens, the known services, the others sorted. */
  ghost function TopKeys(keys: set<string>, services: seq<string>): (r: seq<string>)
    ensures forall k :: k in r <==> k in keys
  {
    FirstKeys(keys, services) + SortKeys(keys - set k | k in FirstKeys(keys, services))
  }

  function FirstKeys(keys: set<string>, services: seq<string>): (r: seq<string>)
    ensures forall k :: k in r ==> k in keys
  {
    (if "tokens" in keys then ["tokens"] else []) + Known(keys, services)
  }

  function Known(keys: set<string>, services: seq<string>): (r: seq<string>)
    ensures forall k :: k in r ==> k in keys
  {
    if services == [] then []
    else (if services[0] in keys then [services[0]] else []) + Known(keys, services[1..])
  }

  ghost function Printed(f: Fields, services: seq<string>, lib: Library): string {
    Render(MapLines(f, TopKeys(f.m.Keys, services), 0, lib))
  }

  // ---------------------------------------------------------------- the printer as it runs

  /** What the printer writes behind a key, up to the end of the line. */
  function After(v: Config, lib: Library): string {
    var head := Head(v, lib);
    if head == "" then ":" + "\n" else ": " + head + "\n"
  }

  lemma Appended(was: string, a: seq<Line>, b: seq<Line>)
    ensures was + Render(a + b) == was + Render(a) + Render(b)
  {
    RenderJoins(a, b);
    Associates(was, Render(a), Render(b));
  }

  class Builder {
    const lib: Library
    var text: string

    constructor (lib: Library)
      ensures this.lib == lib && text == ""
    {
      this.lib, text := lib, "";
    }

    method Write(s: string)
      modifies this
      ensures text == old(text) + s
    {
      text := text + s;
    }

    method WriteIndent(indent: nat)
      modifies this
      ensures text == old(text) + Spaces(indent)
    {
      for i := 0 to indent
        invariant text == old(text) + Spaces(i)
      {
        MoreSpaces(i);
        text := text + " ";
      }
    }

    method WriteScalar(v: Config) returns (ok: bool)
      modifies this
      ensures ok == (v.CStr? || v.CBool? || v.CInt?)
      ensures ok ==> text == old(text) + ScalarText(v, lib)
    {
      ok := v.CStr? || v.CBool? || v.CInt?;
      match v
      case CStr(s) => Write(Quote(s, lib));
      case CBool(b) => Write(if b then "true" else "false");
      case CInt(n) => Write(Itoa(n));
      case _ =>
    }

    /** The items of a string list, one a line. */
    method WriteStrings(strings: seq<string>, indent: nat)
      modifies this
      ensures text == old(text) + Render(StringLines(strings, indent, lib))
    {
      for i := 0 to |strings|
        invariant text + Render(StringLines(strings[i..], indent, lib))
                  == old(text) + Render(StringLines(strings, indent, lib))
      {
        hide Quote, Render, Spaces;
        ghost var was := text;
        ghost var line := Line(indent, DASH + Quote(strings[i], lib));
        assert strings[i..][0] == strings[i] && strings[i..][1..] == strings[i + 1..];
        Appended(was, [line], StringLines(strings[i + 1..], indent, lib));
        DashedLine(was, indent, Quote(strings[i], lib));
        WriteIndent(indent);
        Write("- ");
        var ok := WriteScalar(CStr(strings[i]));
        Write("\n");
      }
    }

    method WriteField(key: string, v: Config, indent: nat) returns (ok: bool)
      modifies this
      ensures ok == Supported(v)
      ensures ok ==> text == old(text) + Render(FieldLines(key, v, indent, lib))
      decreases v, 2
    {
      ghost var was := text;
      WriteIndent(indent);
      Write(key);
      ok := WriteRest(v, indent + 2);
      if ok {
        RestIsField(was, key, v, indent, lib);
      }
    }

    /** What a field has behind its key; nested lines go to the given indentation. */
    method WriteRest(v: Config, indent: nat) returns (ok: bool)
      modifies this
      ensures ok == Supported(v)
      ensures ok ==> text == old(text) + After(v, lib) + Render(Body(v, indent, lib))
      decreases v, 1
    {
      hide Render, MapLines, ItemLines, StringLines, ScalarText, AllSupported, After;
      RenderNone();
      AfterLaw(v, lib);
      EmptyBody(v, indent, lib);
      if v.CMap? {
        if |v.fields.m| == 0 {
          Write(": {}\n");
          return true;
        }
        Write(":\n");
        ok := WriteMap(v.fields, indent);
      } else if v.CMapList? {
        if |v.items| == 0 {
          Write(": []\n");
          return true;
        }
        Write(":\n");
        ok := WriteMapSlice(v, indent);
      } else if v.CStrList? {
        if |v.strings| == 0 {
          Write(": []\n");
          return true;
        }
        Write(":\n");
        WriteStrings(v.strings, indent);
        ok := true;
      } else {
        ghost var was := text;
        Write(": ");
        ok := WriteScalar(v);
        Write("\n");
        if ok {
          assert was + ": " + ScalarText(v, lib) + "\n" == was + (": " + ScalarText(v, lib) + "\n");
        }
      }
    }

    method WriteMap(f: Fields, indent: nat) returns (ok: bool)
      modifies this
      ensures ok == AllSupported(f)
      ensures ok ==> text == old(text) + Render(MapLines(f, SortKeys(f.m.Keys), indent, lib))
      decreases f, 1
    {
      var keys := SortedKeys(f.m.Keys);
      ok := WriteFields(f, keys, indent);
    }

    /** The fields with these keys. */
    method WriteFields(f: Fields, keys: seq<string>, indent: nat) returns (ok: bool)
      requires forall k :: k in keys ==> k in f.m
      modifies this
      ensures ok == forall k :: k in keys ==> Supported(f.m[k])
      ensures ok ==> text == old(text) + Render(MapLines(f, keys, indent, lib))
      decreases f, 0
    {
      hide Render, FieldLines, Supported, SortKeys, AllSupported;
      FieldsEnd(f, indent, lib);
      for i := 0 to |keys|
        invariant forall j :: 0 <= j < i ==> Supported(f.m[keys[j]])
        invariant text + Render(MapLines(f, keys[i..], indent, lib))
                  == old(text) + Render(MapLines(f, keys, indent, lib))
      {
        ghost var was := text;
        assert keys[i..][0] == keys[i] && keys[i..][1..] == keys[i + 1..];
        Appended(was, FieldLines(keys[i], f.m[keys[i]], indent, lib), MapLines(f, keys[i + 1..], indent, lib));
        var written := WriteField(keys[i], f.m[keys[i]], indent);
        if !written {
          return false;
        }
      }
      return true;
    }

    method WriteMapSlice(v: Config, indent: nat) returns (ok: bool)
      requires v.CMapList?
      modifies this
      ensures ok == Supported(v)
      ensures ok ==> text == old(text) + Render(ItemLines(v, 0, indent, lib))
      decreases v, 0
    {
      hide Render, MapLines, SortKeys, AllSupported, ItemLines, Dashed;
      ItemsEnd(v, indent, lib);
      for i := 0 to |v.items|
        invariant forall j :: 0 <= j < i ==> AllSupported(v.items[j])
        invariant text + Render(ItemLines(v, i, indent, lib)) == old(text) + Render(ItemLines(v, 0, indent, lib))
      {
        ghost var was := text;
        ghost var item := MapLines(v.items[i], SortKeys(v.items[i].m.Keys), indent + 2, lib);
        ItemsNext(v, i, indent, lib);
        Appended(was, Dashed(item, indent), ItemLines(v, i + 1, indent, lib));
        var written := WriteItem(v.items[i], indent);
        if !written {
          return false;
        }
      }
      return true;
    }

    method WriteItem(f: Fields, indent: nat) returns (ok: bool)
      modifies this
      ensures ok == AllSupported(f)
      ensures ok ==> text == old(text) + Render(Dashed(MapLines(f, SortKeys(f.m.Keys), indent + 2, lib), indent))
      decreases f, 1
    {
      hide Render, MapLines, SortKeys, Dashed, Supported, After, Body, Spaces;
      var keys := SortedKeys(f.m.Keys);
      ghost var was := text;
      NoFields(f, indent, lib);
      WriteIndent(indent);
      if |keys| == 0 {
        RenderLine(Line(indent, "- {}"));
        Write("- {}\n");
        return true;
      }
      Write("- ");
      Write(keys[0]);
      ok := WriteRest(f.m[keys[0]], indent + 4);
      if !ok {
        return;
      }
      RestIsItem(was, f, keys, indent, lib);
      ok := WriteFields(f, keys[1..], indent + 2);
      assert ok ==> AllSupported(f) by {
        assert keys == [keys[0]] + keys[1..];
      }
    }
  }

  lemma DashedLine(was: string, indent: nat, text: string)
    ensures was + Render([Line(indent, DASH + text)]) == was + Spaces(indent) + DASH + text + "\n"
  {
    hide Render, Spaces;
    RenderLine(Line(indent, DASH + text));
    var a := Spaces(indent);
    assert was + (a + (DASH + text) + "\n") == was + a + DASH + text + "\n";
  }

  lemma AfterLaw(v: Config, lib: Library)
    ensures Empty(v) ==> After(v, lib) == if v.CMap? then ": {}\n" else ": []\n"
    ensures IsContainer(v) && !Empty(v) ==> After(v, lib) == ":\n"
    ensures v.CStr? || v.CBool? || v.CInt? ==> After(v, lib) == ": " + ScalarText(v, lib) + "\n"
  {
  }

  lemma MoreSpaces(n: nat)
    ensures Spaces(n) + " " == Spaces(n + 1)
  {
    SpacesUnique(Spaces(n) + " ");
  }

  lemma RestIsField(was: string, key: string, v: Config, indent: nat, lib: Library)
    ensures was + Spaces(indent) + key + After(v, lib) + Render(Body(v, indent + 2, lib))
         == was + Render(FieldLines(key, v, indent, lib))
  {
    hide Render, Spaces, Head, Body;
    var line := Line(indent, FieldText(key, Head(v, lib)));
    Appended(was, [line], Body(v, indent + 2, lib));
    RenderLine(line);
    KeyThenAfter(was + Spaces(indent), key, v, lib);
    assert was + (Spaces(indent) + line.text + "\n") == was + Spaces(indent) + line.text + "\n";
  }

  lemma KeyThenAfter(was: string, key: string, v: Config, lib: Library)
    ensures was + key + After(v, lib) == was + FieldText(key, Head(v, lib)) + "\n"
  {
    hide Head;
    var head := Head(v, lib);
    if head == "" {
      assert was + (key + ":") + "\n" == was + key + (":" + "\n");
    } else {
      assert was + (key + ": " + head) + "\n" == was + key + (": " + head + "\n");
    }
  }

  lemma RestIsItem(was: string, f: Fields, keys: seq<string>, indent: nat, lib: Library)
    requires keys != [] && forall k :: k in keys ==> k in f.m
    ensures was + Spaces(indent) + DASH + keys[0] + After(f.m[keys[0]], lib)
            + Render(Body(f.m[keys[0]], indent + 4, lib))
            + Render(MapLines(f, keys[1..], indent + 2, lib))
         == was + Render(Dashed(MapLines(f, keys, indent + 2, lib), indent))
  {
    hide Render, Spaces, Head, Body;
    var v := f.m[keys[0]];
    var text := FieldText(keys[0], Head(v, lib));
    var below, rest := Body(v, indent + 4, lib), MapLines(f, keys[1..], indent + 2, lib);
    var line := Line(indent, DASH + text);
    assert Dashed(MapLines(f, keys, indent + 2, lib), indent) == [line] + below + rest;
    Appended(was, [line] + below, rest);
    Appended(was, [line], below);
    DashedLine(was, indent, text);
    KeyThenAfter(was + Spaces(indent) + DASH, keys[0], v, lib);
  }

  lemma KnownFrom(names: set<string>, services: seq<string>, i: nat, keys: seq<string>)
    requires i < |services|
    ensures keys + Known(names, services[i..])
         == (if services[i] in names then keys + [services[i]] else keys) + Known(names, services[i + 1..])
  {
    assert services[i..][0] == services[i] && services[i..][1..] == services[i + 1..];
  }

  lemma KnownNone(names: set<string>, keys: seq<string>)
    ensures keys + Known(names, []) == keys
  {
  }

  method TopLevelConfigKeys(names: set<string>, services: seq<string>) returns (keys: seq<string>)
    ensures keys == TopKeys(names, services)
  {
    hide Known, SortKeys;
    keys := [];
    var seen: set<string> := {};
    if "tokens" in names {
      keys := keys + ["tokens"];
      seen := seen + {"tokens"};
    }
    ghost var first := FirstKeys(names, services);
    assert services[0..] == services;
    for i := 0 to |services|
      invariant keys + Known(names, services[i..]) == first
      invariant seen == set k | k in keys
    {
      KnownFrom(names, services, i, keys);
      if services[i] in names {
        keys := keys + [services[i]];
        seen := seen + {services[i]};
      }
    }
    KnownNone(names, keys);
    assert services[|services|..] == [];
    var rest := SortedKeys(names - seen);
    keys := keys + rest;
  }

  /** The whole document, `Err` when a value has another type. */
  method EncodeYAML(f: Fields, services: seq<string>, lib: Library) returns (r: Result<string>)
    ensures r.Ok? <==> AllSupported(f)
    ensures r.Ok? ==> r.value == Printed(f, services, lib)
  {
    var b := new Builder(lib);
    var keys := TopLevelConfigKeys(f.m.Keys, services);
    var ok := b.WriteFields(f, keys, 0);
    return if ok then Ok(b.text) else Err;
  }
}
