/** Quoted strings and scalars of the configuration format, and the scanners that must not look inside quotes. */
module YamlText {
  import opened Tables
  import opened GoText

  /** Library functions that the model leaves open: printable runes, and text that reads as a float. */
  datatype Library = Library(isPrint: char -> bool, isFloat: string -> bool)

  /** Control characters are not printable. */
  ghost predicate ControlsHidden(lib: Library) {
    forall c: char :: c as int < 32 || c as int == 127 ==> !lib.isPrint(c)
  }

  // ---------------------------------------------------------------- scanning with quotes in mind

  /** The three flags of the scanners. */
  datatype Scan = Scan(inSingle: bool, inDouble: bool, escaped: bool)

  const START := Scan(false, false, false)
  const INSIDE := Scan(false, true, false)

  function Step(st: Scan, c: char): Scan {
    if st.escaped then st.(escaped := false)
    else if st.inDouble && c == '\\' then st.(escaped := true)
    else if c == '\'' && !st.inDouble then st.(inSingle := !st.inSingle)
    else if c == '"' && !st.inSingle then st.(inDouble := !st.inDouble)
    else st
  }

  function Steps(st: Scan, s: string): Scan
    decreases |s|
  {
    if s == [] then st else Steps(Step(st, s[0]), s[1..])
  }

  predicate IsBlank(c: char) { c == ' ' || c == '\t' }

  /** Position of the first `:` outside quotes that ends the text or has a blank behind it. */
  function ColonAt(s: string, st: Scan): (r: Option<nat>)
    ensures r.Some? ==> r.value < |s| && s[r.value] == ':'
  {
    if s == [] then None
    else if s[0] == ':' && st == START && (|s| == 1 || IsBlank(s[1])) then Some(0)
    else match ColonAt(s[1..], Step(st, s[0]))
      case None => None
      case Some(i) => Some(i + 1)
  }

  /** Position of the first `#` outside quotes that starts the line or follows a blank. */
  function CommentAt(s: string, st: Scan, open: bool): (r: Option<nat>)
    ensures r.Some? ==> r.value < |s| && s[r.value] == '#'
  {
    if s == [] then None
    else if s[0] == '#' && st == START && open then Some(0)
    else match CommentAt(s[1..], Step(st, s[0]), IsBlank(s[0]))
      case None => None
      case Some(i) => Some(i + 1)
  }

  function TrimRightBlanks(s: string): (r: string)
    ensures |r| <= |s|
  {
    if s != [] && IsBlank(s[|s| - 1]) then TrimRightBlanks(s[..|s| - 1]) else s
  }

  function StripComment(s: string): string {
    match CommentAt(s, START, true)
    case None => s
    case Some(i) => TrimRightBlanks(s[..i])
  }

  function SplitKeyValue(s: string): (r: Option<(string, string)>)
    ensures r.Some? ==> |r.value.1| < |s|
  {
    match ColonAt(s, START)
    case None => None
    case Some(i) => Some((TrimSpace(s[..i]), TrimSpace(s[i + 1..])))
  }

  function Shift(n: nat, r: Option<nat>): Option<nat> {
    if r.None? then None else Some(n + r.value)
  }

  /** The comment scanner's loop. */
  method StripYAMLComment(value: string) returns (r: string)
    ensures r == StripComment(value)
  {
    var st := START;
    assert value[0..] == value;
    for index := 0 to |value|
      invariant CommentAt(value, START, true)
             == Shift(index, CommentAt(value[index..], st, index == 0 || IsBlank(value[index - 1])))
    {
      var c := value[index];
      assert value[index..][0] == c && value[index..][1..] == value[index + 1..];
      if c == '#' && st == START && (index == 0 || IsBlank(value[index - 1])) {
        return TrimRightBlanks(value[..index]);
      }
      st := Step(st, c);
    }
    return value;
  }

  /** The key scanner's loop. */
  method SplitYAMLKeyValue(text: string) returns (r: Option<(string, string)>)
    ensures r == SplitKeyValue(text)
  {
    var st := START;
    assert text[0..] == text;
    for index := 0 to |text|
      invariant ColonAt(text, START) == Shift(index, ColonAt(text[index..], st))
    {
      var c := text[index];
      assert text[index..][0] == c && text[index..][1..] == text[index + 1..];
      if c == ':' && st == START && (index == |text| - 1 || IsBlank(text[index + 1])) {
        return Some((TrimSpace(text[..index]), TrimSpace(text[index + 1..])));
      }
      st := Step(st, c);
    }
    return None;
  }

  // ---------------------------------------------------------------- quoting

  const HEX := "0123456789abcdef"

  function Hex(n: nat, digits: nat): (r: string)
    ensures |r| == digits
  {
    if digits == 0 then "" else Hex(n / 16, digits - 1) + [HEX[n % 16]]
  }

  function HexValue(c: char): Option<nat> {
    if '0' <= c <= '9' then Some(c as int - '0' as int)
    else if 'a' <= c <= 'f' then Some(c as int - 'a' as int + 10)
    else if 'A' <= c <= 'F' then Some(c as int - 'A' as int + 10)
    else None
  }

  function Unhex(s: string): Option<nat> {
    if s == [] then Some(0)
    else
      var n, d := Unhex(s[..|s| - 1]), HexValue(s[|s| - 1]);
      if n.None? || d.None? then None else Some(16 * n.value + d.value)
  }

  function Pow16(digits: nat): nat {
    if digits == 0 then 1 else 16 * Pow16(digits - 1)
  }

  lemma {:induction false} UnhexHex(n: nat, digits: nat)
    requires n < Pow16(digits)
    ensures Unhex(Hex(n, digits)) == Some(n)
  {
    if digits > 0 {
      UnhexHex(n / 16, digits - 1);
      var h := Hex(n, digits);
      assert h[..digits - 1] == Hex(n / 16, digits - 1) && h[digits - 1] == HEX[n % 16];
      HexDigit(n % 16);
    }
  }

  lemma HexDigit(d: nat)
    requires d < 16
    ensures HexValue(HEX[d]) == Some(d)
  {
  }

  /** One rune inside double quotes, as `strconv.Quote` writes it. */
  function Escape(c: char, lib: Library): (r: string)
    ensures |r| > 0
  {
    var n := c as int;
    if c == '"' || c == '\\' then ['\\', c]
    else if lib.isPrint(c) then [c]
    else if n == 7 then "\\a" else if n == 8 then "\\b" else if n == 12 then "\\f"
    else if c == '\n' then "\\n" else if c == '\r' then "\\r" else if c == '\t' then "\\t" else if n == 11 then "\\v"
    else if n < 32 || n == 127 then "\\x" + Hex(n, 2)
    else if n < 0x10000 then "\\u" + Hex(n, 4)
    else "\\U" + Hex(n, 8)
  }

  function QuoteBody(s: string, lib: Library): string {
    if s == [] then "" else Escape(s[0], lib) + QuoteBody(s[1..], lib)
  }

  function Quote(s: string, lib: Library): string {
    "\"" + QuoteBody(s, lib) + "\""
  }

  /** A rune by its number, unless it is no Unicode scalar value. */
  function Rune(n: nat): Option<char> {
    if n < 0xD800 || 0xE000 <= n < 0x110000 then Some(n as char) else None
  }

  function HexRune(s: string, digits: nat): Option<(char, string)> {
    if |s| < 2 + digits then None
    else
      var n := Unhex(s[2..2 + digits]);
      if n.None? || (digits == 2 && n.value >= 128) || Rune(n.value).None? then None
      else Some((Rune(n.value).value, s[2 + digits..]))
  }

  predicate IsOctal(c: char) { '0' <= c <= '7' }

  function OctalRune(s: string): Option<(char, string)> {
    if |s| < 4 || !IsOctal(s[2]) || !IsOctal(s[3]) then None
    else
      var n := 64 * (s[1] as int - '0' as int) + 8 * (s[2] as int - '0' as int) + (s[3] as int - '0' as int);
      if n >= 128 || n < 0 then None else Some((n as char, s[4..]))
  }

  /** One rune of a double-quoted string and what follows it, as `strconv.UnquoteChar` reads it. */
  function UnquoteRune(s: string): (r: Option<(char, string)>)
    requires s != []
    ensures r.Some? ==> |r.value.1| < |s|
  {
    if s[0] != '\\' then Some((s[0], s[1..]))
    else if |s| < 2 then None
    else match s[1]
      case 'a' => Some((7 as char, s[2..]))
      case 'b' => Some((8 as char, s[2..]))
      case 'f' => Some((12 as char, s[2..]))
      case 'n' => Some(('\n', s[2..]))
      case 'r' => Some(('\r', s[2..]))
      case 't' => Some(('\t', s[2..]))
      case 'v' => Some((11 as char, s[2..]))
      case 'x' => HexRune(s, 2)
      case 'u' => HexRune(s, 4)
      case 'U' => HexRune(s, 8)
      case '\\' => Some(('\\', s[2..]))
      case '"' => Some(('"', s[2..]))
      case d => if IsOctal(d) then OctalRune(s) else None
  }

  /** The text behind an opening quote, up to a closing quote that must end it. */
  function UnquoteBody(s: string): Option<string> {
    if s == [] || s[0] == '\n' then None
    else if s[0] == '"' then if |s| == 1 then Some("") else None
    else match UnquoteRune(s)
      case None => None
      case Some((c, rest)) =>
        match UnquoteBody(rest)
        case None => None
        case Some(t) => Some([c] + t)
  }

  function Unquote(s: string): Option<string> {
    if s == [] || s[0] != '"' then None else UnquoteBody(s[1..])
  }

  lemma EscapeReadsBack(c: char, lib: Library, rest: string)
    requires ControlsHidden(lib)
    ensures var e := Escape(c, lib) + rest;
            e[0] != '"' && e[0] != '\n' && UnquoteRune(e) == Some((c, rest))
  {
    var n := c as int;
    var e := Escape(c, lib) + rest;
    if c == '"' || c == '\\' || lib.isPrint(c) || 7 <= n <= 13 {
    } else if n < 32 || n == 127 {
      UnhexHex(n, 2);
      assert e[2..4] == Hex(n, 2) && e[4..] == rest;
    } else if n < 0x10000 {
      UnhexHex(n, 4);
      assert e[2..6] == Hex(n, 4) && e[6..] == rest;
    } else {
      assert Pow16(8) == 0x100000000;
      UnhexHex(n, 8);
      assert e[2..10] == Hex(n, 8) && e[10..] == rest;
    }
  }

  lemma {:induction false} UnquoteBodyReadsBack(s: string, lib: Library)
    requires ControlsHidden(lib)
    ensures UnquoteBody(QuoteBody(s, lib) + "\"") == Some(s)
  {
    if s != [] {
      var rest := QuoteBody(s[1..], lib) + "\"";
      assert QuoteBody(s, lib) + "\"" == Escape(s[0], lib) + rest;
      EscapeReadsBack(s[0], lib, rest);
      UnquoteBodyReadsBack(s[1..], lib);
      assert [s[0]] + s[1..] == s;
    }
  }

  /** Unquoting a quoted string gives the string back. */
  lemma UnquoteQuote(s: string, lib: Library)
    requires ControlsHidden(lib)
    ensures Unquote(Quote(s, lib)) == Some(s)
  {
    UnquoteBodyReadsBack(s, lib);
    assert Quote(s, lib)[1..] == QuoteBody(s, lib) + "\"";
  }

  // ---------------------------------------------------------------- a quoted string is one token

  /** Outside quotes the text has neither `:` nor `#`. */
  predicate NoBareMarks(s: string, st: Scan)
    decreases |s|
  {
    s == [] || ((st == START ==> s[0] != ':' && s[0] != '#') && NoBareMarks(s[1..], Step(st, s[0])))
  }

  lemma {:induction false} ColonBehind(a: string, b: string, st: Scan)
    requires NoBareMarks(a, st)
    ensures ColonAt(a + b, st) == Shift(|a|, ColonAt(b, Steps(st, a)))
    decreases |a|
  {
    if a == [] {
      assert [] + b == b;
    } else {
      ColonBehind(a[1..], b, Step(st, a[0]));
      assert (a + b)[1..] == a[1..] + b;
    }
  }

  lemma CommentPast(s: string, st: Scan, open: bool)
    requires s != [] && (st == START ==> s[0] != '#')
    ensures CommentAt(s, st, open) == Shift(1, CommentAt(s[1..], Step(st, s[0]), IsBlank(s[0])))
  {
  }

  lemma {:induction false} CommentBehind(a: string, b: string, st: Scan, open: bool)
    requires NoBareMarks(a, st)
    ensures CommentAt(a + b, st, open) ==
            Shift(|a|, CommentAt(b, Steps(st, a), if a == [] then open else IsBlank(a[|a| - 1])))
    decreases |a|
  {
    hide Step, IsBlank, CommentAt;
    if a == [] {
      assert [] + b == b;
    } else {
      CommentBehind(a[1..], b, Step(st, a[0]), IsBlank(a[0]));
      CommentPast(a + b, st, open);
      assert (a + b)[1..] == a[1..] + b;
      assert a[1..] != [] ==> a[1..][|a| - 2] == a[|a| - 1];
    }
  }

  /** Text behind which the colon scanner is where the text leaves it, as long as no blank follows the text. */
  predicate NoColon(s: string, st: Scan) {
    ColonAt(s + ".", st) == None
  }

  lemma {:induction false} ColonPasses(a: string, b: string, st: Scan)
    requires NoColon(a, st) && b != "" && !IsBlank(b[0])
    ensures ColonAt(a + b, st) == Shift(|a|, ColonAt(b, Steps(st, a)))
    decreases |a|
  {
    if a == [] {
      assert [] + b == b;
    } else {
      assert (a + ".")[1..] == a[1..] + "." && (a + b)[1..] == a[1..] + b;
      ColonPasses(a[1..], b, Step(st, a[0]));
    }
  }

  /** And back: where the first separating colon stands right behind `a`, the scanner passed over all of `a`. */
  lemma {:induction false} ColonPassed(a: string, b: string, st: Scan)
    requires b != "" && b[0] == ':' && ColonAt(a + b, st) == Some(|a|)
    ensures NoColon(a, st) && Steps(st, a) == START
    decreases |a|
  {
    if a == [] {
      assert [] + b == b && [] + "." == "." && "."[1..] == "";
    } else {
      assert (a + ".")[1..] == a[1..] + "." && (a + b)[1..] == a[1..] + b;
      ColonPassed(a[1..], b, Step(st, a[0]));
    }
  }

  lemma {:induction false} CommentPasses(a: string, b: string, st: Scan, open: bool)
    requires CommentAt(a, st, open) == None
    ensures CommentAt(a + b, st, open) ==
            Shift(|a|, CommentAt(b, Steps(st, a), if a == [] then open else IsBlank(a[|a| - 1])))
    decreases |a|
  {
    hide Step, IsBlank, CommentAt;
    if a == [] {
      assert [] + b == b;
    } else {
      var s := a + b;
      assert s[0] == a[0] && s[1..] == a[1..] + b;
      assert a[1..] != [] ==> a[1..][|a[1..]| - 1] == a[|a| - 1];
      NoCommentPast(a, st, open);
      CommentPasses(a[1..], b, Step(st, a[0]), IsBlank(a[0]));
      NoCommentAhead(s, st, open);
    }
  }

  lemma NoCommentPast(s: string, st: Scan, open: bool)
    requires s != [] && CommentAt(s, st, open) == None
    ensures !(s[0] == '#' && st == START && open) && CommentAt(s[1..], Step(st, s[0]), IsBlank(s[0])) == None
  {
  }

  lemma NoCommentAhead(s: string, st: Scan, open: bool)
    requires s != [] && !(s[0] == '#' && st == START && open)
    ensures CommentAt(s, st, open) == Shift(1, CommentAt(s[1..], Step(st, s[0]), IsBlank(s[0])))
  {
  }

  lemma {:induction false} NoCommentInside(a: string, b: string, st: Scan, open: bool)
    requires CommentAt(a + b, st, open) == None
    ensures CommentAt(a, st, open) == None
    decreases |a|
  {
    if a != [] {
      assert (a + b)[1..] == a[1..] + b;
      NoCommentInside(a[1..], b, Step(st, a[0]), IsBlank(a[0]));
    }
  }

  lemma {:induction false} TokenJoins(a: string, b: string, st: Scan)
    ensures Steps(st, a + b) == Steps(Steps(st, a), b)
    ensures NoBareMarks(a + b, st) <==> NoBareMarks(a, st) && NoBareMarks(b, Steps(st, a))
    decreases |a|
  {
    if a == [] {
      assert [] + b == b;
    } else {
      TokenJoins(a[1..], b, Step(st, a[0]));
      assert (a + b)[1..] == a[1..] + b;
    }
  }

  /** Text without quotes and escapes leaves the scanner where it is inside a quoted string. */
  lemma {:induction false} PlainInside(s: string)
    requires forall i :: 0 <= i < |s| ==> s[i] != '"' && s[i] != '\\'
    ensures Steps(INSIDE, s) == INSIDE && NoBareMarks(s, INSIDE)
    decreases |s|
  {
    if s != [] {
      PlainInside(s[1..]);
    }
  }

  lemma {:induction false} HexIsPlain(n: nat, digits: nat)
    ensures forall i :: 0 <= i < digits ==> Hex(n, digits)[i] in HEX
    ensures forall i :: 0 <= i < digits ==> Hex(n, digits)[i] != '"' && Hex(n, digits)[i] != '\\'
  {
    if digits > 0 {
      HexIsPlain(n / 16, digits - 1);
    }
  }

  lemma EscapeStaysInside(c: char, lib: Library)
    ensures Steps(INSIDE, Escape(c, lib)) == INSIDE && NoBareMarks(Escape(c, lib), INSIDE)
  {
    var e, n := Escape(c, lib), c as int;
    if e[0] == '\\' {
      var rest := e[2..];
      assert e == [e[0], e[1]] + rest;
      HexIsPlain(n, 2);
      HexIsPlain(n, 4);
      HexIsPlain(n, 8);
      PlainInside(rest);
      TokenJoins([e[0], e[1]], rest, INSIDE);
      assert [e[0], e[1]][1..] == [e[1]] && [e[1]][1..] == [];
      assert Steps(INSIDE, [e[0], e[1]]) == Steps(Step(INSIDE, e[0]), [e[1]]) == Step(Step(INSIDE, e[0]), e[1]);
      assert Step(Step(INSIDE, e[0]), e[1]) == INSIDE;
      assert NoBareMarks([e[0], e[1]], INSIDE) by {
        assert NoBareMarks([e[1]], Step(INSIDE, e[0]));
      }
    } else {
      PlainInside(e);
    }
  }

  lemma {:induction false} BodyStaysInside(s: string, lib: Library)
    ensures Steps(INSIDE, QuoteBody(s, lib)) == INSIDE && NoBareMarks(QuoteBody(s, lib), INSIDE)
  {
    if s != [] {
      EscapeStaysInside(s[0], lib);
      BodyStaysInside(s[1..], lib);
      TokenJoins(Escape(s[0], lib), QuoteBody(s[1..], lib), INSIDE);
    }
  }

  /** No scanner sees anything inside a quoted string, and behind it each is outside quotes again. */
  lemma QuoteIsToken(s: string, lib: Library)
    ensures Steps(START, Quote(s, lib)) == START && NoBareMarks(Quote(s, lib), START)
  {
    var body := QuoteBody(s, lib);
    BodyStaysInside(s, lib);
    TokenJoins(body, "\"", INSIDE);
    assert Steps(INSIDE, "\"") == START by {
      assert "\""[1..] == "";
    }
    assert NoBareMarks("\"", INSIDE) by {
      assert "\""[1..] == "";
    }
    var q := Quote(s, lib);
    assert q == "\"" + (body + "\"") && q[1..] == body + "\"";
  }

  /** A quoted string fits on one line. */
  lemma {:induction false} QuoteHasNoBreak(s: string, lib: Library)
    requires ControlsHidden(lib)
    ensures '\n' !in Quote(s, lib) && '\r' !in Quote(s, lib)
  {
    BodyHasNoBreak(s, lib);
  }

  lemma {:induction false} BodyHasNoBreak(s: string, lib: Library)
    requires ControlsHidden(lib)
    ensures '\n' !in QuoteBody(s, lib) && '\r' !in QuoteBody(s, lib)
  {
    if s != [] {
      hide Escape;
      BodyHasNoBreak(s[1..], lib);
      EscapeHasNoBreak(s[0], lib);
    }
  }

  lemma EscapeHasNoBreak(c: char, lib: Library)
    requires ControlsHidden(lib)
    ensures '\n' !in Escape(c, lib) && '\r' !in Escape(c, lib)
  {
    var n := c as int;
    HexIsPlain(n, 2);
    HexIsPlain(n, 4);
    HexIsPlain(n, 8);
    assert '\n' !in HEX && '\r' !in HEX;
  }
}
