/** The string functions of the Go library that the parsers use. A Go string is a sequence of runes. */
module GoText {

  /** White space as the Unicode tables list it. */
  predicate IsSpace(c: char) {
    var n := c as int;
    (9 <= n <= 13) || n == 32 || n == 0x85 || n == 0xA0 || n == 0x1680 || (0x2000 <= n <= 0x200A)
    || n == 0x2028 || n == 0x2029 || n == 0x202F || n == 0x205F || n == 0x3000
  }

  function TrimLeft(s: string): (r: string)
    ensures |r| <= |s|
    ensures r == [] || !IsSpace(r[0])
  {
    if s != [] && IsSpace(s[0]) then TrimLeft(s[1..]) else s
  }

  function TrimRight(s: string): (r: string)
    ensures |r| <= |s| && r <= s
    ensures r == [] || !IsSpace(r[|r| - 1])
  {
    if s != [] && IsSpace(s[|s| - 1]) then TrimRight(s[..|s| - 1]) else s
  }

  function TrimSpace(s: string): (r: string)
    ensures |r| <= |s|
  {
    TrimRight(TrimLeft(s))
  }

  /** Text that neither starts nor ends with white space. */
  predicate Trimmed(s: string) {
    s == [] || (!IsSpace(s[0]) && !IsSpace(s[|s| - 1]))
  }

  lemma TrimTrimmed(s: string)
    requires Trimmed(s)
    ensures TrimSpace(s) == s
  {
  }

  lemma {:induction false} TrimLeftSpaces(n: nat, s: string)
    ensures TrimLeft(Spaces(n) + s) == TrimLeft(s)
  {
    if n == 0 {
      assert Spaces(0) + s == s;
    } else {
      assert (Spaces(n) + s)[1..] == Spaces(n - 1) + s;
      TrimLeftSpaces(n - 1, s);
    }
  }

  lemma TrimIndented(n: nat, s: string)
    requires Trimmed(s)
    ensures TrimSpace(Spaces(n) + s) == s
  {
    TrimLeftSpaces(n, s);
  }

  function Spaces(n: nat): (r: string)
    ensures |r| == n && forall i :: 0 <= i < n ==> r[i] == ' '
  {
    if n == 0 then "" else [' '] + Spaces(n - 1)
  }

  lemma SpacesUnique(s: string)
    requires forall i :: 0 <= i < |s| ==> s[i] == ' '
    ensures s == Spaces(|s|)
  {
  }

  /** `strings.Split` for a one-character separator. */
  function Split(s: string, sep: char): (r: seq<string>)
    ensures |r| > 0
  {
    if s == [] then [[]]
    else if s[0] == sep then [[]] + Split(s[1..], sep)
    else
      var rest := Split(s[1..], sep);
      [[s[0]] + rest[0]] + rest[1..]
  }

  lemma {:induction false} SplitPlain(s: string, sep: char)
    requires sep !in s
    ensures Split(s, sep) == [s]
  {
    if s != [] {
      SplitPlain(s[1..], sep);
      assert [s[0]] + s[1..] == s;
    }
  }

  lemma {:induction false} SplitFirst(line: string, rest: string, sep: char)
    requires sep !in line
    ensures Split(line + [sep] + rest, sep) == [line] + Split(rest, sep)
  {
    var s := line + [sep] + rest;
    if line == [] {
      assert s[1..] == rest;
    } else {
      SplitFirst(line[1..], rest, sep);
      assert s[1..] == line[1..] + [sep] + rest;
      assert [line[0]] + line[1..] == line;
    }
  }

  /** `strings.Join`. */
  function Join(parts: seq<string>, sep: string): string {
    if parts == [] then "" else if |parts| == 1 then parts[0] else parts[0] + sep + Join(parts[1..], sep)
  }

  /** Splitting and joining at one character undo each other. */
  lemma {:induction false} JoinSplit(s: string, sep: char)
    ensures Join(Split(s, sep), [sep]) == s
  {
    if s != [] {
      JoinSplit(s[1..], sep);
      assert [s[0]] + s[1..] == s;
      var rest := Split(s[1..], sep);
      if s[0] != sep {
        assert ([[s[0]] + rest[0]] + rest[1..])[1..] == rest[1..];
        if |rest| > 1 {
          assert [s[0]] + (rest[0] + [sep] + Join(rest[1..], [sep]))
            == [s[0]] + rest[0] + [sep] + Join(rest[1..], [sep]);
        }
      } else {
        assert ([[]] + rest)[1..] == rest;
      }
    }
  }

  lemma {:induction false} SplitJoin(parts: seq<string>, sep: char)
    requires parts != [] && forall i :: 0 <= i < |parts| ==> sep !in parts[i]
    ensures Split(Join(parts, [sep]), sep) == parts
  {
    if |parts| == 1 {
      SplitPlain(parts[0], sep);
    } else {
      SplitJoin(parts[1..], sep);
      SplitFirst(parts[0], Join(parts[1..], [sep]), sep);
      assert [parts[0]] + parts[1..] == parts;
    }
  }

  /** Carriage returns before line feeds are dropped. */
  function DropCarriageReturns(s: string): string {
    if |s| >= 2 && s[0] == '\r' && s[1] == '\n' then ['\n'] + DropCarriageReturns(s[2..])
    else if s == [] then []
    else [s[0]] + DropCarriageReturns(s[1..])
  }

  lemma {:induction false} NoCarriageReturns(s: string)
    requires '\r' !in s
    ensures DropCarriageReturns(s) == s
  {
    if s != [] {
      NoCarriageReturns(s[1..]);
      assert [s[0]] + s[1..] == s;
    }
  }

  /** A carriage return with a line feed behind it. */
  ghost predicate HasPair(s: string) {
    exists i :: 0 <= i < |s| - 1 && s[i] == '\r' && s[i + 1] == '\n'
  }

  lemma {:induction false} NoPairsStay(s: string)
    requires !HasPair(s)
    ensures DropCarriageReturns(s) == s
  {
    if s != [] {
      var rest := s[1..];
      assert forall i :: 0 <= i < |rest| ==> rest[i] == s[i + 1];
      NoPairsStay(rest);
      assert [s[0]] + s[1..] == s;
    }
  }

  // ---------------------------------------------------------------- order of strings

  /** The order of `sort.Strings`. */
  predicate Less(a: string, b: string) {
    if b == [] then false
    else if a == [] then true
    else if a[0] != b[0] then a[0] < b[0]
    else Less(a[1..], b[1..])
  }

  lemma {:induction false} LessTrans(a: string, b: string, c: string)
    requires Less(a, b) && Less(b, c)
    ensures Less(a, c)
  {
    if a != [] && b != [] && c != [] && a[0] == b[0] == c[0] {
      LessTrans(a[1..], b[1..], c[1..]);
    }
  }

  lemma {:induction false} LessTotal(a: string, b: string)
    ensures Less(a, b) || Less(b, a) || a == b
    ensures !(Less(a, b) && Less(b, a)) && !Less(a, a)
  {
    if a != [] {
      LessIrreflexive(a);
    }
    if a != [] && b != [] && a[0] == b[0] {
      LessTotal(a[1..], b[1..]);
      assert a == [a[0]] + a[1..] && b == [b[0]] + b[1..];
    }
  }

  lemma {:induction false} LessIrreflexive(a: string)
    ensures !Less(a, a)
  {
    if a != [] {
      LessIrreflexive(a[1..]);
    }
  }

  ghost predicate IsLeast(k: string, keys: set<string>) {
    k in keys && forall o :: o in keys && o != k ==> Less(k, o)
  }

  lemma {:induction false} LeastExists(keys: set<string>)
    requires keys != {}
    ensures exists k :: IsLeast(k, keys)
    decreases |keys|
  {
    var k :| k in keys;
    var rest := keys - {k};
    if rest == {} {
      assert forall o :: o in keys ==> o == k || o in rest;
      assert IsLeast(k, keys);
    } else {
      LeastExists(rest);
      var m :| IsLeast(m, rest);
      LessTotal(k, m);
      if Less(k, m) {
        forall o | o in keys && o != k
          ensures Less(k, o)
        {
          if o != m {
            LessTrans(k, m, o);
          }
        }
        assert IsLeast(k, keys);
      } else {
        assert IsLeast(m, keys);
      }
    }
  }

  lemma LeastUnique(a: string, b: string, keys: set<string>)
    requires IsLeast(a, keys) && IsLeast(b, keys)
    ensures a == b
  {
    LessTotal(a, b);
  }

  ghost function Least(keys: set<string>): (k: string)
    requires keys != {}
    ensures IsLeast(k, keys)
  {
    LeastExists(keys);
    var k :| IsLeast(k, keys);
    k
  }

  /** The keys in ascending order. */
  ghost function SortKeys(keys: set<string>): (r: seq<string>)
    ensures |r| == |keys|
    ensures forall k :: k in r <==> k in keys
    ensures forall i, j :: 0 <= i < j < |r| ==> Less(r[i], r[j])
    decreases |keys|
  {
    if keys == {} then []
    else
      [Least(keys)] + SortKeys(keys - {Least(keys)})
  }

  /** Sorting by repeated selection, as any correct sort gives this order. */
  method SortedKeys(keys: set<string>) returns (r: seq<string>)
    ensures r == SortKeys(keys)
  {
    r := [];
    var rest := keys;
    while rest != {}
      invariant r + SortKeys(rest) == SortKeys(keys)
      decreases |rest|
    {
      LeastExists(rest);
      var k :| k in rest && forall o :: o in rest && o != k ==> Less(k, o);
      LeastUnique(Least(rest), k, rest);
      PrefixMoves(r, k, SortKeys(rest - {k}));
      r := r + [k];
      rest := rest - {k};
    }
  }

  lemma PrefixMoves(r: seq<string>, k: string, tail: seq<string>)
    ensures r + ([k] + tail) == (r + [k]) + tail
  {
  }
}
