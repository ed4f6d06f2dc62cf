/** Base64 as the Go library reads and writes it, in the standard and the URL alphabet. */
module Base64 {
  import opened Tables

  type Byte = n: int | 0 <= n < 256
  type Sextet = n: int | 0 <= n < 64

  function Digit(n: Sextet, url: bool): char {
    if n < 26 then 'A' + n as char
    else if n < 52 then 'a' + (n - 26) as char
    else if n < 62 then '0' + (n - 52) as char
    else if n == 62 then if url then '-' else '+'
    else if url then '_' else '/'
  }

  function Value(c: char, url: bool): Option<Sextet> {
    if 'A' <= c <= 'Z' then Some(c as int - 'A' as int)
    else if 'a' <= c <= 'z' then Some(c as int - 'a' as int + 26)
    else if '0' <= c <= '9' then Some(c as int - '0' as int + 52)
    else if c == (if url then '-' else '+') then Some(62)
    else if c == (if url then '_' else '/') then Some(63)
    else None
  }

  lemma ValueOfDigit(n: Sextet, url: bool)
    ensures Value(Digit(n, url), url) == Some(n)
    ensures Digit(n, url) != '\n' && Digit(n, url) != '\r' && Digit(n, url) != '='
  {
  }

  /** Encoding without padding: three bytes to four digits, one or two bytes left over to two or three. */
  function EncodeSextets(bytes: seq<Byte>): (r: seq<Sextet>)
    ensures |r| % 4 != 1
  {
    if bytes == [] then []
    else if |bytes| == 1 then [bytes[0] / 4, bytes[0] % 4 * 16]
    else if |bytes| == 2 then [bytes[0] / 4, bytes[0] % 4 * 16 + bytes[1] / 16, bytes[1] % 16 * 4]
    else
      [bytes[0] / 4, bytes[0] % 4 * 16 + bytes[1] / 16, bytes[1] % 16 * 4 + bytes[2] / 64, bytes[2] % 64]
      + EncodeSextets(bytes[3..])
  }

  // The bytes that two neighbouring digits of a group of four share.
  function First(w: int, x: Sextet): Byte
    requires 0 <= w < 64
  {
    w * 4 + x / 16
  }
  function Second(x: int, y: Sextet): Byte
    requires 0 <= x < 64
  {
    x % 16 * 16 + y / 4
  }
  function Third(y: int, z: Sextet): Byte
    requires 0 <= y < 64
  {
    y % 4 * 64 + z
  }

  function DecodeSextets(s: seq<Sextet>): Option<seq<Byte>>
    decreases |s|
  {
    if s == [] then Some([])
    else if |s| == 1 then None
    else if |s| == 2 then Some([First(s[0], s[1])])
    else if |s| == 3 then Some([First(s[0], s[1]), Second(s[1], s[2])])
    else
      match DecodeSextets(s[4..])
      case None => None
      case Some(rest) => Some([First(s[0], s[1]), Second(s[1], s[2]), Third(s[2], s[3])] + rest)
  }

  function Digits(s: seq<Sextet>, url: bool): string {
    seq(|s|, i requires 0 <= i < |s| => Digit(s[i], url))
  }

  function Values(s: string, url: bool): Option<seq<Sextet>> {
    if s == [] then Some([])
    else
      var first, rest := Value(s[0], url), Values(s[1..], url);
      if first.None? || rest.None? then None else Some([first.value] + rest.value)
  }

  /** `RawURLEncoding.EncodeToString`. */
  function Encode(bytes: seq<Byte>): string {
    Digits(EncodeSextets(bytes), true)
  }

  function WithoutBreaks(s: string): string {
    if s == [] then [] else (if s[0] == '\n' || s[0] == '\r' then [] else [s[0]]) + WithoutBreaks(s[1..])
  }

  /** Takes off the padding that makes the length a multiple of four. */
  function Unpadded(s: string): Option<string> {
    if |s| % 4 != 0 then None
    else if |s| >= 2 && s[|s| - 2..] == "==" then Some(s[..|s| - 2])
    else if |s| >= 1 && s[|s| - 1] == '=' then Some(s[..|s| - 1])
    else Some(s)
  }

  /** `DecodeString`: line breaks are skipped, anything else outside the alphabet is an error. */
  function Decode(s: string, url: bool, padded: bool): Option<seq<Byte>> {
    var t := if padded then Unpadded(WithoutBreaks(s)) else Some(WithoutBreaks(s));
    if t.None? then None
    else
      match Values(t.value, url)
      case None => None
      case Some(v) => DecodeSextets(v)
  }

  lemma {:induction false} SextetsReadBack(bytes: seq<Byte>)
    ensures DecodeSextets(EncodeSextets(bytes)) == Some(bytes)
    decreases |bytes|
  {
    hide First, Second, Third;
    if |bytes| >= 3 {
      SextetsReadBack(bytes[3..]);
      TripleReadsBack(bytes[0], bytes[1], bytes[2]);
      var s := EncodeSextets(bytes);
      assert s[4..] == EncodeSextets(bytes[3..]);
      assert bytes == [bytes[0], bytes[1], bytes[2]] + bytes[3..];
    } else if bytes != [] {
      TripleReadsBack(bytes[0], if |bytes| == 2 then bytes[1] else 0, 0);
      assert bytes == if |bytes| == 1 then [bytes[0]] else [bytes[0], bytes[1]];
    }
  }

  lemma TripleReadsBack(a: Byte, b: Byte, c: Byte)
    ensures var w, x, y, z := a / 4, a % 4 * 16 + b / 16, b % 16 * 4 + c / 64, c % 64;
            First(w, x) == a && Second(x, y) == b && Third(y, z) == c
  {
  }

  lemma {:induction false} DigitsReadBack(s: seq<Sextet>, url: bool)
    ensures Values(Digits(s, url), url) == Some(s) && WithoutBreaks(Digits(s, url)) == Digits(s, url)
  {
    if s != [] {
      var d := Digits(s, url);
      assert d[1..] == Digits(s[1..], url);
      ValueOfDigit(s[0], url);
      DigitsReadBack(s[1..], url);
      assert [s[0]] + s[1..] == s && [d[0]] + d[1..] == d;
    }
  }

  /** Decoding undoes encoding, on all byte strings. */
  lemma DecodeEncode(bytes: seq<Byte>)
    ensures Decode(Encode(bytes), true, false) == Some(bytes)
  {
    DigitsReadBack(EncodeSextets(bytes), true);
    SextetsReadBack(bytes);
  }

  /** The padded form, as mail bodies carry it. */
  function EncodePadded(bytes: seq<Byte>): string {
    Padded(Digits(EncodeSextets(bytes), false))
  }

  function Padded(d: string): string {
    d + if |d| % 4 == 2 then "==" else if |d| % 4 == 3 then "=" else ""
  }

  lemma {:induction false} NoBreaksStay(s: string)
    requires '\n' !in s && '\r' !in s
    ensures WithoutBreaks(s) == s
  {
    if s != [] {
      NoBreaksStay(s[1..]);
    }
  }

  lemma PaddingComesOff(d: string)
    requires '\n' !in d && '\r' !in d && '=' !in d && |d| % 4 != 1
    ensures WithoutBreaks(Padded(d)) == Padded(d) && Unpadded(Padded(d)) == Some(d)
  {
    hide WithoutBreaks, Unpadded;
    NoBreaksStay(Padded(d));
    if |d| % 4 == 2 {
      TwoSigns(d);
    } else if |d| % 4 == 3 {
      OneSign(d);
    } else {
      NoSign(d);
      assert Padded(d) == d;
    }
  }

  lemma TwoSigns(d: string)
    requires |d| % 4 == 2
    ensures Unpadded(d + "==") == Some(d)
  {
    var s := d + "==";
    assert s[|s| - 2..] == "==" && s[..|s| - 2] == d;
  }

  lemma OneSign(d: string)
    requires '=' !in d && |d| % 4 == 3
    ensures Unpadded(d + "=") == Some(d)
  {
    var s := d + "=";
    assert s[|s| - 2..][0] == d[|d| - 1] && s[..|s| - 1] == d;
  }

  lemma NoSign(d: string)
    requires '=' !in d && |d| % 4 == 0
    ensures Unpadded(d) == Some(d)
  {
    assert d != [] ==> d[|d| - 2..][1] == d[|d| - 1];
  }

  /** Decoding undoes padded encoding as well. */
  lemma DecodePadded(bytes: seq<Byte>)
    ensures Decode(EncodePadded(bytes), false, true) == Some(bytes)
  {
    hide EncodeSextets, DecodeSextets, Padded, Unpadded, Digit, Value, Values, WithoutBreaks;
    var d := Digits(EncodeSextets(bytes), false);
    forall i | 0 <= i < |d|
      ensures d[i] != '\n' && d[i] != '\r' && d[i] != '='
    {
      ValueOfDigit(EncodeSextets(bytes)[i], false);
    }
    PaddingComesOff(d);
    DigitsReadBack(EncodeSextets(bytes), false);
    SextetsReadBack(bytes);
  }
}
