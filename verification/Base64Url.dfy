/** Base64url as in section 5 of RFC 4648, with the padding stripped and restored as section 3.2
    of RFC 4648 allows. */
module Base64Url {
  import opened Prelude

  type Byte = b: int | 0 <= b < 256

  function Symbol(digit: int): (c: char)
    requires 0 <= digit < 64
    ensures c != '=' && c != '.' && c != ':' && c as int < 128
    ensures Digit(c) == Some(digit)
  {
    if digit < 26 then (65 + digit) as char
    else if digit < 52 then (97 + digit - 26) as char
    else if digit < 62 then (48 + digit - 52) as char
    else if digit == 62 then '-'
    else '_'
  }

  // The decoder also knows the standard alphabet's '+' and '/'.
  function Digit(c: char): (digit: Option<int>)
    ensures digit.Some? ==> 0 <= digit.value < 64 && c != '='
  {
    var code := c as int;
    if 65 <= code < 91 then Some(code - 65)
    else if 97 <= code < 123 then Some(code - 97 + 26)
    else if 48 <= code < 58 then Some(code - 48 + 52)
    else if c == '-' || c == '+' then Some(62)
    else if c == '_' || c == '/' then Some(63)
    else None
  }

  // urlsafe_b64encode: every three bytes become four symbols, the rest is padded with '='.
  function EncodePadded(bytes: seq<Byte>): string {
    if |bytes| == 0 then ""
    else if |bytes| == 1 then
      [Symbol(bytes[0] / 4), Symbol(bytes[0] % 4 * 16), '=', '=']
    else if |bytes| == 2 then
      [Symbol(bytes[0] / 4), Symbol(bytes[0] % 4 * 16 + bytes[1] / 16), Symbol(bytes[1] % 16 * 4), '=']
    else
      [Symbol(bytes[0] / 4), Symbol(bytes[0] % 4 * 16 + bytes[1] / 16),
       Symbol(bytes[1] % 16 * 4 + bytes[2] / 64), Symbol(bytes[2] % 64)]
      + EncodePadded(bytes[3..])
  }

  // rstrip("=")
  function StripPadding(s: string): string {
    if s != "" && s[|s| - 1] == '=' then StripPadding(s[..|s| - 1]) else s
  }

  // value + "=" * (-len(value) % 4)
  function WithPadding(s: string): string {
    s + (match |s| % 4 case 0 => "" case 1 => "===" case 2 => "==" case _ => "=")
  }

  function Encode(bytes: seq<Byte>): string {
    StripPadding(EncodePadded(bytes))
  }

  type Sextet = d: int | 0 <= d < 64

  // The bytes of a group that padding cut short.
  function ShortGroup(quad: seq<Sextet>): seq<Byte>
    requires 2 <= |quad| < 4
  {
    var first: Byte := quad[0] as int * 4 + quad[1] as int / 16;
    if |quad| == 2 then [first]
    else
      var second: Byte := quad[1] as int % 16 * 16 + quad[2] as int / 4;
      [first, second]
  }

  // a2b_base64 as it runs without strict mode: characters outside the alphabet are skipped, the
  // padding that completes a group ends the input, and an unfinished group at the end fails.
  function Scan(s: string, quad: seq<Sextet>, pads: nat): Option<seq<Byte>>
    requires |quad| < 4
    decreases |s|
  {
    if s == "" then
      if quad == [] then Some([]) else None
    else if s[0] == '=' then
      if |quad| < 2 then Scan(s[1..], quad, pads)
      else if |quad| + pads + 1 >= 4 then Some(ShortGroup(quad))
      else Scan(s[1..], quad, pads + 1)
    else
      match Digit(s[0])
      case None => Scan(s[1..], quad, pads)
      case Some(d) =>
        if |quad| < 3 then Scan(s[1..], quad + [d], 0)
        else
          match Scan(s[1..], [], 0)
          case None => None
          case Some(rest) =>
            Some([quad[0] * 4 + quad[1] / 16, quad[1] % 16 * 16 + quad[2] / 4, quad[2] % 4 * 64 + d] + rest)
  }

  predicate IsAscii(s: string) {
    s == "" || (s[|s| - 1] as int < 128 && IsAscii(s[..|s| - 1]))
  }

  lemma {:induction false} PlainIsAscii(s: string)
    requires Plain(s)
    ensures IsAscii(s)
  {
    if s != "" {
      var front := s[..|s| - 1];
      assert s[|s| - 1] in s;
      assert forall c | c in front :: c in s;
      PlainIsAscii(front);
    }
  }

  // Text that is not ASCII cannot be turned into the decoder's input bytes.
  function Decode(s: string): Option<seq<Byte>> {
    if !IsAscii(s) then None else Scan(WithPadding(s), [], 0)
  }

  predicate Plain(s: string) {
    forall c <- s :: c != '=' && c != '.' && c != ':' && c as int < 128
  }

  // The unpadded symbols, written directly.
  function Symbols(bytes: seq<Byte>): (s: string)
    ensures Plain(s)
  {
    if |bytes| == 0 then ""
    else if |bytes| == 1 then [Symbol(bytes[0] / 4), Symbol(bytes[0] % 4 * 16)]
    else if |bytes| == 2 then
      [Symbol(bytes[0] / 4), Symbol(bytes[0] % 4 * 16 + bytes[1] / 16), Symbol(bytes[1] % 16 * 4)]
    else
      [Symbol(bytes[0] / 4), Symbol(bytes[0] % 4 * 16 + bytes[1] / 16),
       Symbol(bytes[1] % 16 * 4 + bytes[2] / 64), Symbol(bytes[2] % 64)]
      + Symbols(bytes[3..])
  }

  lemma {:induction false} StripRemovesOnlyPadding(s: string, padding: string)
    requires Plain(s) && forall i | 0 <= i < |padding| :: padding[i] == '='
    ensures StripPadding(s + padding) == s
    decreases |padding|
  {
    if padding == "" {
      assert s + padding == s;
      assert s != "" ==> s[|s| - 1] in s;
    } else {
      assert (s + padding)[..|s + padding| - 1] == s + padding[..|padding| - 1];
      StripRemovesOnlyPadding(s, padding[..|padding| - 1]);
    }
  }

  lemma {:induction false} PaddingOfLonger(head: string, s: string)
    requires |head| == 4
    ensures WithPadding(head + s) == head + WithPadding(s)
  {
    assert |head + s| % 4 == |s| % 4;
  }

  // What `WithPadding` restores is exactly what the encoder had written.
  lemma {:induction false} PaddingIsRestored(bytes: seq<Byte>)
    ensures EncodePadded(bytes) == WithPadding(Symbols(bytes))
  {
    if |bytes| >= 3 {
      PaddingIsRestored(bytes[3..]);
      PaddingOfLonger([Symbol(bytes[0] / 4), Symbol(bytes[0] % 4 * 16 + bytes[1] / 16),
                       Symbol(bytes[1] % 16 * 4 + bytes[2] / 64), Symbol(bytes[2] % 64)], Symbols(bytes[3..]));
    }
  }

  lemma {:induction false} EncodeIsPlain(bytes: seq<Byte>)
    ensures Encode(bytes) == Symbols(bytes) && Plain(Encode(bytes))
  {
    PaddingIsRestored(bytes);
    var s := Symbols(bytes);
    StripRemovesOnlyPadding(s, WithPadding(s)[|s|..]);
    assert WithPadding(s) == s + WithPadding(s)[|s|..];
  }

  lemma {:induction false} ThreeBytes(x: Byte, y: Byte, z: Byte)
    ensures var (a, b, c, d) := (x / 4, x % 4 * 16 + y / 16, y % 16 * 4 + z / 64, z % 64);
            && 0 <= a < 64 && 0 <= b < 64 && 0 <= c < 64 && 0 <= d < 64
            && a * 4 + b / 16 == x && b % 16 * 16 + c / 4 == y && c % 4 * 64 + d == z
  {}

  // A full group of four symbols contributes its three bytes and nothing else.
  lemma {:induction false} GroupDecodes(x: Byte, y: Byte, z: Byte, rest: string)
    requires Scan(rest, [], 0).Some?
    ensures Scan([Symbol(x / 4), Symbol(x % 4 * 16 + y / 16), Symbol(y % 16 * 4 + z / 64), Symbol(z % 64)] + rest,
                 [], 0)
            == Some([x, y, z] + Scan(rest, [], 0).value)
  {
    ThreeBytes(x, y, z);
    var a: Sextet, b: Sextet, c: Sextet, d: Sextet := x / 4, x % 4 * 16 + y / 16, y % 16 * 4 + z / 64, z % 64;
    SymbolIsRead(d, rest, [a, b, c]);
    SymbolIsRead(c, [Symbol(d)] + rest, [a, b]);
    SymbolIsRead(b, [Symbol(c), Symbol(d)] + rest, [a]);
    SymbolIsRead(a, [Symbol(b), Symbol(c), Symbol(d)] + rest, []);
    assert [Symbol(a)] + ([Symbol(b), Symbol(c), Symbol(d)] + rest)
        == [Symbol(a), Symbol(b), Symbol(c), Symbol(d)] + rest;
    assert [Symbol(b)] + ([Symbol(c), Symbol(d)] + rest) == [Symbol(b), Symbol(c), Symbol(d)] + rest;
    assert [Symbol(c)] + ([Symbol(d)] + rest) == [Symbol(c), Symbol(d)] + rest;
    assert [a] + [b] == [a, b] && [a, b] + [c] == [a, b, c];
    assert [] + [a] == [a];
  }

  lemma {:induction false} SymbolIsRead(d: Sextet, rest: string, quad: seq<Sextet>)
    requires |quad| < 4
    ensures |quad| < 3 ==> Scan([Symbol(d)] + rest, quad, 0) == Scan(rest, quad + [d], 0)
    ensures |quad| == 3 && Scan(rest, [], 0).Some? ==>
              Scan([Symbol(d)] + rest, quad, 0)
              == Some([quad[0] * 4 + quad[1] / 16, quad[1] % 16 * 16 + quad[2] / 4, quad[2] % 4 * 64 + d]
                      + Scan(rest, [], 0).value)
  {
    assert ([Symbol(d)] + rest)[1..] == rest;
  }

  lemma {:induction false} PaddedRoundTrip(bytes: seq<Byte>)
    ensures Scan(EncodePadded(bytes), [], 0) == Some(bytes)
  {
    if |bytes| >= 3 {
      PaddedRoundTrip(bytes[3..]);
      GroupDecodes(bytes[0], bytes[1], bytes[2], EncodePadded(bytes[3..]));
      assert bytes == [bytes[0], bytes[1], bytes[2]] + bytes[3..];
    } else if |bytes| == 2 {
      TwoBytesDecode(bytes[0], bytes[1]);
      assert bytes == [bytes[0], bytes[1]];
    } else if |bytes| == 1 {
      OneByteDecodes(bytes[0]);
      assert bytes == [bytes[0]];
    }
  }

  lemma {:induction false} TwoBytesDecode(x: Byte, y: Byte)
    ensures Scan(EncodePadded([x, y]), [], 0) == Some([x, y])
  {
    ThreeBytes(x, y, 0);
    var a: Sextet, b: Sextet, c: Sextet := x / 4, x % 4 * 16 + y / 16, y % 16 * 4;
    SymbolIsRead(a, [Symbol(b), Symbol(c), '='], []);
    SymbolIsRead(b, [Symbol(c), '='], [a]);
    SymbolIsRead(c, "=", [a, b]);
    assert Scan("=", [a, b, c], 0) == Some(ShortGroup([a, b, c]));
    assert [Symbol(a)] + [Symbol(b), Symbol(c), '='] == EncodePadded([x, y]);
    assert [Symbol(b)] + [Symbol(c), '='] == [Symbol(b), Symbol(c), '='];
    assert [Symbol(c)] + "=" == [Symbol(c), '='];
    assert [] + [a] == [a] && [a] + [b] == [a, b] && [a, b] + [c] == [a, b, c];
  }

  lemma {:induction false} OneByteDecodes(x: Byte)
    ensures Scan(EncodePadded([x]), [], 0) == Some([x])
  {
    ThreeBytes(x, 0, 0);
    var a: Sextet, b: Sextet := x / 4, x % 4 * 16;
    SymbolIsRead(a, [Symbol(b), '=', '='], []);
    SymbolIsRead(b, "==", [a]);
    assert [Symbol(a)] + [Symbol(b), '=', '='] == EncodePadded([x]);
    assert [Symbol(b)] + "==" == [Symbol(b), '=', '='];
    assert [] + [a] == [a] && [a] + [b] == [a, b];
    assert "=="[1..] == "=";
    assert Scan("=", [a, b], 1) == Some(ShortGroup([a, b]));
    assert Scan("==", [a, b], 0) == Some(ShortGroup([a, b]));
  }

  // Stripping the padding loses nothing, for every byte string.
  lemma {:induction false} RoundTrip(bytes: seq<Byte>)
    ensures Decode(Encode(bytes)) == Some(bytes)
  {
    EncodeIsPlain(bytes);
    PlainIsAscii(Encode(bytes));
    PaddingIsRestored(bytes);
    PaddedRoundTrip(bytes);
  }

  lemma {:induction false} AsciiIsPlain(s: string)
    ensures IsAscii(s) <==> forall i | 0 <= i < |s| :: s[i] as int < 128
  {
    if s != "" {
      var n := |s| - 1;
      AsciiIsPlain(s[..n]);
      assert forall i | 0 <= i < n :: s[..n][i] == s[i];
    }
  }

  // Text with a character beyond ASCII is refused whole.
  lemma {:induction false} OnlyAsciiDecodes(s: string, i: nat)
    requires i < |s| && s[i] as int >= 128
    ensures Decode(s).None?
  {
    AsciiIsPlain(s);
  }

  // ---- What else the decoder takes --------------------------------------------------------------

  // Table 2 of RFC 4648: letters, digits, minus and underscore.
  ghost predicate IsEntry(digit: int, c: char) {
    || ('A' <= c <= 'Z' && digit == c as int - 'A' as int)
    || ('a' <= c <= 'z' && digit == c as int - 'a' as int + 26)
    || ('0' <= c <= '9' && digit == c as int - '0' as int + 52)
    || (c == '-' && digit == 62) || (c == '_' && digit == 63)
  }

  // The encoder writes the URL-safe alphabet; the decoder reads the standard one too.
  lemma {:induction false} AlphabetIsUrlSafe(digit: Sextet, c: char)
    ensures c == Symbol(digit) <==> IsEntry(digit, c)
    ensures Digit(c) == Some(digit as int)
       <==> IsEntry(digit, c) || (c == '+' && digit == 62) || (c == '/' && digit == 63)
  {}

  // The characters the decoder looks at.
  ghost function Meaningful(s: string): string {
    if s == "" then ""
    else (if s[0] == '=' || Digit(s[0]).Some? then [s[0]] else "") + Meaningful(s[1..])
  }

  // Every other character is skipped, wherever it stands.
  lemma {:induction false} OthersAreSkipped(s: string, quad: seq<Sextet>, pads: nat)
    requires |quad| < 4
    ensures Scan(s, quad, pads) == Scan(Meaningful(s), quad, pads)
    decreases |s|
  {
    if s != "" {
      var first := if s[0] == '=' || Digit(s[0]).Some? then [s[0]] else "";
      assert (first + Meaningful(s[1..]))[|first|..] == Meaningful(s[1..]);
      if s[0] == '=' {
        OthersAreSkipped(s[1..], quad, pads);
        OthersAreSkipped(s[1..], quad, pads + 1);
      } else {
        match Digit(s[0])
        case None => OthersAreSkipped(s[1..], quad, pads);
        case Some(d) =>
          if |quad| < 3 {
            OthersAreSkipped(s[1..], quad + [d], 0);
          } else {
            OthersAreSkipped(s[1..], [], 0);
          }
      }
    }
  }

  // Symbols alone decode exactly if they fill their groups of four, three bytes to a group.
  lemma {:induction false} OnlyFullGroupsDecode(s: string, quad: seq<Sextet>)
    requires |quad| < 4 && forall c <- s :: Digit(c).Some?
    ensures Scan(s, quad, 0).Some? <==> (|quad| + |s|) % 4 == 0
    ensures Scan(s, quad, 0).Some? ==> |Scan(s, quad, 0).value| * 4 == (|quad| + |s|) * 3
    decreases |s|
  {
    if s != "" {
      assert s[0] in s;
      assert forall c <- s[1..] :: c in s;
      OnlyFullGroupsDecode(s[1..], if |quad| < 3 then quad + [Digit(s[0]).value] else []);
    }
  }

  // The padding that completes a group ends the input: what follows is not read.
  lemma {:induction false} PaddingEndsTheInput(quad: seq<Sextet>, rest: string)
    requires 2 <= |quad| < 4
    ensures Scan((if |quad| == 2 then "==" else "=") + rest, quad, 0) == Some(ShortGroup(quad))
    ensures |quad| == 2 ==> ShortGroup(quad) == [(quad[0] as int * 64 + quad[1] as int) / 16]
    ensures |quad| == 3 ==>
              ShortGroup(quad)
              == [(quad[0] as int * 64 + quad[1] as int) / 16,
                  (quad[1] as int * 64 + quad[2] as int) / 4 % 256]
  {
    assert |quad| == 2 ==> ("==" + rest)[1..] == "=" + rest;
  }
}
