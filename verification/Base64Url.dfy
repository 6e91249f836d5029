/** The URL-safe base64 of section 5 of RFC 4648, with the padding taken off and put back. */
module Base64Url {
  import opened Text

  type Byte = b: int | 0 <= b < 256

  type Sextet = v: int | 0 <= v < 64

  const PAD := '='

  function Letter(v: Sextet): char {
    if v < 26 then ('A' as int + v) as char
    else if v < 52 then ('a' as int + v - 26) as char
    else if v < 62 then ('0' as int + v - 52) as char
    else if v == 62 then '-' else '_'
  }

  predicate IsLetter(c: char) {
    'A' <= c <= 'Z' || 'a' <= c <= 'z' || '0' <= c <= '9' || c == '-' || c == '_'
  }

  function ValueOf(c: char): Sextet
    requires IsLetter(c)
  {
    if 'A' <= c <= 'Z' then c as int - 'A' as int
    else if 'a' <= c <= 'z' then c as int - 'a' as int + 26
    else if '0' <= c <= '9' then c as int - '0' as int + 52
    else if c == '-' then 62 else 63
  }

  lemma LetterRoundTrip(v: Sextet)
    ensures IsLetter(Letter(v)) && ValueOf(Letter(v)) == v
  {
  }

  /** The URL-safe alphabet: capitals, small letters and digits in order, then the hyphen and the underscore. */
  lemma AlphabetIs(v: Sextet)
    ensures Letter(0) == 'A' && Letter(25) == 'Z' && Letter(26) == 'a' && Letter(51) == 'z'
    ensures Letter(52) == '0' && Letter(61) == '9' && Letter(62) == '-' && Letter(63) == '_'
    ensures v < 62 && v != 25 && v != 51 && v != 61 ==> Letter(v + 1) as int == Letter(v) as int + 1
  {
  }

  predicate AllLetters(s: string) {
    forall i :: 0 <= i < |s| ==> IsLetter(s[i])
  }

  // The four letters of three bytes.

  function Letter0(x: Byte): Sextet {
    x / 4
  }

  function Letter1(x: Byte, y: Byte): Sextet {
    x % 4 * 16 + y / 16
  }

  function Letter2(y: Byte, z: Byte): Sextet {
    y % 16 * 4 + z / 64
  }

  function Letter3(z: Byte): Sextet {
    z % 64
  }

  /** Groups of three bytes become four letters; a last short group is padded. */
  function Encode(bytes: seq<Byte>): string
    decreases |bytes|
  {
    if bytes == [] then ""
    else if |bytes| == 1 then
      [Letter(Letter0(bytes[0])), Letter(Letter1(bytes[0], 0)), PAD, PAD]
    else if |bytes| == 2 then
      [Letter(Letter0(bytes[0])), Letter(Letter1(bytes[0], bytes[1])), Letter(Letter2(bytes[1], 0)), PAD]
    else
      [Letter(Letter0(bytes[0])), Letter(Letter1(bytes[0], bytes[1])), Letter(Letter2(bytes[1], bytes[2])),
       Letter(Letter3(bytes[2]))] + Encode(bytes[3..])
  }

  /** Leftover low bits of the last letter are ignored; a single leftover letter is an error. */
  function Decode(text: string): Option<seq<Byte>>
    decreases |text|
  {
    if text == "" then Some([])
    else if |text| < 4 || !IsLetter(text[0]) || !IsLetter(text[1]) then None
    else
      var a, b := ValueOf(text[0]), ValueOf(text[1]);
      var first := a * 4 + b / 16;
      if text[2..] == [PAD, PAD] then Some([first])
      else if !IsLetter(text[2]) then None
      else
        var c := ValueOf(text[2]);
        var second := b % 16 * 16 + c / 4;
        if text[3..] == [PAD] then Some([first, second])
        else if !IsLetter(text[3]) then None
        else
          var third := c % 4 * 64 + ValueOf(text[3]);
          match Decode(text[4..])
          case None => None
          case Some(rest) => Some([first, second, third] + rest)
  }

  /** `rstrip(b"=")`. */
  function Strip(text: string): string {
    if text != "" && text[|text| - 1] == PAD then Strip(text[..|text| - 1]) else text
  }

  /** `"=" * (-n % 4)`. */
  function Padding(n: nat): string {
    match n % 4 case 0 => "" case 1 => "===" case 2 => "==" case _ => "="
  }

  lemma ThreeBytes(x: Byte, y: Byte, z: Byte)
    ensures Letter0(x) * 4 + Letter1(x, y) / 16 == x
    ensures Letter1(x, y) % 16 * 16 + Letter2(y, z) / 4 == y
    ensures Letter2(y, z) % 4 * 64 + Letter3(z) == z
  {
  }

  lemma DigitsOf(x: Byte, y: Byte, z: Byte)
    ensures Letter0(x) * 262144 + Letter1(x, y) * 4096 + Letter2(y, z) * 64 + Letter3(z) == x * 65536 + y * 256 + z
    ensures Letter3(0) == 0 && Letter2(0, 0) == 0
  {
  }

  lemma EncodedGroup(x: Byte, y: Byte, z: Byte, rest: seq<Byte>)
    ensures var p, q, r, s := Letter0(x), Letter1(x, y), Letter2(y, z), Letter3(z);
            Encode([x, y, z] + rest) == [Letter(p), Letter(q), Letter(r), Letter(s)] + Encode(rest)
    ensures Encode([x, y]) == [Letter(Letter0(x)), Letter(Letter1(x, y)), Letter(Letter2(y, 0)), '=']
    ensures Encode([x]) == [Letter(Letter0(x)), Letter(Letter1(x, 0)), '=', '=']
  {
    hide Letter, Letter0, Letter1, Letter2, Letter3;
    assert ([x, y, z] + rest)[3..] == rest;
  }

  /** A group of three bytes is one number of 24 bits, and its letters are the digits of that number in base 64, highest
      first; a short last group is filled up with zero bits, and letters that hold none of its bits give way to padding.
  */
  lemma GroupsAre(x: Byte, y: Byte, z: Byte, rest: seq<Byte>) returns (p: Sextet, q: Sextet, r: Sextet, s: Sextet)
    ensures p * 262144 + q * 4096 + r * 64 + s == x * 65536 + y * 256 + z
    ensures Encode([x, y, z] + rest) == [Letter(p), Letter(q), Letter(r), Letter(s)] + Encode(rest)
    ensures z == 0 ==> s == 0 && Encode([x, y]) == [Letter(p), Letter(q), Letter(r), '=']
    ensures y == z == 0 ==> r == s == 0 && Encode([x]) == [Letter(p), Letter(q), '=', '=']
  {
    hide *;
    DigitsOf(x, y, z);
    EncodedGroup(x, y, z, rest);
    p, q, r, s := Letter0(x), Letter1(x, y), Letter2(y, z), Letter3(z);
  }

  lemma DecodesFour(p: Sextet, q: Sextet, r: Sextet, s: Sextet, rest: string)
    ensures Decode([Letter(p), Letter(q), Letter(r), Letter(s)] + rest)
            == match Decode(rest)
               case None => None
               case Some(bytes) => Some([p * 4 + q / 16, q % 16 * 16 + r / 4, r % 4 * 64 + s] + bytes)
  {
    LetterRoundTrip(p);
    LetterRoundTrip(q);
    LetterRoundTrip(r);
    LetterRoundTrip(s);
    hide Letter, ValueOf;
    var text := [Letter(p), Letter(q), Letter(r), Letter(s)] + rest;
    assert text[4..] == rest;
    assert text[2..][0] == Letter(r) && text[3..][0] == Letter(s);
  }

  lemma DecodesTwo(p: Sextet, q: Sextet)
    ensures Decode([Letter(p), Letter(q), PAD, PAD]) == Some([p * 4 + q / 16])
  {
    LetterRoundTrip(p);
    LetterRoundTrip(q);
    hide Letter, ValueOf;
    assert [Letter(p), Letter(q), PAD, PAD][2..] == [PAD, PAD];
  }

  lemma DecodesThree(p: Sextet, q: Sextet, r: Sextet)
    ensures Decode([Letter(p), Letter(q), Letter(r), PAD]) == Some([p * 4 + q / 16, q % 16 * 16 + r / 4])
  {
    LetterRoundTrip(p);
    LetterRoundTrip(q);
    LetterRoundTrip(r);
    hide Letter, ValueOf;
    var text := [Letter(p), Letter(q), Letter(r), PAD];
    assert text[2..][0] == Letter(r) && text[3..] == [PAD];
  }

  lemma {:induction false} EncodeDecodes(bytes: seq<Byte>)
    ensures Decode(Encode(bytes)) == Some(bytes)
    decreases |bytes|
  {
    hide Decode, Letter, Letter0, Letter1, Letter2, Letter3;
    if bytes == [] {
      DecodesNothing();
    } else {
      var x := bytes[0];
      var y: Byte := if |bytes| > 1 then bytes[1] else 0;
      var z: Byte := if |bytes| > 2 then bytes[2] else 0;
      ThreeBytes(x, y, z);
      if |bytes| == 1 {
        DecodesTwo(Letter0(x), Letter1(x, 0));
        assert bytes == [x];
      } else if |bytes| == 2 {
        DecodesThree(Letter0(x), Letter1(x, y), Letter2(y, 0));
        assert bytes == [x, y];
      } else {
        EncodeDecodes(bytes[3..]);
        DecodesFour(Letter0(x), Letter1(x, y), Letter2(y, z), Letter3(z), Encode(bytes[3..]));
        assert bytes == [x, y, z] + bytes[3..];
      }
    }
  }

  lemma DecodesNothing()
    ensures Decode("") == Some([])
  {
  }

  /** What is left after stripping: letters only, of a length that is never 1 modulo 4, and the padding that is put
      back is exactly what was taken off. */
  lemma {:induction false} StripThenPad(bytes: seq<Byte>)
    ensures var bare := Strip(Encode(bytes));
            && AllLetters(bare) && |bare| % 4 != 1 && (bytes != [] ==> bare != "")
            && bare + Padding(|bare|) == Encode(bytes)
    decreases |bytes|
  {
    hide Letter, Letter0, Letter1, Letter2, Letter3, Strip;
    if |bytes| == 0 {
      StripPads();
    } else if |bytes| == 1 {
      StripLast(Letter0(bytes[0]), Letter1(bytes[0], 0), 0);
    } else if |bytes| == 2 {
      StripLast(Letter0(bytes[0]), Letter1(bytes[0], bytes[1]), Letter2(bytes[1], 0));
    } else {
      StripThenPad(bytes[3..]);
      StripGroup(Letter0(bytes[0]), Letter1(bytes[0], bytes[1]), Letter2(bytes[1], bytes[2]), Letter3(bytes[2]),
                 Encode(bytes[3..]));
    }
  }

  lemma StripLast(p: Sextet, q: Sextet, r: Sextet)
    ensures var bare := Strip([Letter(p), Letter(q), PAD, PAD]);
            bare == [Letter(p), Letter(q)] && AllLetters(bare)
            && bare + Padding(|bare|) == [Letter(p), Letter(q), PAD, PAD]
    ensures var bare := Strip([Letter(p), Letter(q), Letter(r), PAD]);
            bare == [Letter(p), Letter(q), Letter(r)] && AllLetters(bare)
            && bare + Padding(|bare|) == [Letter(p), Letter(q), Letter(r), PAD]
  {
    LetterRoundTrip(p);
    LetterRoundTrip(q);
    LetterRoundTrip(r);
    hide Letter;
    var two, three := [Letter(p), Letter(q)], [Letter(p), Letter(q), Letter(r)];
    assert [Letter(p), Letter(q), PAD, PAD] == two + [PAD, PAD];
    assert [Letter(p), Letter(q), Letter(r), PAD] == three + [PAD];
    StripAfter(two, [PAD, PAD]);
    StripAfter(three, [PAD]);
    StripPads();
    assert two + "" == two && three + "" == three;
  }

  lemma StripPads()
    ensures Strip([PAD]) == "" && Strip([PAD, PAD]) == "" && Strip("") == ""
  {
    assert [PAD, PAD][..1] == [PAD] && [PAD][..0] == "";
    assert Strip([PAD]) == Strip("");
  }

  lemma PaddingFour(n: nat)
    ensures Padding(n + 4) == Padding(n) && (n + 4) % 4 == n % 4
  {
  }

  lemma StripGroup(p: Sextet, q: Sextet, r: Sextet, s: Sextet, rest: string)
    requires var bare := Strip(rest); AllLetters(bare) && |bare| % 4 != 1 && bare + Padding(|bare|) == rest
    ensures var text := [Letter(p), Letter(q), Letter(r), Letter(s)] + rest;
            var bare := Strip(text);
            AllLetters(bare) && |bare| % 4 != 1 && bare != "" && bare + Padding(|bare|) == text
  {
    LetterRoundTrip(p);
    LetterRoundTrip(q);
    LetterRoundTrip(r);
    LetterRoundTrip(s);
    PaddingFour(|Strip(rest)|);
    hide Letter, Strip, Padding;
    var four, bare := [Letter(p), Letter(q), Letter(r), Letter(s)], Strip(rest);
    StripAfter(four, rest);
    assert four + bare + Padding(|bare|) == four + rest;
  }

  lemma {:induction false} StripAfter(front: string, rest: string)
    requires front != "" && front[|front| - 1] != PAD
    ensures Strip(front + rest) == front + Strip(rest)
    decreases |rest|
  {
    if rest == "" {
      assert front + rest == front;
    } else {
      var last := |rest| - 1;
      assert (front + rest)[..|front + rest| - 1] == front + rest[..last];
      if rest[last] == PAD {
        StripAfter(front, rest[..last]);
      }
    }
  }

  lemma LetterOf(c: char)
    requires IsLetter(c)
    ensures Letter(ValueOf(c)) == c
  {
  }

  lemma ShortDecodesIff(letters: string)
    requires AllLetters(letters) && |letters| < 4
    ensures Decode(letters + Padding(|letters|)).Some? <==> |letters| != 1
  {
    hide Decode, Letter, ValueOf, IsLetter;
    var text := letters + Padding(|letters|);
    if |letters| == 0 {
      DecodesNothing();
    } else if |letters| == 1 {
      LoneLetter(text);
    } else {
      LetterOf(letters[0]);
      LetterOf(letters[1]);
      var p, q := ValueOf(letters[0]), ValueOf(letters[1]);
      if |letters| == 2 {
        DecodesTwo(p, q);
        assert text == [Letter(p), Letter(q), PAD, PAD];
      } else {
        LetterOf(letters[2]);
        DecodesThree(p, q, ValueOf(letters[2]));
        assert text == [Letter(p), Letter(q), Letter(ValueOf(letters[2])), PAD];
      }
    }
  }

  lemma LoneLetter(text: string)
    requires |text| == 4 && text[1] == PAD
    ensures Decode(text) == None
  {
    hide ValueOf;
  }

  /** Letters decode exactly when their number is not 1 modulo 4. */
  lemma {:induction false} DecodesIff(letters: string)
    requires AllLetters(letters)
    ensures Decode(letters + Padding(|letters|)).Some? <==> |letters| % 4 != 1
    decreases |letters|
  {
    hide Decode, Letter, ValueOf;
    if |letters| < 4 {
      ShortDecodesIff(letters);
    } else {
      var rest := letters[4..];
      DecodesIff(rest);
      PaddingFour(|rest|);
      hide Padding;
      LetterOf(letters[0]);
      LetterOf(letters[1]);
      LetterOf(letters[2]);
      LetterOf(letters[3]);
      DecodesFour(ValueOf(letters[0]), ValueOf(letters[1]), ValueOf(letters[2]), ValueOf(letters[3]),
                  rest + Padding(|rest|));
      assert letters + Padding(|letters|) == letters[..4] + (rest + Padding(|rest|));
      assert letters[..4] == [letters[0], letters[1], letters[2], letters[3]];
    }
  }
}
