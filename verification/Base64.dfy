// Base64 as the etcd backend writes keys and values (section 4 of RFC 4648) and the discovery reads
// them back, and the escaping of JSON strings around it.
module Base64 {
  import opened Common

  type Sextet = n: int | 0 <= n < 64

  const UPPER := "ABCDEFGHIJKLMNOPQRSTUVWXYZ"
  const LOWER := "abcdefghijklmnopqrstuvwxyz"
  const OTHERS := "0123456789+/"

  // ----- the encoder -----

  function Letter(n: Sextet): char {
    if n < 26 then 'A' + n as char
    else if n < 52 then 'a' + (n - 26) as char
    else if n < 62 then '0' + (n - 52) as char
    else if n == 62 then '+' else '/'
  }

  // Three bytes as four letters: the six-bit pieces of the 24 bits, highest first.
  function Group(a: Byte, b: Byte, c: Byte): string {
    [Letter(a / 4), Letter((a % 4) * 16 + b / 16), Letter((b % 16) * 4 + c / 64), Letter(c % 64)]
  }

  function Encode(value: seq<Byte>): string {
    match |value|
    case 0 => ""
    case 1 => Group(value[0], 0, 0)[..2] + "=="
    case 2 => Group(value[0], value[1], 0)[..3] + "="
    case _ => Group(value[0], value[1], value[2]) + Encode(value[3..])
  }

  method Base64Encode(value: seq<Byte>) returns (encoded: string)
    ensures encoded == Encode(value)
  {
    encoded := "";
    var index := 0;
    while index + 3 <= |value|
      invariant index <= |value|
      invariant encoded + Encode(value[index..]) == Encode(value)
    {
      var group := EncodeGroup(value[index], value[index + 1], value[index + 2]);
      GroupFirst(value[index..]);
      assert value[index..][3..] == value[index + 3..];
      encoded := encoded + group;
      index := index + 3;
    }
    var tail := EncodeTail(value[index..]);
    encoded := encoded + tail;
  }

  method EncodeGroup(a: Byte, b: Byte, c: Byte) returns (group: string)
    ensures group == Group(a, b, c)
  {
    group := [Letter(a / 4)];
    group := group + [Letter((a % 4) * 16 + b / 16)];
    group := group + [Letter((b % 16) * 4 + c / 64)];
    group := group + [Letter(c % 64)];
  }

  method EncodeTail(rest: seq<Byte>) returns (tail: string)
    requires |rest| < 3
    ensures tail == Encode(rest)
  {
    tail := "";
    if |rest| == 1 {
      var a := rest[0];
      tail := [Letter(a / 4), Letter((a % 4) * 16), '=', '='];
    } else if |rest| == 2 {
      var a, b := rest[0], rest[1];
      tail := [Letter(a / 4), Letter((a % 4) * 16 + b / 16), Letter((b % 16) * 4), '='];
    }
  }

  lemma GroupFirst(value: seq<Byte>)
    requires |value| >= 3
    ensures Encode(value) == Group(value[0], value[1], value[2]) + Encode(value[3..])
  {
  }

  // ----- the decoder -----

  function Decoded(c: char): int {
    if 'A' <= c <= 'Z' then c as int - 'A' as int
    else if 'a' <= c <= 'z' then c as int - 'a' as int + 26
    else if '0' <= c <= '9' then c as int - '0' as int + 52
    else if c == '+' then 62
    else if c == '/' then 63
    else -1
  }

  // The value a 32-bit int keeps of n.
  function Int32(n: int): int {
    (n + 0x8000_0000) % 0x1_0000_0000 - 0x8000_0000
  }

  // Eight bits of val from bit position at on.
  function BitsFrom(val: int, at: nat): Byte {
    (val / Pow2(at)) % 256
  }

  // What is decoded from the rest of the text once val has been accumulated and valb counts its bits.
  function DecodeFrom(text: string, val: int, valb: int): seq<Byte> {
    if text == "" || text[0] == '=' then []
    else
      var d := Decoded(text[0]);
      if d == -1 then DecodeFrom(text[1..], val, valb)
      else
        var val', valb' := Int32(val * 64 + d), valb + 6;
        if valb' >= 0 then [BitsFrom(val', valb')] + DecodeFrom(text[1..], val', valb' - 8)
        else DecodeFrom(text[1..], val', valb')
  }

  function Decode(text: string): seq<Byte> {
    DecodeFrom(text, 0, -8)
  }

  method Base64Decode(encoded: string) returns (decoded: seq<Byte>)
    ensures decoded == Decode(encoded)
  {
    decoded := [];
    var val, valb := 0, -8;
    for i := 0 to |encoded|
      invariant decoded + DecodeFrom(encoded[i..], val, valb) == Decode(encoded)
    {
      var ch := encoded[i];
      assert encoded[i..][1..] == encoded[i + 1..];
      if ch == '=' {
        break;
      }
      var d := Decoded(ch);
      if d == -1 {
        continue;
      }
      val := Int32(val * 64 + d);
      valb := valb + 6;
      if valb >= 0 {
        decoded := decoded + [BitsFrom(val, valb)];
        valb := valb - 8;
      }
    }
  }

  // ----- the round trip -----

  // The letters are those of the alphabet's text, in its order.
  lemma LettersOfAlphabet(n: Sextet)
    ensures Letter(n) == (UPPER + LOWER + OTHERS)[n]
  {
    assert seq(26, i requires 0 <= i < 26 => 'A' + i as char) == UPPER;
    assert seq(26, i requires 0 <= i < 26 => 'a' + i as char) == LOWER;
    assert seq(10, i requires 0 <= i < 10 => '0' + i as char) == OTHERS[..10];
  }

  lemma LettersDecode(n: Sextet)
    ensures Decoded(Letter(n)) == n && Letter(n) != '='
  {
  }

  // The low twelve bits survive the wrap-around, and no byte that is taken reaches beyond them.
  lemma WrapKeepsLowBits(n: int, at: nat)
    requires at == 0 || at == 2 || at == 4
    ensures BitsFrom(Int32(n), at) == BitsFrom(n, at)
  {
    var q, m := (n + 0x8000_0000) / 0x1_0000_0000, Int32(n);
    assert n == q * 0x1_0000_0000 + m;
    assert Pow2(0) == 1 && Pow2(2) == 4 && Pow2(4) == 16;
    if at == 0 {
      WholeBytes(m, q * 0x100_0000);
    } else if at == 2 {
      assert n / 4 == m / 4 + q * 0x4000_0000;
      WholeBytes(m / 4, q * 0x40_0000);
    } else {
      assert n / 16 == m / 16 + q * 0x1000_0000;
      WholeBytes(m / 16, q * 0x10_0000);
    }
  }

  lemma WholeBytes(n: int, k: int)
    ensures (n + 256 * k) % 256 == n % 256
  {
  }

  // ----- one letter at a time -----

  // A letter that completes no byte, and one that completes a byte.
  lemma ReadLetter(n: Sextet, rest: string, val: int, valb: int)
    ensures var val' := Int32(val * 64 + n);
            DecodeFrom([Letter(n)] + rest, val, valb) ==
            if valb + 6 >= 0 then [BitsFrom(val', valb + 6)] + DecodeFrom(rest, val', valb - 2)
            else DecodeFrom(rest, val', valb + 6)
  {
    LettersDecode(n);
    assert ([Letter(n)] + rest)[1..] == rest;
  }

  // The accumulator's low bits are those of the letters read last.
  lemma LowBits(val: int, n: Sextet)
    ensures Int32(val * 64 + n) % 64 == n
  {
    var x := val * 64 + n;
    var q := (x + 0x8000_0000) / 0x1_0000_0000;
    assert Int32(x) == 64 * (val - q * 0x400_0000) + n;
  }

  // The byte completed by letter t after s, in a value that ends with both.
  lemma FirstByte(high: int, s: Sextet, t: Sextet)
    requires high % 64 == s
    ensures BitsFrom(high * 64 + t, 4) == s * 4 + t / 16
  {
    assert Pow2(4) == 16;
    var a := high / 64;
    assert (high * 64 + t) / 16 == high * 4 + t / 16;
    WholeBytes(s * 4 + t / 16, a);
  }

  lemma SecondByte(high: int, t: Sextet, u: Sextet)
    requires high % 64 == t
    ensures BitsFrom(high * 64 + u, 2) == (t % 16) * 16 + u / 4
  {
    assert Pow2(2) == 4;
    var a := high / 64;
    assert (high * 64 + u) / 4 == high * 16 + u / 4;
    assert t == 16 * (t / 16) + t % 16;
    WholeBytes((t % 16) * 16 + u / 4, 4 * a + t / 16);
  }

  lemma ThirdByte(high: int, u: Sextet, v: Sextet)
    requires high % 64 == u
    ensures BitsFrom(high * 64 + v, 0) == (u % 4) * 64 + v
  {
    assert Pow2(0) == 1;
    var a := high / 64;
    assert u == 4 * (u / 4) + u % 4;
    WholeBytes((u % 4) * 64 + v, 16 * a + u / 4);
  }

  // Two letters give one byte and leave the second letter in the low bits.
  lemma ReadTwo(s: Sextet, t: Sextet, rest: string, val: int) returns (val': int)
    ensures val' % 64 == t
    ensures DecodeFrom([Letter(s)] + ([Letter(t)] + rest), val, -8) == [s * 4 + t / 16] + DecodeFrom(rest, val', -4)
  {
    var v1 := Int32(val * 64 + s);
    val' := Int32(v1 * 64 + t);
    ReadLetter(s, [Letter(t)] + rest, val, -8);
    ReadLetter(t, rest, v1, -2);
    LowBits(val, s);
    LowBits(v1, t);
    WrapKeepsLowBits(v1 * 64 + t, 4);
    FirstByte(v1, s, t);
  }

  // One more letter gives a second byte.
  lemma ReadThird(t: Sextet, u: Sextet, rest: string, val: int) returns (val': int)
    requires val % 64 == t
    ensures val' % 64 == u
    ensures DecodeFrom([Letter(u)] + rest, val, -4) == [(t % 16) * 16 + u / 4] + DecodeFrom(rest, val', -6)
  {
    val' := Int32(val * 64 + u);
    ReadLetter(u, rest, val, -4);
    LowBits(val, u);
    WrapKeepsLowBits(val * 64 + u, 2);
    SecondByte(val, t, u);
  }

  lemma ReadFourth(u: Sextet, v: Sextet, rest: string, val: int) returns (val': int)
    requires val % 64 == u
    ensures DecodeFrom([Letter(v)] + rest, val, -6) == [(u % 4) * 64 + v] + DecodeFrom(rest, val', -8)
  {
    val' := Int32(val * 64 + v);
    ReadLetter(v, rest, val, -6);
    WrapKeepsLowBits(val * 64 + v, 0);
    ThirdByte(val, u, v);
  }

  // Four letters give three bytes.
  lemma ReadFour(s: Sextet, t: Sextet, u: Sextet, v: Sextet, rest: string, val: int) returns (val': int)
    ensures DecodeFrom([Letter(s)] + ([Letter(t)] + ([Letter(u)] + ([Letter(v)] + rest))), val, -8) ==
            [s * 4 + t / 16] + ([(t % 16) * 16 + u / 4] + ([(u % 4) * 64 + v] + DecodeFrom(rest, val', -8)))
  {
    var v2 := ReadTwo(s, t, [Letter(u)] + ([Letter(v)] + rest), val);
    var v3 := ReadThird(t, u, [Letter(v)] + rest, v2);
    val' := ReadFourth(u, v, rest, v3);
  }

  lemma GroupLetters(a: Byte, b: Byte, c: Byte, rest: string)
    ensures Group(a, b, c) + rest ==
            [Letter(a / 4)] + ([Letter((a % 4) * 16 + b / 16)] +
                               ([Letter((b % 16) * 4 + c / 64)] + ([Letter(c % 64)] + rest)))
  {
  }

  lemma DecodeGroup(a: Byte, b: Byte, c: Byte, rest: string, val: int) returns (val': int)
    ensures DecodeFrom(Group(a, b, c) + rest, val, -8) == [a, b, c] + DecodeFrom(rest, val', -8)
  {
    GroupLetters(a, b, c, rest);
    val' := ReadFour(a / 4, (a % 4) * 16 + b / 16, (b % 16) * 4 + c / 64, c % 64, rest, val);
    Pieces(a, b, c);
    ThreeBytes(a, b, c, DecodeFrom(rest, val', -8));
  }

  lemma ThreeBytes(a: Byte, b: Byte, c: Byte, rest: seq<Byte>)
    ensures [a] + ([b] + ([c] + rest)) == [a, b, c] + rest
  {
  }

  // The six-bit pieces put together again.
  lemma Pieces(a: Byte, b: Byte, c: Byte)
    ensures var s, t, u, v := a / 4, (a % 4) * 16 + b / 16, (b % 16) * 4 + c / 64, c % 64;
            s * 4 + t / 16 == a && (t % 16) * 16 + u / 4 == b && (u % 4) * 64 + v == c
  {
  }

  // Decoding gives back every byte string, from whatever an accumulator that wraps around has left.
  lemma {:induction false} DecodeEncodedFrom(value: seq<Byte>, val: int)
    ensures DecodeFrom(Encode(value), val, -8) == value
  {
    if |value| >= 3 {
      GroupFirst(value);
      var val' := DecodeGroup(value[0], value[1], value[2], Encode(value[3..]), val);
      DecodeEncodedFrom(value[3..], val');
    } else if |value| == 2 {
      DecodeTwoBytes(value[0], value[1], val);
      assert value == [value[0], value[1]];
    } else if |value| == 1 {
      DecodeOneByte(value[0], val);
      assert value == [value[0]];
    }
  }

  lemma DecodeOneByte(a: Byte, val: int)
    ensures DecodeFrom(Encode([a]), val, -8) == [a]
  {
    assert Encode([a]) == [Letter(a / 4)] + ([Letter((a % 4) * 16)] + "==");
    var _ := ReadTwo(a / 4, (a % 4) * 16, "==", val);
  }

  lemma DecodeTwoBytes(a: Byte, b: Byte, val: int)
    ensures DecodeFrom(Encode([a, b]), val, -8) == [a, b]
  {
    var s: Sextet, t: Sextet, u: Sextet := a / 4, (a % 4) * 16 + b / 16, (b % 16) * 4;
    assert Encode([a, b]) == [Letter(s)] + ([Letter(t)] + ([Letter(u)] + "="));
    var v2 := ReadTwo(s, t, [Letter(u)] + "=", val);
    var _ := ReadThird(t, u, "=", v2);
    Pieces(a, b, 0);
  }

  // The round trip, on all byte strings of any length.
  lemma DecodeInvertsEncode(value: seq<Byte>)
    ensures Decode(Encode(value)) == value
  {
    DecodeEncodedFrom(value, 0);
  }

  lemma {:induction false} EncodedLength(value: seq<Byte>)
    ensures |Encode(value)| == 4 * ((|value| + 2) / 3)
  {
    if |value| >= 3 {
      EncodedLength(value[3..]);
    }
  }

  // The padding fills the last group of four: two signs after one byte, one after two, and none otherwise.
  // In front of it there are as many letters as the bits need, and nothing but letters.
  lemma {:induction false} PaddingIsExact(value: seq<Byte>)
    ensures |Letters(Encode(value))| == (8 * |value| + 5) / 6
    ensures Encode(value) == Letters(Encode(value)) + Padding(|value|)
  {
    if |value| >= 3 {
      PaddingIsExact(value[3..]);
      GroupFirst(value);
      PaddingAfterGroup(value[0], value[1], value[2], Encode(value[3..]), |value|);
    } else {
      PaddingOfTail(value);
    }
  }

  function Padding(length: nat): string {
    match length % 3
    case 0 => ""
    case 1 => "=="
    case _ => "="
  }

  lemma PaddingAfterGroup(a: Byte, b: Byte, c: Byte, rest: string, length: nat)
    requires 3 <= length && rest == Letters(rest) + Padding(length - 3)
    ensures var all := Group(a, b, c) + rest;
            all == Letters(all) + Padding(length) && |Letters(all)| == 4 + |Letters(rest)|
  {
    LettersOfGroup(a, b, c, rest);
    assert (length - 3) % 3 == length % 3;
    Regroup(Group(a, b, c), Letters(rest), Padding(length));
  }

  lemma PaddingOfTail(value: seq<Byte>)
    requires |value| < 3
    ensures |Letters(Encode(value))| == (8 * |value| + 5) / 6
    ensures Encode(value) == Letters(Encode(value)) + Padding(|value|)
  {
    if |value| == 2 {
      LettersOfGroup(value[0], value[1], 0, "");
      LettersOfLetters(Group(value[0], value[1], 0)[..3], "=");
    } else if |value| == 1 {
      LettersOfGroup(value[0], 0, 0, "");
      LettersOfLetters(Group(value[0], 0, 0)[..2], "==");
    }
  }

  lemma Regroup(a: string, b: string, c: string)
    ensures a + b + c == a + (b + c)
  {
  }

  lemma LettersOfGroup(a: Byte, b: Byte, c: Byte, rest: string)
    ensures forall i :: 0 <= i < 4 ==> Decoded(Group(a, b, c)[i]) != -1 && Group(a, b, c)[i] != '='
    ensures Letters(Group(a, b, c) + rest) == Group(a, b, c) + Letters(rest)
  {
    forall n: Sextet
      ensures Decoded(Letter(n)) != -1 && Letter(n) != '='
    {
      LettersDecode(n);
    }
    LettersOfLetters(Group(a, b, c), rest);
  }

  lemma {:induction false} LettersOfLetters(letters: string, rest: string)
    requires forall i :: 0 <= i < |letters| ==> Decoded(letters[i]) != -1 && letters[i] != '='
    ensures Letters(letters + rest) == letters + Letters(rest)
  {
    if letters == "" {
      assert letters + rest == rest;
    } else {
      assert (letters + rest)[1..] == letters[1..] + rest;
      LettersOfLetters(letters[1..], rest);
    }
  }

  // The examples of the standard (section 10 of RFC 4648), from "f" to "foobar" as bytes.
  lemma StandardExamples()
    ensures Encode([102]) == "Zg==" && Encode([102, 111]) == "Zm8=" && Encode([102, 111, 111]) == "Zm9v"
  {
    FooBar();
    AfterFoo([]);
  }

  lemma LongestStandardExample()
    ensures Encode([102, 111, 111, 98, 97, 114]) == "Zm9vYmFy"
  {
    FooBar();
    AfterFoo([98, 97, 114]);
    assert Encode([98, 97, 114]) == "YmFy";
  }

  lemma FooBar()
    ensures Group(102, 111, 111) == "Zm9v" && Group(98, 97, 114) == "YmFy"
    ensures Group(102, 0, 0)[..2] == "Zg" && Group(102, 111, 0)[..3] == "Zm8"
  {
  }

  lemma AfterFoo(rest: seq<Byte>)
    ensures Encode([102, 111, 111] + rest) == Group(102, 111, 111) + Encode(rest)
  {
    GroupFirst([102, 111, 111] + rest);
    assert ([102, 111, 111] + rest)[3..] == rest;
  }

  // ----- what the decoder ignores -----

  // The letters of a text up to its padding.
  function Letters(text: string): string {
    if text == "" || text[0] == '=' then ""
    else (if Decoded(text[0]) == -1 then "" else [text[0]]) + Letters(text[1..])
  }

  lemma {:induction false} OnlyLettersCount(text: string, val: int, valb: int)
    ensures DecodeFrom(text, val, valb) == DecodeFrom(Letters(text), val, valb)
  {
    if text != "" && text[0] != '=' {
      var d := Decoded(text[0]);
      if d == -1 {
        assert Letters(text) == Letters(text[1..]);
        OnlyLettersCount(text[1..], val, valb);
      } else {
        assert Letters(text)[1..] == Letters(text[1..]);
        var val', valb' := Int32(val * 64 + d), valb + 6;
        OnlyLettersCount(text[1..], val', if valb' >= 0 then valb' - 8 else valb');
      }
    }
  }

  // An encoding still decodes when foreign characters have been put between its letters and anything
  // after its padding, or when the padding is gone.
  lemma DecodeIsRobust(value: seq<Byte>, text: string)
    requires Letters(text) == Letters(Encode(value))
    ensures Decode(text) == value
  {
    OnlyLettersCount(text, 0, -8);
    OnlyLettersCount(Encode(value), 0, -8);
    DecodeInvertsEncode(value);
  }

  // ----- JSON strings -----

  const HEX := "0123456789ABCDEF"

  function Escaped(c: char): string {
    match c
    case '\\' => "\\\\"
    case '\"' => "\\\""
    case '\U{08}' => "\\b"
    case '\U{0C}' => "\\f"
    case '\n' => "\\n"
    case '\r' => "\\r"
    case '\t' => "\\t"
    case _ => if c < ' ' then "\\u00" + [HEX[c as int / 16], HEX[c as int % 16]] else [c]
  }

  function EscapedAll(text: string): string {
    if text == "" then "" else EscapedAll(text[..|text| - 1]) + Escaped(text[|text| - 1])
  }

  method JsonEscape(value: string) returns (escaped: string)
    ensures escaped == EscapedAll(value)
  {
    escaped := "";
    for i := 0 to |value|
      invariant escaped == EscapedAll(value[..i])
    {
      assert value[..i + 1][..i] == value[..i];
      escaped := escaped + Escaped(value[i]);
    }
    assert value[..|value|] == value;
  }

  // The value of a hexadecimal digit, or -1.
  function HexValue(c: char): int {
    if '0' <= c <= '9' then c as int - '0' as int
    else if 'A' <= c <= 'F' then c as int - 'A' as int + 10
    else if 'a' <= c <= 'f' then c as int - 'a' as int + 10
    else -1
  }

  // The character of a one-letter escape in a JSON string (section 7 of RFC 8259).
  function EscapedBy(letter: char): Option<char> {
    match letter
    case '\"' => Some('\"')
    case '\\' => Some('\\')
    case '/' => Some('/')
    case 'b' => Some('\U{08}')
    case 'f' => Some('\U{0C}')
    case 'n' => Some('\n')
    case 'r' => Some('\r')
    case 't' => Some('\t')
    case _ => None
  }

  // The first character of the inside of a JSON string and how much text it takes; None for text that must
  // not stand there: a quotation mark, a control character or an escape that is none. The numbered escapes
  // are read below 256 only.
  function ReadOne(text: string): (read: Option<(char, nat)>)
    requires text != ""
    ensures read.Some? ==> 0 < read.value.1 <= |text|
  {
    if text[0] == '\"' || text[0] < ' ' then None
    else if text[0] != '\\' then Some((text[0], 1))
    else if |text| < 2 then None
    else if text[1] != 'u' then
      var c := EscapedBy(text[1]);
      if c.Some? then Some((c.value, 2)) else None
    else if |text| < 6 || text[2] != '0' || text[3] != '0' || HexValue(text[4]) == -1 || HexValue(text[5]) == -1 then
      None
    else Some(((16 * HexValue(text[4]) + HexValue(text[5])) as char, 6))
  }

  // What a reader of JSON makes of the inside of a string.
  function ReadString(text: string): Option<string>
    decreases |text|
  {
    if text == "" then Some("")
    else
      var first := ReadOne(text);
      if first.None? then None
      else
        var rest := ReadString(text[first.value.1..]);
        if rest.None? then None else Some([first.value.0] + rest.value)
  }

  lemma ReadEscaped(c: char, rest: string)
    ensures ReadOne(Escaped(c) + rest) == Some((c, |Escaped(c)|))
  {
    if c < ' ' && EscapedBy(Escaped(c)[1]).None? {
      HexDigits();
      ReadNumbered(HEX[c as int / 16], HEX[c as int % 16], rest);
    }
  }

  lemma ReadNumbered(h: char, l: char, rest: string)
    requires HexValue(h) != -1 && HexValue(l) != -1
    ensures ReadOne("\\u00" + [h, l] + rest) == Some(((16 * HexValue(h) + HexValue(l)) as char, 6))
  {
  }

  lemma HexDigits()
    ensures forall n :: 0 <= n < 16 ==> HexValue(HEX[n]) == n
  {
    assert seq(10, i requires 0 <= i < 10 => '0' + i as char) == HEX[..10];
    assert seq(6, i requires 0 <= i < 6 => 'A' + i as char) == HEX[10..];
  }

  lemma ReadOneMore(c: char, rest: string)
    requires ReadString(rest).Some?
    ensures ReadString(Escaped(c) + rest) == Some([c] + ReadString(rest).value)
  {
    ReadEscaped(c, rest);
    assert (Escaped(c) + rest)[|Escaped(c)|..] == rest;
  }

  lemma {:induction false} ReadEscapedBefore(text: string, rest: string)
    requires ReadString(rest).Some?
    ensures ReadString(EscapedAll(text) + rest) == Some(text + ReadString(rest).value)
  {
    if text == "" {
      assert EscapedAll(text) + rest == rest && text + ReadString(rest).value == ReadString(rest).value;
    } else {
      var before, c := text[..|text| - 1], text[|text| - 1];
      ReadOneMore(c, rest);
      ReadEscapedBefore(before, Escaped(c) + rest);
      Regroup(EscapedAll(before), Escaped(c), rest);
      Regroup(before, [c], ReadString(rest).value);
      assert text == before + [c];
    }
  }

  // Whatever the text, its escaped form can stand between quotation marks, and a reader of JSON gets the
  // text back.
  lemma ReadInvertsEscape(text: string)
    ensures ReadString(EscapedAll(text)) == Some(text)
  {
    ReadEscapedBefore(text, "");
    assert EscapedAll(text) + "" == EscapedAll(text) && text + "" == text;
  }

  predicate Plain(text: string) {
    forall i :: 0 <= i < |text| ==> text[i] == '=' || Decoded(text[i]) != -1
  }

  lemma {:induction false} EncodingIsPlain(value: seq<Byte>)
    ensures Plain(Encode(value))
  {
    forall n: Sextet
      ensures Decoded(Letter(n)) != -1
    {
      LettersDecode(n);
    }
    if |value| >= 3 {
      EncodingIsPlain(value[3..]);
    }
  }

  lemma PlainCharacter(c: char)
    requires c == '=' || Decoded(c) != -1
    ensures Escaped(c) == [c]
  {
  }

  lemma {:induction false} PlainIsUnescaped(text: string)
    requires Plain(text)
    ensures EscapedAll(text) == text
  {
    if text != "" {
      PlainIsUnescaped(text[..|text| - 1]);
      PlainCharacter(text[|text| - 1]);
      assert text == text[..|text| - 1] + [text[|text| - 1]];
    }
  }

  // A base64 value can stand in a JSON string as it is.
  lemma EscapeLeavesEncoding(value: seq<Byte>)
    ensures EscapedAll(Encode(value)) == Encode(value)
  {
    EncodingIsPlain(value);
    PlainIsUnescaped(Encode(value));
  }
}
