/**
 The base64 text the edge tunnel carries bytes in: section 4 of RFC 4648 for writing.  Reading skips
 every character outside the alphabet (padding included) and drops a trailing partial byte.
 */
module Base64 {
  import opened Wrappers

  type Byte = x: int | 0 <= x < 256
  type Sextet = x: int | 0 <= x < 64

  type Bytes = seq<Byte>

  function Letter(v: Sextet): char {
    if v < 26 then ('A' as int + v) as char
    else if v < 52 then ('a' as int + v - 26) as char
    else if v < 62 then ('0' as int + v - 52) as char
    else if v == 62 then '+'
    else '/'
  }

  function Value(c: char): Option<Sextet> {
    if 'A' <= c <= 'Z' then Some(c as int - 'A' as int)
    else if 'a' <= c <= 'z' then Some(c as int - 'a' as int + 26)
    else if '0' <= c <= '9' then Some(c as int - '0' as int + 52)
    else if c == '+' then Some(62)
    else if c == '/' then Some(63)
    else None
  }

  /** The alphabet, table 1 of RFC 4648: where its runs begin and end, and that they are runs. */
  lemma Alphabet(v: Sextet)
    ensures Letter(0) == 'A' && Letter(25) == 'Z' && Letter(26) == 'a' && Letter(51) == 'z'
    ensures Letter(52) == '0' && Letter(61) == '9' && Letter(62) == '+' && Letter(63) == '/'
    ensures v !in {25, 51, 61, 62, 63} ==> Letter(v + 1) as int == Letter(v) as int + 1
  {
  }

  /** Three bytes become four letters; one or two left over are padded with `=`. */
  function Encode(bytes: Bytes): string {
    if |bytes| == 0 then ""
    else if |bytes| == 1 then
      [Letter(First(bytes[0])), Letter(Second(bytes[0], 0)), '=', '=']
    else if |bytes| == 2 then
      [Letter(First(bytes[0])), Letter(Second(bytes[0], bytes[1])), Letter(Third(bytes[1], 0)), '=']
    else
      [Letter(First(bytes[0])), Letter(Second(bytes[0], bytes[1])), Letter(Third(bytes[1], bytes[2])), Letter(Fourth(bytes[2]))]
      + Encode(bytes[3..])
  }

  function First(a: Byte): Sextet { a / 4 }
  function Second(a: Byte, b: Byte): Sextet { a % 4 * 16 + b / 16 }
  function Third(b: Byte, c: Byte): Sextet { b % 16 * 4 + c / 64 }
  function Fourth(c: Byte): Sextet { c % 64 }

  /** The values of the letters of a text, in order. */
  function Sextets(text: string): seq<Sextet> {
    if text == "" then []
    else
      match Value(text[0])
      case Some(v) => [v] + Sextets(text[1..])
      case None => Sextets(text[1..])
  }

  function Octets(s: seq<Sextet>): Bytes {
    if |s| < 2 then []
    else if |s| == 2 then [Octet1(s[0], s[1])]
    else if |s| == 3 then [Octet1(s[0], s[1]), Octet2(s[1], s[2])]
    else [Octet1(s[0], s[1]), Octet2(s[1], s[2]), Octet3(s[2], s[3])] + Octets(s[4..])
  }

  function Octet1(s: Sextet, t: Sextet): Byte { s * 4 + t / 16 }
  function Octet2(s: Sextet, t: Sextet): Byte { s % 16 * 16 + t / 4 }
  function Octet3(s: Sextet, t: Sextet): Byte { s % 4 * 64 + t }

  function Decode(text: string): Bytes { Octets(Sextets(text)) }

  lemma ValueOfLetter(v: Sextet)
    ensures Value(Letter(v)) == Some(v)
  {
  }

  lemma ThreeOctets(a: Byte, b: Byte, c: Byte)
    ensures Octet1(First(a), Second(a, b)) == a
    ensures Octet2(Second(a, b), Third(b, c)) == b
    ensures Octet3(Third(b, c), Fourth(c)) == c
  {
  }

  lemma SextetsOfLetter(v: Sextet, rest: string)
    ensures Sextets([Letter(v)] + rest) == [v] + Sextets(rest)
  {
    ValueOfLetter(v);
    assert ([Letter(v)] + rest)[1..] == rest;
  }

  lemma SextetsOfPadding(rest: string)
    ensures Sextets("=" + rest) == Sextets(rest)
  {
    assert ("=" + rest)[1..] == rest;
  }

  lemma OneByOne<T>(p: T, q: T, r: T, rest: seq<T>)
    ensures [p, q, r] + rest == [p] + ([q] + ([r] + rest))
  {
  }

  lemma SextetsOfOne(a: Byte, rest: string)
    ensures Sextets(Encode([a]) + rest) == [First(a), Second(a, 0)] + Sextets(rest)
  {
    var s, t := First(a), Second(a, 0);
    assert Encode([a]) + rest == [Letter(s)] + ([Letter(t)] + ("=" + ("=" + rest)));
    SextetsOfLetter(s, [Letter(t)] + ("=" + ("=" + rest)));
    SextetsOfLetter(t, "=" + ("=" + rest));
    SextetsOfPadding("=" + rest);
    SextetsOfPadding(rest);
  }

  lemma SextetsOfTwo(a: Byte, b: Byte, rest: string)
    ensures Sextets(Encode([a, b]) + rest) == [First(a), Second(a, b), Third(b, 0)] + Sextets(rest)
  {
    var s, t, u := First(a), Second(a, b), Third(b, 0);
    LastOfFour(Letter(s), Letter(t), Letter(u), '=', rest);
    SextetsOfLetters(s, t, u, "=" + rest);
    SextetsOfPadding(rest);
  }

  lemma SextetsOfLetters(s: Sextet, t: Sextet, u: Sextet, rest: string)
    ensures Sextets([Letter(s), Letter(t), Letter(u)] + rest) == [s, t, u] + Sextets(rest)
  {
    OneByOne(Letter(s), Letter(t), Letter(u), rest);
    SextetsOfLetter(s, [Letter(t)] + ([Letter(u)] + rest));
    SextetsOfLetter(t, [Letter(u)] + rest);
    SextetsOfLetter(u, rest);
    OneByOne(s, t, u, Sextets(rest));
  }

  lemma SextetsOfFour(s: Sextet, t: Sextet, u: Sextet, v: Sextet, rest: string)
    ensures Sextets([Letter(s), Letter(t), Letter(u), Letter(v)] + rest) == [s, t, u, v] + Sextets(rest)
  {
    LastOfFour(Letter(s), Letter(t), Letter(u), Letter(v), rest);
    SextetsOfLetters(s, t, u, [Letter(v)] + rest);
    SextetsOfLetter(v, rest);
    LastOfFour(s, t, u, v, Sextets(rest));
  }

  lemma LastOfFour<T>(p: T, q: T, r: T, s: T, rest: seq<T>)
    ensures [p, q, r, s] + rest == [p, q, r] + ([s] + rest)
  {
  }

  lemma SextetsOfThree(a: Byte, b: Byte, c: Byte, rest: string)
    ensures Sextets([Letter(First(a)), Letter(Second(a, b)), Letter(Third(b, c)), Letter(Fourth(c))] + rest)
         == [First(a), Second(a, b), Third(b, c), Fourth(c)] + Sextets(rest)
  {
    SextetsOfFour(First(a), Second(a, b), Third(b, c), Fourth(c), rest);
  }

  lemma OctetsOfGroup(a: Byte, b: Byte, c: Byte, rest: seq<Sextet>)
    ensures Octets([First(a), Second(a, b), Third(b, c), Fourth(c)] + rest) == [a, b, c] + Octets(rest)
  {
    FourSextets(First(a), Second(a, b), Third(b, c), Fourth(c), rest);
    ThreeOctets(a, b, c);
  }

  lemma FourSextets(s: Sextet, t: Sextet, u: Sextet, v: Sextet, rest: seq<Sextet>)
    ensures Octets([s, t, u, v] + rest) == [Octet1(s, t), Octet2(t, u), Octet3(u, v)] + Octets(rest)
  {
    assert ([s, t, u, v] + rest)[4..] == rest;
  }

  lemma OctetsOfOne(a: Byte)
    ensures Octets([First(a), Second(a, 0)]) == [a]
  {
    ThreeOctets(a, 0, 0);
  }

  lemma OctetsOfTwo(a: Byte, b: Byte)
    ensures Octets([First(a), Second(a, b), Third(b, 0)]) == [a, b]
  {
    ThreeOctets(a, b, 0);
  }

  lemma DecodeOne(a: Byte)
    ensures Decode(Encode([a])) == [a]
  {
    OctetsOfOne(a);
    assert Sextets(Encode([a])) == [First(a), Second(a, 0)] by {
      SextetsOfOne(a, "");
      assert Encode([a]) + "" == Encode([a]);
    }
  }

  lemma DecodeTwo(a: Byte, b: Byte)
    ensures Decode(Encode([a, b])) == [a, b]
  {
    OctetsOfTwo(a, b);
    assert Sextets(Encode([a, b])) == [First(a), Second(a, b), Third(b, 0)] by {
      SextetsOfTwo(a, b, "");
      assert Encode([a, b]) + "" == Encode([a, b]);
    }
  }

  lemma DecodeGroup(a: Byte, b: Byte, c: Byte, rest: Bytes)
    ensures Decode(Encode([a, b, c] + rest)) == [a, b, c] + Decode(Encode(rest))
  {
    assert ([a, b, c] + rest)[3..] == rest;
    SextetsOfThree(a, b, c, Encode(rest));
    OctetsOfGroup(a, b, c, Sextets(Encode(rest)));
  }

  /** Reading back what was written gives the bytes that were written. */
  lemma {:induction false} DecodeEncode(bytes: Bytes)
    ensures Decode(Encode(bytes)) == bytes
  {
    if |bytes| == 0 {
    } else if |bytes| == 1 {
      DecodeOne(bytes[0]);
      assert bytes == [bytes[0]];
    } else if |bytes| == 2 {
      DecodeTwo(bytes[0], bytes[1]);
      assert bytes == [bytes[0], bytes[1]];
    } else {
      DecodeGroup(bytes[0], bytes[1], bytes[2], bytes[3..]);
      DecodeEncode(bytes[3..]);
      assert bytes == [bytes[0], bytes[1], bytes[2]] + bytes[3..];
    }
  }

  lemma NonEmptyText(bytes: Bytes)
    requires bytes != []
    ensures Encode(bytes) != ""
  {
  }

  // ---- Texts of several pieces, joined ----

  lemma SextetsGroup(a: Byte, b: Byte, c: Byte, rest: Bytes, more: string)
    ensures Decode(Encode([a, b, c] + rest) + more) == [a, b, c] + Decode(Encode(rest) + more)
  {
    var group := [Letter(First(a)), Letter(Second(a, b)), Letter(Third(b, c)), Letter(Fourth(c))];
    assert ([a, b, c] + rest)[3..] == rest;
    assert Encode([a, b, c] + rest) == group + Encode(rest);
    assert group + Encode(rest) + more == group + (Encode(rest) + more);
    SextetsOfThree(a, b, c, Encode(rest) + more);
    OctetsOfGroup(a, b, c, Sextets(Encode(rest) + more));
  }

  /** The first sextet of a text, and that it is not alone. */
  lemma FirstSextet(bytes: Bytes)
    requires bytes != []
    ensures |Sextets(Encode(bytes))| >= 2 && Sextets(Encode(bytes))[0] == First(bytes[0])
  {
    if |bytes| == 1 {
      SextetsOfOne(bytes[0], "");
      assert bytes == [bytes[0]] && Encode(bytes) + "" == Encode(bytes);
    } else if |bytes| == 2 {
      SextetsOfTwo(bytes[0], bytes[1], "");
      assert bytes == [bytes[0], bytes[1]] && Encode(bytes) + "" == Encode(bytes);
    } else {
      var rest := bytes[3..];
      assert bytes == [bytes[0], bytes[1], bytes[2]] + rest;
      SextetsOfThree(bytes[0], bytes[1], bytes[2], Encode(rest));
    }
  }

  lemma ShiftedByFourBits(x: Byte, b: Byte)
    requires b != 0
    ensures Octet2(Second(x, 0), First(b)) != b
  {
    var k := x % 4;
    assert k == 0 || k == 1 || k == 2 || k == 3;
    assert Second(x, 0) % 16 == 0;
    Quarters(b);
  }

  lemma Quarters(b: Byte)
    requires b != 0
    ensures b / 4 / 4 < b
  {
  }

  lemma ShiftedByTwoBits(y: Byte, b: Byte)
    requires b != 0
    ensures Octet3(Third(y, 0), First(b)) != b
  {
  }

  lemma TakeTwo<T>(p: T, q: T, more: seq<T>)
    requires |more| >= 2
    ensures [p, q] + more == [p, q, more[0], more[1]] + more[2..]
  {
  }

  lemma TakeOne<T>(p: T, q: T, r: T, more: seq<T>)
    requires |more| >= 1
    ensures [p, q, r] + more == [p, q, r, more[0]] + more[1..]
  {
  }

  lemma OctetsAfterTwo(s: Sextet, t: Sextet, more: seq<Sextet>)
    requires |more| >= 2
    ensures Octets([s, t] + more) == [Octet1(s, t), Octet2(t, more[0]), Octet3(more[0], more[1])] + Octets(more[2..])
  {
    TakeTwo(s, t, more);
    FourSextets(s, t, more[0], more[1], more[2..]);
  }

  lemma OctetsAfterThree(s: Sextet, t: Sextet, u: Sextet, more: seq<Sextet>)
    requires |more| >= 1
    ensures Octets([s, t, u] + more) == [Octet1(s, t), Octet2(t, u), Octet3(u, more[0])] + Octets(more[1..])
  {
    TakeOne(s, t, u, more);
    FourSextets(s, t, u, more[0], more[1..]);
  }

  /** The first byte of `b` is not where it would be had the texts of `a` and `b` been decoded one by one. */
  ghost predicate Misplaced(a: nat, b: Byte, decoded: Bytes) {
    |decoded| > a && decoded[a] != b
  }

  /** After one odd byte the four bits of padding shift what follows. */
  lemma OneOddByte(x: Byte, b: Bytes)
    requires b != [] && b[0] != 0
    ensures Misplaced(1, b[0], Decode(Encode([x]) + Encode(b)))
  {
    FirstSextet(b);
    SextetsOfOne(x, Encode(b));
    OctetsAfterTwo(First(x), Second(x, 0), Sextets(Encode(b)));
    ShiftedByFourBits(x, b[0]);
  }

  /** After two odd bytes two bits of padding do. */
  lemma TwoOddBytes(x: Byte, y: Byte, b: Bytes)
    requires b != [] && b[0] != 0
    ensures Misplaced(2, b[0], Decode(Encode([x, y]) + Encode(b)))
  {
    FirstSextet(b);
    SextetsOfTwo(x, y, Encode(b));
    OctetsAfterThree(First(x), Second(x, y), Third(y, 0), Sextets(Encode(b)));
    ShiftedByTwoBits(y, b[0]);
  }

  lemma GroupFirst(bytes: Bytes)
    requires |bytes| >= 3
    ensures bytes == [bytes[0], bytes[1], bytes[2]] + bytes[3..]
  {
  }

  lemma ShortTextShifts(a: Bytes, b: Bytes)
    requires |a| == 1 || |a| == 2
    requires b != [] && b[0] != 0
    ensures Misplaced(|a|, b[0], Decode(Encode(a) + Encode(b)))
  {
    if |a| == 1 {
      OneOddByte(a[0], b);
      assert a == [a[0]];
    } else {
      TwoOddBytes(a[0], a[1], b);
      assert a == [a[0], a[1]];
    }
  }

  lemma FirstGroup(a: Bytes, b: Bytes)
    requires |a| >= 3
    ensures Decode(Encode(a) + Encode(b)) == a[..3] + Decode(Encode(a[3..]) + Encode(b))
  {
    GroupFirst(a);
    SextetsGroup(a[0], a[1], a[2], a[3..], Encode(b));
    assert a[..3] == [a[0], a[1], a[2]];
  }

  lemma EmptyTextJoins(b: Bytes)
    ensures Decode(Encode([]) + Encode(b)) == [] + b
  {
    assert Encode([]) + Encode(b) == Encode(b);
    DecodeEncode(b);
  }

  ghost predicate GroupPasses(read: Bytes -> Bytes, x: Bytes) {
    |x| >= 3 ==> read(x) == x[..3] + read(x[3..])
  }

  ghost predicate RestShifts(read: Bytes -> Bytes, x: Bytes, b: Bytes) {
    |x| == 1 || |x| == 2 ==> b != [] && Misplaced(|x|, b[0], read(x))
  }

  /** Reading that passes whole groups through does with any bytes what it does with those after the last whole group. */
  lemma {:induction false} GroupByGroup(read: Bytes -> Bytes, a: Bytes, b: Bytes)
    requires forall x: Bytes :: GroupPasses(read, x)
    requires read([]) == [] + b
    requires forall x: Bytes :: RestShifts(read, x, b)
    ensures |a| % 3 == 0 ==> read(a) == a + b
    ensures |a| % 3 != 0 ==> b != [] && Misplaced(|a|, b[0], read(a))
  {
    assert GroupPasses(read, a) && RestShifts(read, a, b);
    if |a| >= 3 {
      GroupByGroup(read, a[3..], b);
      assert a[..3] + (a[3..] + b) == a + b;
    }
  }

  /**
   Why a stream of separately encoded pieces has to be decoded piece by piece: joining the texts of two pieces and
   decoding the result gives the pieces back if the first is not padded, and something else if it is and the second
   starts with a byte other than zero.
   */
  lemma JoinedTextsDecodeWrong(a: Bytes, b: Bytes)
    requires b != [] && b[0] != 0
    ensures Decode(Encode(a) + Encode(b)) == a + b <==> |a| % 3 == 0
  {
    var read := (x: Bytes) => Decode(Encode(x) + Encode(b));
    EmptyTextJoins(b);
    forall x: Bytes ensures GroupPasses(read, x) {
      if |x| >= 3 {
        FirstGroup(x, b);
      }
    }
    forall x: Bytes ensures RestShifts(read, x, b) {
      if |x| == 1 || |x| == 2 {
        ShortTextShifts(x, b);
      }
    }
    GroupByGroup(read, a, b);
    assert (a + b)[|a|] == b[0];
  }

  /** The test vectors of section 10 of RFC 4648. */
  lemma TestVectors()
    ensures Encode([]) == "" && Encode([102]) == "Zg==" && Encode([102, 111]) == "Zm8=" && Encode([102, 111, 111]) == "Zm9v"
    ensures Encode([102, 111, 111, 98]) == "Zm9vYg==" && Encode([102, 111, 111, 98, 97]) == "Zm9vYmE="
    ensures Encode([102, 111, 111, 98, 97, 114]) == "Zm9vYmFy"
  {
    var foo, foob, fooba, foobar: Bytes := [102, 111, 111], [102, 111, 111, 98], [102, 111, 111, 98, 97], [102, 111, 111, 98, 97, 114];
    var bar: Bytes := [98, 97, 114];
    assert foo[3..] == [] && bar[3..] == [];
    assert foob[3..] == [98] && fooba[3..] == [98, 97] && foobar[3..] == bar;
  }
}
