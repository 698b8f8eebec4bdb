/**
 Unpadded base64url: alphabet of section 5 of RFC 4648, padding omitted as in
 its section 3.2, and zero trailing bits required as in its section 3.5.
 */
module Base64Url {
  import opened Wrappers

  type Sextet = v: int | 0 <= v < 64

  // ----- digits -----

  function Digit(v: Sextet): char {
    if v < 26 then ('A' as int + v) as char
    else if v < 52 then ('a' as int + v - 26) as char
    else if v < 62 then ('0' as int + v - 52) as char
    else if v == 62 then '-' else '_'
  }

  predicate InAlphabet(c: char) { 'A' <= c <= 'Z' || 'a' <= c <= 'z' || '0' <= c <= '9' || c == '-' || c == '_' }

  function Value(c: char): Sextet
    requires InAlphabet(c)
  {
    if 'A' <= c <= 'Z' then c as int - 'A' as int
    else if 'a' <= c <= 'z' then c as int - 'a' as int + 26
    else if '0' <= c <= '9' then c as int - '0' as int + 52
    else if c == '-' then 62 else 63
  }

  lemma DigitAndValueAreInverse(v: Sextet, c: char)
    ensures InAlphabet(Digit(v)) && Value(Digit(v)) == v
    ensures InAlphabet(c) ==> Digit(Value(c)) == c
  {
  }

  /** Table 2 of RFC 4648: the digit of every value. */
  const UPPER := "ABCDEFGHIJKLMNOPQRSTUVWXYZ"
  const LOWER := "abcdefghijklmnopqrstuvwxyz"
  const ALPHABET := UPPER + LOWER + "0123456789" + "-_"

  lemma LettersFollowTheTable(v: nat)
    requires v < 26
    ensures UPPER[v] as int == 'A' as int + v && LOWER[v] as int == 'a' as int + v
  {
  }

  lemma TableParts(v: Sextet)
    ensures |ALPHABET| == 64
    ensures ALPHABET[v] ==
              if v < 26 then UPPER[v] else if v < 52 then LOWER[v - 26] else if v < 62 then "0123456789"[v - 52]
              else "-_"[v - 62]
  {
  }

  /** The digits are those of the table, each for its own value, and no others. */
  lemma DigitsFollowTheTable(v: Sextet)
    ensures |ALPHABET| == 64 && Digit(v) == ALPHABET[v]
  {
    TableParts(v);
    LettersFollowTheTable(v % 26);
  }

  lemma AlphabetIsTheTable(c: char)
    ensures InAlphabet(c) <==> c in ALPHABET
  {
    if InAlphabet(c) {
      DigitAndValueAreInverse(0, c);
      DigitsFollowTheTable(Value(c));
    }
    if c in ALPHABET {
      TableParts(0);
      var v: nat :| v < |ALPHABET| && ALPHABET[v] == c;
      DigitsFollowTheTable(v);
      DigitAndValueAreInverse(v, c);
    }
  }

  function Spell(vs: seq<Sextet>): string { seq(|vs|, i requires 0 <= i < |vs| => Digit(vs[i])) }

  predicate AllDigits(s: string) { forall i :: 0 <= i < |s| ==> InAlphabet(s[i]) }

  function Values(s: string): seq<Sextet>
    requires AllDigits(s)
  {
    seq(|s|, i requires 0 <= i < |s| => Value(s[i]))
  }

  lemma SpellAndValuesAreInverse(vs: seq<Sextet>, s: string)
    ensures AllDigits(Spell(vs)) && Values(Spell(vs)) == vs
    ensures AllDigits(s) ==> Spell(Values(s)) == s
  {
    forall i | 0 <= i < |vs|
      ensures InAlphabet(Spell(vs)[i]) && Value(Spell(vs)[i]) == vs[i]
    {
      DigitAndValueAreInverse(vs[i], ' ');
    }
    if AllDigits(s) {
      forall i | 0 <= i < |s|
        ensures Spell(Values(s))[i] == s[i]
      {
        DigitAndValueAreInverse(0, s[i]);
      }
    }
  }

  // ----- three bytes to four sextets and back -----

  function First(a: Byte): Sextet { a / 4 }
  function Second(a: Byte, b: Byte): Sextet { a % 4 * 16 + b / 16 }
  function Third(b: Byte, c: Byte): Sextet { b % 16 * 4 + c / 64 }
  function Fourth(c: Byte): Sextet { c % 64 }

  function ByteA(v: Sextet, w: Sextet): Byte { v * 4 + w / 16 }
  function ByteB(w: Sextet, x: Sextet): Byte { w % 16 * 16 + x / 4 }
  function ByteC(x: Sextet, y: Sextet): Byte { x % 4 * 64 + y }

  lemma SecondParts(a: Byte, b: Byte)
    ensures Second(a, b) / 16 == a % 4 && Second(a, b) % 16 == b / 16
  {
  }

  lemma ThirdParts(b: Byte, c: Byte)
    ensures Third(b, c) / 4 == b % 16 && Third(b, c) % 4 == c / 64
  {
  }

  lemma ByteFromParts(x: Byte)
    ensures x / 4 * 4 + x % 4 == x && x / 16 * 16 + x % 16 == x && x / 64 * 64 + x % 64 == x
  {
  }

  lemma BytesOfSextets(a: Byte, b: Byte, c: Byte)
    ensures ByteA(First(a), Second(a, b)) == a
    ensures ByteB(Second(a, b), Third(b, c)) == b
    ensures ByteC(Third(b, c), Fourth(c)) == c
    ensures Second(a, 0) % 16 == 0 && Third(b, 0) % 4 == 0
  {
    SecondParts(a, b);
    SecondParts(a, 0);
    ThirdParts(b, c);
    ThirdParts(b, 0);
    ByteFromParts(a);
    ByteFromParts(b);
    ByteFromParts(c);
  }

  lemma SextetsOfBytes(v: Sextet, w: Sextet, x: Sextet, y: Sextet)
    ensures First(ByteA(v, w)) == v
    ensures Second(ByteA(v, w), ByteB(w, x)) == w
    ensures Third(ByteB(w, x), ByteC(x, y)) == x
    ensures Fourth(ByteC(x, y)) == y
    ensures w % 16 == 0 ==> Second(ByteA(v, w), 0) == w
    ensures x % 4 == 0 ==> Third(ByteB(w, x), 0) == x
  {
  }

  function ToSextets(data: seq<Byte>): seq<Sextet> {
    if |data| == 0 then []
    else if |data| == 1 then [First(data[0]), Second(data[0], 0)]
    else if |data| == 2 then [First(data[0]), Second(data[0], data[1]), Third(data[1], 0)]
    else [First(data[0]), Second(data[0], data[1]), Third(data[1], data[2]), Fourth(data[2])] + ToSextets(data[3..])
  }

  function FromSextets(vs: seq<Sextet>): Option<seq<Byte>> {
    if |vs| == 0 then Some([])
    else if |vs| == 1 then None
    else if |vs| == 2 then
      if vs[1] % 16 == 0 then Some([ByteA(vs[0], vs[1])]) else None
    else if |vs| == 3 then
      if vs[2] % 4 == 0 then Some([ByteA(vs[0], vs[1]), ByteB(vs[1], vs[2])]) else None
    else match FromSextets(vs[4..])
      case None => None
      case Some(rest) => Some([ByteA(vs[0], vs[1]), ByteB(vs[1], vs[2]), ByteC(vs[2], vs[3])] + rest)
  }

  lemma FromSextetsOfFew(v: Sextet, w: Sextet, x: Sextet)
    ensures w % 16 == 0 ==> FromSextets([v, w]) == Some([ByteA(v, w)])
    ensures x % 4 == 0 ==> FromSextets([v, w, x]) == Some([ByteA(v, w), ByteB(w, x)])
  {
  }

  lemma FromSextetsOfBlock(v: Sextet, w: Sextet, x: Sextet, y: Sextet, rest: seq<Sextet>, data: seq<Byte>)
    requires FromSextets(rest) == Some(data)
    ensures FromSextets([v, w, x, y] + rest) == Some([ByteA(v, w), ByteB(w, x), ByteC(x, y)] + data)
  {
    assert ([v, w, x, y] + rest)[4..] == rest;
  }

  lemma FromInvertsToOfOne(a: Byte)
    ensures FromSextets(ToSextets([a])) == Some([a])
  {
    var v, w := First(a), Second(a, 0);
    assert w % 16 == 0 && w / 16 == a % 4;
    FromSextetsOfFew(v, w, w);
  }

  lemma FromInvertsToOfTwo(a: Byte, b: Byte)
    ensures FromSextets(ToSextets([a, b])) == Some([a, b])
  {
    BytesOfSextets(a, b, 0);
    FromSextetsOfFew(First(a), Second(a, b), Third(b, 0));
  }

  lemma FromInvertsToOfBlock(a: Byte, b: Byte, c: Byte, data: seq<Byte>)
    requires FromSextets(ToSextets(data)) == Some(data)
    ensures FromSextets(ToSextets([a, b, c] + data)) == Some([a, b, c] + data)
  {
    assert ([a, b, c] + data)[3..] == data;
    FromSextetsOfBlock(First(a), Second(a, b), Third(b, c), Fourth(c), ToSextets(data), data);
    BytesOfSextets(a, b, c);
  }

  lemma {:induction false} FromInvertsTo(data: seq<Byte>)
    ensures FromSextets(ToSextets(data)) == Some(data)
  {
    if |data| == 1 {
      FromInvertsToOfOne(data[0]);
      assert data == [data[0]];
    } else if |data| == 2 {
      FromInvertsToOfTwo(data[0], data[1]);
      assert data == [data[0], data[1]];
    } else if |data| >= 3 {
      FromInvertsTo(data[3..]);
      FromInvertsToOfBlock(data[0], data[1], data[2], data[3..]);
      assert data == [data[0], data[1], data[2]] + data[3..];
    }
  }

  lemma {:induction false} ToInvertsFrom(vs: seq<Sextet>)
    requires FromSextets(vs).Some?
    ensures ToSextets(FromSextets(vs).value) == vs
    decreases |vs|
  {
    if |vs| == 2 {
      SextetsOfBytes(vs[0], vs[1], 0, 0);
    } else if |vs| == 3 {
      SextetsOfBytes(vs[0], vs[1], vs[2], 0);
    } else if |vs| >= 4 {
      SextetsOfBytes(vs[0], vs[1], vs[2], vs[3]);
      ToInvertsFrom(vs[4..]);
      assert FromSextets(vs).value[3..] == FromSextets(vs[4..]).value;
      assert vs == [vs[0], vs[1], vs[2], vs[3]] + vs[4..];
    }
  }

  ghost predicate ZeroTail(vs: seq<Sextet>) {
    && |vs| % 4 != 1
    && (|vs| % 4 == 2 ==> vs[|vs| - 1] % 16 == 0)
    && (|vs| % 4 == 3 ==> vs[|vs| - 1] % 4 == 0)
  }

  lemma ZeroTailPastBlock(vs: seq<Sextet>)
    requires |vs| >= 4
    ensures ZeroTail(vs) <==> ZeroTail(vs[4..])
  {
    var rest := vs[4..];
    assert |vs| % 4 == |rest| % 4;
    assert |rest| > 0 ==> vs[|vs| - 1] == rest[|rest| - 1];
  }

  lemma ShortIffZeroTail(vs: seq<Sextet>)
    requires |vs| < 4
    ensures FromSextets(vs).Some? <==> ZeroTail(vs)
  {
  }

  lemma {:induction false} FromSextetsIffZeroTail(vs: seq<Sextet>)
    ensures FromSextets(vs).Some? <==> ZeroTail(vs)
    decreases |vs|
  {
    if |vs| < 4 {
      ShortIffZeroTail(vs);
    } else {
      FromSextetsIffZeroTail(vs[4..]);
      ZeroTailPastBlock(vs);
      assert FromSextets(vs).Some? <==> FromSextets(vs[4..]).Some?;
    }
  }

  // ----- strings -----

  function Encode(data: seq<Byte>): string { Spell(ToSextets(data)) }

  function Decode(s: string): Option<seq<Byte>> { if AllDigits(s) then FromSextets(Values(s)) else None }

  /** The canonical strings: digits only, no lone last digit, unused bits of the last digit zero. */
  ghost predicate Canonical(s: string) { AllDigits(s) && ZeroTail(Values(s)) }

  /** Decoding and encoding are exact inverses, and the accepted strings are the canonical ones. */
  lemma Base64UrlIsExact(s: string, data: seq<Byte>)
    ensures Decode(s) == Some(data) <==> s == Encode(data)
    ensures Decode(s).Some? <==> Canonical(s)
  {
    SpellAndValuesAreInverse(ToSextets(data), s);
    FromInvertsTo(data);
    if AllDigits(s) {
      FromSextetsIffZeroTail(Values(s));
      if Decode(s).Some? {
        ToInvertsFrom(Values(s));
      }
    }
  }

  // ----- the encoding as RFC 4648 defines it: one stream of bits, cut into sixes -----

  // Both cuts fall on even bit positions, so the stream is read two bits at a time.

  function PairsOfByte(x: Byte): seq<int> { [x / 64, x / 16 % 4, x / 4 % 4, x % 4] }

  function PairsOfSextet(v: Sextet): seq<int> { [v / 16, v / 4 % 4, v % 4] }

  ghost function ByteStream(data: seq<Byte>): seq<int> {
    if data == [] then [] else PairsOfByte(data[0]) + ByteStream(data[1..])
  }

  ghost function SextetStream(vs: seq<Sextet>): seq<int> {
    if vs == [] then [] else PairsOfSextet(vs[0]) + SextetStream(vs[1..])
  }

  lemma PairsOfSum(p: int, q: int, r: int)
    requires 0 <= p < 4 && 0 <= q < 4 && 0 <= r < 4
    ensures PairsOfSextet(16 * p + 4 * q + r) == [p, q, r]
  {
  }

  lemma ByteIsSumOfPairs(x: Byte)
    ensures x / 16 == 4 * (x / 64) + x / 16 % 4
    ensures x / 4 == 16 * (x / 64) + 4 * (x / 16 % 4) + x / 4 % 4
    ensures x % 16 == 4 * (x / 4 % 4) + x % 4
    ensures x % 64 == 16 * (x / 16 % 4) + 4 * (x / 4 % 4) + x % 4
  {
    assert x / 16 / 4 == x / 64;
    assert x / 4 / 4 == x / 16;
  }

  lemma PairsOfBlock(a: Byte, b: Byte, c: Byte)
    ensures PairsOfSextet(First(a)) == [a / 64, a / 16 % 4, a / 4 % 4]
    ensures PairsOfSextet(Second(a, b)) == [a % 4, b / 64, b / 16 % 4]
    ensures PairsOfSextet(Third(b, c)) == [b / 4 % 4, b % 4, c / 64]
    ensures PairsOfSextet(Fourth(c)) == [c / 16 % 4, c / 4 % 4, c % 4]
  {
    ByteIsSumOfPairs(a);
    ByteIsSumOfPairs(b);
    ByteIsSumOfPairs(c);
    PairsOfSum(a / 64, a / 16 % 4, a / 4 % 4);
    PairsOfSum(a % 4, b / 64, b / 16 % 4);
    PairsOfSum(b / 4 % 4, b % 4, c / 64);
    PairsOfSum(c / 16 % 4, c / 4 % 4, c % 4);
  }

  lemma {:induction false} StreamConcat(vs: seq<Sextet>, ws: seq<Sextet>)
    ensures SextetStream(vs + ws) == SextetStream(vs) + SextetStream(ws)
  {
    if vs == [] {
      assert vs + ws == ws;
    } else {
      assert (vs + ws)[1..] == vs[1..] + ws;
      StreamConcat(vs[1..], ws);
    }
  }

  lemma {:induction false} BytesConcat(xs: seq<Byte>, ys: seq<Byte>)
    ensures ByteStream(xs + ys) == ByteStream(xs) + ByteStream(ys)
  {
    if xs == [] {
      assert xs + ys == ys;
    } else {
      assert (xs + ys)[1..] == xs[1..] + ys;
      BytesConcat(xs[1..], ys);
    }
  }

  lemma StreamOfOne(v: Sextet, x: Byte)
    ensures SextetStream([v]) == PairsOfSextet(v)
    ensures ByteStream([x]) == PairsOfByte(x)
  {
    assert SextetStream([v]) == PairsOfSextet(v) + SextetStream([]);
    assert ByteStream([x]) == PairsOfByte(x) + ByteStream([]);
  }

  lemma StreamOfBlock(v: Sextet, w: Sextet, x: Sextet, y: Sextet, a: Byte, b: Byte, c: Byte)
    ensures SextetStream([v, w]) == PairsOfSextet(v) + PairsOfSextet(w)
    ensures SextetStream([v, w, x]) == PairsOfSextet(v) + PairsOfSextet(w) + PairsOfSextet(x)
    ensures SextetStream([v, w, x, y]) == PairsOfSextet(v) + PairsOfSextet(w) + PairsOfSextet(x) + PairsOfSextet(y)
    ensures ByteStream([a, b]) == PairsOfByte(a) + PairsOfByte(b)
    ensures ByteStream([a, b, c]) == PairsOfByte(a) + PairsOfByte(b) + PairsOfByte(c)
  {
    StreamOfOne(v, a);
    StreamOfOne(w, b);
    StreamOfOne(x, c);
    StreamOfOne(y, c);
    StreamConcat([v], [w]);
    StreamConcat([v, w], [x]);
    StreamConcat([v, w, x], [y]);
    BytesConcat([a], [b]);
    BytesConcat([a, b], [c]);
    assert [v] + [w] == [v, w] && [v, w] + [x] == [v, w, x] && [v, w, x] + [y] == [v, w, x, y];
    assert [a] + [b] == [a, b] && [a, b] + [c] == [a, b, c];
  }

  ghost function Padding(data: seq<Byte>): seq<int> { seq((3 - |data| % 3) % 3, _ => 0) }

  lemma StreamOfTwoSextets(v: Sextet, w: Sextet)
    ensures SextetStream([v, w]) == PairsOfSextet(v) + PairsOfSextet(w)
  {
    assert [v, w][1..] == [w] && [w][1..] == [];
    assert SextetStream([w]) == PairsOfSextet(w) + SextetStream([]);
  }

  lemma OneByteStream(a: Byte, v: Sextet, w: Sextet)
    requires PairsOfSextet(v) == [a / 64, a / 16 % 4, a / 4 % 4] && PairsOfSextet(w) == [a % 4, 0, 0]
    ensures SextetStream([v, w]) == ByteStream([a]) + Padding([a])
  {
    StreamOfTwoSextets(v, w);
    StreamOfOne(v, a);
    assert Padding([a]) == [0, 0];
  }

  lemma OneSpellsTheBits(a: Byte)
    ensures SextetStream(ToSextets([a])) == ByteStream([a]) + Padding([a])
  {
    ByteIsSumOfPairs(a);
    PairsOfSum(a / 64, a / 16 % 4, a / 4 % 4);
    PairsOfSum(a % 4, 0, 0);
    OneByteStream(a, First(a), Second(a, 0));
  }

  lemma TwoSpellTheBits(a: Byte, b: Byte)
    ensures SextetStream(ToSextets([a, b])) == ByteStream([a, b]) + Padding([a, b])
  {
    PairsOfBlock(a, b, 0);
    StreamOfBlock(First(a), Second(a, b), Third(b, 0), 0, a, b, 0);
  }

  lemma BlockSpellsTheBits(a: Byte, b: Byte, c: Byte)
    ensures SextetStream([First(a), Second(a, b), Third(b, c), Fourth(c)]) == ByteStream([a, b, c])
  {
    PairsOfBlock(a, b, c);
    StreamOfBlock(First(a), Second(a, b), Third(b, c), Fourth(c), a, b, c);
  }

  lemma ToSextetsOfBlock(a: Byte, b: Byte, c: Byte, rest: seq<Byte>) returns (block: seq<Sextet>)
    ensures ToSextets([a, b, c] + rest) == block + ToSextets(rest)
    ensures SextetStream(block) == ByteStream([a, b, c])
  {
    block := [First(a), Second(a, b), Third(b, c), Fourth(c)];
    assert ([a, b, c] + rest)[3..] == rest;
    BlockSpellsTheBits(a, b, c);
  }

  lemma SamePadding(xs: seq<Byte>, ys: seq<Byte>)
    requires |xs| == |ys| + 3
    ensures Padding(xs) == Padding(ys)
  {
    assert |xs| % 3 == |ys| % 3;
    assert |Padding(xs)| == |Padding(ys)|;
  }

  lemma BlockThenRest(a: Byte, b: Byte, c: Byte, rest: seq<Byte>)
    requires SextetStream(ToSextets(rest)) == ByteStream(rest) + Padding(rest)
    ensures SextetStream(ToSextets([a, b, c] + rest)) == ByteStream([a, b, c] + rest) + Padding([a, b, c] + rest)
  {
    var block := ToSextetsOfBlock(a, b, c, rest);
    StreamConcat(block, ToSextets(rest));
    BytesConcat([a, b, c], rest);
    SamePadding([a, b, c] + rest, rest);
  }

  /** The sextets spell the bytes' bits, followed by the fewest zero bits that fill the last sextet. */
  lemma {:induction false} SextetsSpellTheBits(data: seq<Byte>)
    ensures SextetStream(ToSextets(data)) == ByteStream(data) + Padding(data)
  {
    if |data| == 1 {
      OneSpellsTheBits(data[0]);
      assert data == [data[0]];
    } else if |data| == 2 {
      TwoSpellTheBits(data[0], data[1]);
      assert data == [data[0], data[1]];
    } else if |data| >= 3 {
      SextetsSpellTheBits(data[3..]);
      BlockThenRest(data[0], data[1], data[2], data[3..]);
      assert data == [data[0], data[1], data[2]] + data[3..];
    }
  }
}
