/** Lowercase base16 (section 8 of RFC 4648) and the node ids in Doc keys. */
module Hex {
  import opened Wrappers
  import opened Entries

  type Nibble = v: int | 0 <= v < 16

  function Digit(v: Nibble): char {
    if v < 10 then ('0' as int + v) as char else ('a' as int + v - 10) as char
  }

  predicate IsDigit(c: char) { '0' <= c <= '9' || 'a' <= c <= 'f' }

  function Value(c: char): Nibble
    requires IsDigit(c)
  {
    if '0' <= c <= '9' then c as int - '0' as int else c as int - 'a' as int + 10
  }

  lemma DigitAndValueAreInverse(v: Nibble, c: char)
    ensures IsDigit(Digit(v)) && Value(Digit(v)) == v
    ensures IsDigit(c) ==> Digit(Value(c)) == c
  {
  }

  /** Table 5 of RFC 4648, in lower case. */
  const ALPHABET := "0123456789abcdef"

  lemma DigitsFollowTheTable(v: Nibble, c: char)
    ensures |ALPHABET| == 16 && Digit(v) == ALPHABET[v]
    ensures IsDigit(c) <==> c in ALPHABET
  {
    assert IsDigit(c) ==> c == ALPHABET[Value(c)];
  }

  function Encode(data: seq<Byte>): string {
    if data == [] then "" else [Digit(data[0] / 16), Digit(data[0] % 16)] + Encode(data[1..])
  }

  function Decode(s: string): Option<seq<Byte>> {
    if s == "" then Some([])
    else if |s| == 1 || !IsDigit(s[0]) || !IsDigit(s[1]) then None
    else match Decode(s[2..])
      case None => None
      case Some(rest) => Some([Value(s[0]) * 16 + Value(s[1])] + rest)
  }

  lemma {:induction false} DecodeInvertsEncode(data: seq<Byte>)
    ensures Decode(Encode(data)) == Some(data)
  {
    if data != [] {
      DecodeInvertsEncode(data[1..]);
      DigitAndValueAreInverse(data[0] / 16, ' ');
      DigitAndValueAreInverse(data[0] % 16, ' ');
      assert Encode(data)[2..] == Encode(data[1..]);
      assert data == [data[0]] + data[1..];
    }
  }

  lemma {:induction false} EncodeInvertsDecode(s: string)
    requires Decode(s).Some?
    ensures Encode(Decode(s).value) == s
    decreases |s|
  {
    if s != "" {
      EncodeInvertsDecode(s[2..]);
      var data := Decode(s).value;
      assert data[1..] == Decode(s[2..]).value;
      assert data[0] / 16 == Value(s[0]) && data[0] % 16 == Value(s[1]);
      DigitAndValueAreInverse(0, s[0]);
      DigitAndValueAreInverse(0, s[1]);
    }
  }

  ghost predicate Ascii(s: string) { forall k :: 0 <= k < |s| ==> s[k] < 128 as char }

  lemma {:induction false} EncodingIsAscii(data: seq<Byte>)
    ensures Ascii(Encode(data))
  {
    if data != [] {
      EncodingIsAscii(data[1..]);
    }
  }

  // A Doc key is a byte string, written here with one character for each byte.
  const KEY_PREFIX := "satellite/"

  function KeyOf(node: NodeId): string { KEY_PREFIX + Encode(node) }

  function StripPrefix(key: string): Option<string> {
    if KEY_PREFIX <= key then Some(key[|KEY_PREFIX|..]) else None
  }

  /** `parse_node_id_from_hex`; `valid` stands for the curve's own check of a public key. */
  function ParseNodeId(valid: NodeId -> bool, hex: string): Option<NodeId> {
    match Decode(hex)
    case None => None
    case Some(data) => if |data| == 32 && valid(data) then Some(data) else None
  }

  function PeerOfKey(valid: NodeId -> bool, key: string): Option<NodeId> {
    match StripPrefix(key)
    case None => None
    case Some(hex) => ParseNodeId(valid, hex)
  }

  /** A key names a peer exactly when it is that peer's own key: no second spelling is accepted. */
  lemma PeerOfKeyIsExact(valid: NodeId -> bool, key: string, node: NodeId)
    ensures PeerOfKey(valid, key) == Some(node) <==> |node| == 32 && valid(node) && key == KeyOf(node)
  {
    DecodeInvertsEncode(node);
    if KEY_PREFIX <= key {
      var hex := key[|KEY_PREFIX|..];
      assert key == KEY_PREFIX + hex;
      if Decode(hex).Some? {
        EncodeInvertsDecode(hex);
      }
    }
    if key == KeyOf(node) {
      assert key[|KEY_PREFIX|..] == Encode(node);
    }
  }
}
