/** The binary message that carries a piece of a file: four bytes of length, the file id in UTF-8, the data.
    A string is its UTF-8 encoding here. */
module ChunkCodec {
  import opened Base
  import opened Splitting

  type Byte = n: nat | n < 256
  type Bytes = seq<Byte>

  const LEN_SIZE: nat := 4
  const U32_RANGE: nat := 0x1_0000_0000

  // ----- Lengths

  function ToLeBytes(n: nat): (r: Bytes)
    requires n < U32_RANGE
    ensures |r| == LEN_SIZE
  {
    [n % 256, n / 256 % 256, n / 65536 % 256, n / 16777216 % 256]
  }

  function FromLeBytes(b: Bytes): (n: nat)
    requires |b| == LEN_SIZE
    ensures n < U32_RANGE
  {
    var b0: int, b1: int, b2: int, b3: int := b[0], b[1], b[2], b[3];
    b0 + 256 * b1 + 65536 * b2 + 16777216 * b3
  }

  lemma LengthRoundTrip(n: nat)
    requires n < U32_RANGE
    ensures FromLeBytes(ToLeBytes(n)) == n
  {
    var q1, q2, q3 := n / 256, n / 65536, n / 16777216;
    assert n == 256 * q1 + n % 256;
    assert q2 == q1 / 256 && q1 == 256 * q2 + q1 % 256;
    assert q3 == q2 / 256 && q2 == 256 * q3 + q2 % 256;
    assert q3 < 256;
  }

  lemma LengthBytesRoundTrip(b: Bytes)
    requires |b| == LEN_SIZE
    ensures ToLeBytes(FromLeBytes(b)) == b
  {
    var n: int := FromLeBytes(b);
    var b0: int, b1: int, b2: int, b3: int := b[0], b[1], b[2], b[3];
    var q1: int := b1 + 256 * b2 + 65536 * b3;
    var q2: int := b2 + 256 * b3;
    assert n == 256 * q1 + b0 && n / 256 == q1;
    assert q1 == 256 * q2 + b1 && q1 / 256 == q2;
    assert n / 65536 == q2 && q2 / 256 == b3 && n / 16777216 == b3;
  }

  // ----- UTF-8, as in section 4 of RFC 3629

  predicate Tail(b: Byte) {
    0x80 <= b <= 0xBF
  }

  /** The length of the well-formed sequence at the front, or 0. */
  function FrontLength(s: Bytes): (n: nat)
    ensures n <= |s|
  {
    if |s| >= 1 && s[0] < 0x80 then 1
    else if |s| >= 2 && 0xC2 <= s[0] <= 0xDF && Tail(s[1]) then 2
    else if |s| >= 3 && 0xE0 <= s[0] <= 0xEF && Tail(s[1]) && Tail(s[2])
            && (s[0] == 0xE0 ==> s[1] >= 0xA0) && (s[0] == 0xED ==> s[1] <= 0x9F) then 3
    else if |s| >= 4 && 0xF0 <= s[0] <= 0xF4 && Tail(s[1]) && Tail(s[2]) && Tail(s[3])
            && (s[0] == 0xF0 ==> s[1] >= 0x90) && (s[0] == 0xF4 ==> s[1] <= 0x8F) then 4
    else 0
  }

  predicate Utf8(s: Bytes)
    decreases |s|
  {
    s == [] || (FrontLength(s) > 0 && Utf8(s[FrontLength(s)..]))
  }

  /** A character: a number up to 0x10FFFF that is no surrogate. */
  predicate Scalar(n: nat) {
    n < 0xD800 || 0xE000 <= n <= 0x10FFFF
  }

  /** Its bytes, six bits in each that follows the first. */
  function ScalarBytes(n: nat): Bytes
    requires Scalar(n)
  {
    if n < 0x80 then [n]
    else if n < 0x800 then [0xC0 + n / 64, 0x80 + n % 64]
    else if n < 0x10000 then [0xE0 + n / 4096, 0x80 + n / 64 % 64, 0x80 + n % 64]
    else [0xF0 + n / 262144, 0x80 + n / 4096 % 64, 0x80 + n / 64 % 64, 0x80 + n % 64]
  }

  lemma SplitSix(n: nat)
    ensures n == 64 * (n / 64) + n % 64
    ensures n / 64 == 64 * (n / 4096) + n / 64 % 64
    ensures n / 4096 == 64 * (n / 262144) + n / 4096 % 64
  {
    var a, b := n / 64, n / 4096;
    assert b == a / 64 && n / 262144 == b / 64;
  }

  /** The bytes of every character are accepted as one. */
  lemma ScalarIsFront(n: nat, rest: Bytes)
    requires Scalar(n)
    ensures FrontLength(ScalarBytes(n) + rest) == |ScalarBytes(n)|
  {
    SplitSix(n);
  }

  /** What is accepted is the bytes of some character. */
  lemma FrontIsScalar(s: Bytes) returns (n: nat)
    requires FrontLength(s) > 0
    ensures Scalar(n) && s[..FrontLength(s)] == ScalarBytes(n)
  {
    var k := FrontLength(s);
    var b0: int := s[0];
    if k == 1 {
      n := b0;
    } else if k == 2 {
      n := TwoBytes(s);
    } else if k == 3 {
      n := ThreeBytes(s);
    } else {
      n := FourBytes(s);
    }
  }

  lemma TwoBytes(s: Bytes) returns (n: nat)
    requires FrontLength(s) == 2
    ensures Scalar(n) && s[..2] == ScalarBytes(n)
  {
    var b0: int, b1: int := s[0], s[1];
    n := 64 * (b0 - 0xC0) + (b1 - 0x80);
    assert n / 64 == b0 - 0xC0 && n % 64 == b1 - 0x80;
  }

  lemma ThreeBytes(s: Bytes) returns (n: nat)
    requires FrontLength(s) == 3
    ensures Scalar(n) && s[..3] == ScalarBytes(n)
  {
    var b0: int, b1: int, b2: int := s[0], s[1], s[2];
    n := 4096 * (b0 - 0xE0) + 64 * (b1 - 0x80) + (b2 - 0x80);
    assert n / 64 == 64 * (b0 - 0xE0) + (b1 - 0x80) && n % 64 == b2 - 0x80;
    assert n / 4096 == b0 - 0xE0 && n / 64 % 64 == b1 - 0x80;
  }

  lemma FourBytes(s: Bytes) returns (n: nat)
    requires FrontLength(s) == 4
    ensures Scalar(n) && s[..4] == ScalarBytes(n)
  {
    var b0: int, b1: int, b2: int, b3: int := s[0], s[1], s[2], s[3];
    n := 262144 * (b0 - 0xF0) + 4096 * (b1 - 0x80) + 64 * (b2 - 0x80) + (b3 - 0x80);
    var m := 4096 * (b0 - 0xF0) + 64 * (b1 - 0x80) + (b2 - 0x80);
    assert n / 64 == m && n % 64 == b3 - 0x80;
    assert m / 64 == 64 * (b0 - 0xF0) + (b1 - 0x80) && m % 64 == b2 - 0x80;
    assert n / 4096 == m / 64 && m / 64 % 64 == b1 - 0x80 && n / 262144 == b0 - 0xF0;
  }

  function TextBytes(text: seq<nat>): Bytes
    requires forall i :: 0 <= i < |text| ==> Scalar(text[i])
  {
    if text == [] then [] else ScalarBytes(text[0]) + TextBytes(text[1..])
  }

  ghost predicate SpellsText(s: Bytes) {
    exists text: seq<nat> :: (forall i :: 0 <= i < |text| ==> Scalar(text[i])) && s == TextBytes(text)
  }

  lemma {:induction false} TextIsUtf8(text: seq<nat>)
    requires forall i :: 0 <= i < |text| ==> Scalar(text[i])
    ensures Utf8(TextBytes(text))
  {
    if text != [] {
      TextIsUtf8(text[1..]);
      var head, rest := ScalarBytes(text[0]), TextBytes(text[1..]);
      ScalarIsFront(text[0], rest);
      assert (head + rest)[|head|..] == rest;
    }
  }

  lemma {:induction false} Utf8IsText(s: Bytes) returns (text: seq<nat>)
    requires Utf8(s)
    ensures (forall i :: 0 <= i < |text| ==> Scalar(text[i])) && s == TextBytes(text)
    decreases |s|
  {
    if s == [] {
      text := [];
    } else {
      var n := FrontIsScalar(s);
      var rest := Utf8IsText(s[FrontLength(s)..]);
      text := [n] + rest;
      assert text[1..] == rest;
    }
  }

  /** Exactly the bytes that spell out a text are accepted as one. */
  lemma Utf8Iff(s: Bytes)
    ensures Utf8(s) <==> SpellsText(s)
  {
    if Utf8(s) {
      var text := Utf8IsText(s);
    }
    if SpellsText(s) {
      var text: seq<nat> :| (forall i :: 0 <= i < |text| ==> Scalar(text[i])) && s == TextBytes(text);
      TextIsUtf8(text);
    }
  }

  // ----- Chunks

  datatype Chunk = Chunk(file: Bytes, data: Bytes)

  /** `encode`: the length is cut to 32 bits. */
  function Encode(c: Chunk): Bytes {
    ToLeBytes(|c.file| % U32_RANGE) + c.file + c.data
  }

  /** The chunk of a message whose data starts at `idEnd`. */
  function DecodedAt(msg: Bytes, idEnd: nat): Option<Chunk> {
    if |msg| <= idEnd then None
    else
      var id := if idEnd < LEN_SIZE then [] else msg[LEN_SIZE..idEnd];
      if Utf8(id) then Some(Chunk(id, msg[idEnd..])) else None
  }

  function IdEnd(msg: Bytes): nat
    requires |msg| > LEN_SIZE
  {
    FromLeBytes(msg[..LEN_SIZE]) + LEN_SIZE
  }

  function Decoded(msg: Bytes): Option<Chunk> {
    if |msg| <= LEN_SIZE then None else DecodedAt(msg, IdEnd(msg))
  }

  /** `decode` on a machine whose words hold numbers below `word`: the sum that locates the data may wrap. */
  function DecodedOn(msg: Bytes, word: nat): Option<Chunk>
    requires word >= U32_RANGE
  {
    if |msg| <= LEN_SIZE then None else DecodedAt(msg, IdEnd(msg) % word)
  }

  /** `decode`: the length and the id are drained from the front of the message, what remains is the data. */
  method Decode(message: Bytes, word: nat) returns (r: Option<Chunk>)
    requires word >= U32_RANGE
    ensures r == DecodedOn(message, word)
    ensures r.Some? ==> r.value.data != [] && Utf8(r.value.file)
  {
    var msg := message;
    if |msg| <= LEN_SIZE {
      return None;
    }
    var len := FromLeBytes(msg[..LEN_SIZE]);
    var idEnd := (len + LEN_SIZE) % word;
    if |msg| <= idEnd {
      return None;
    }
    var drained := msg[..idEnd];
    msg := msg[idEnd..];
    var file := if |drained| < LEN_SIZE then [] else drained[LEN_SIZE..];
    assert idEnd >= LEN_SIZE ==> file == message[LEN_SIZE..idEnd];
    if !Utf8(file) {
      return None;
    }
    return Some(Chunk(file, msg));
  }

  lemma Wraps(sum: nat, word: nat)
    requires 0 < word && sum < 2 * word
    ensures sum % word == if sum < word then sum else sum - word
  {
  }

  /** Data that starts inside the length field belongs to no chunk with an id. */
  lemma WrappedDiffers(msg: Bytes, near: nat, far: nat)
    requires |msg| > LEN_SIZE > near && far > LEN_SIZE
    ensures DecodedAt(msg, near) != DecodedAt(msg, far)
  {
    assert DecodedAt(msg, near).Some? && DecodedAt(msg, near).value.file == [];
    if |msg| > far {
      assert |msg[LEN_SIZE..far]| > 0;
    }
  }

  /** The word size shows exactly when the sum wraps; with words of more than 32 bits it never does. */
  lemma WordShowsIff(msg: Bytes, word: nat)
    requires word >= U32_RANGE
    ensures DecodedOn(msg, word) == Decoded(msg) <==> |msg| <= LEN_SIZE || IdEnd(msg) < word
    ensures word >= U32_RANGE + LEN_SIZE ==> DecodedOn(msg, word) == Decoded(msg)
  {
    if |msg| > LEN_SIZE {
      Wraps(IdEnd(msg), word);
      if IdEnd(msg) >= word {
        WrappedDiffers(msg, IdEnd(msg) - word, IdEnd(msg));
      }
    }
  }

  /** Decoding an encoded chunk gives it back exactly when it carries data and its id fits the length field. */
  lemma DecodeUndoesEncode(c: Chunk)
    requires Utf8(c.file)
    ensures Decoded(Encode(c)) == Some(c) <==> c.data != [] && |c.file| < U32_RANGE
  {
    var len := |c.file| % U32_RANGE;
    var msg := Encode(c);
    LengthRoundTrip(len);
    assert msg[..LEN_SIZE] == ToLeBytes(len);
    if |c.file| < U32_RANGE {
      assert msg[LEN_SIZE..len + LEN_SIZE] == c.file;
      assert msg[len + LEN_SIZE..] == c.data;
    }
  }

  /** Every message that is accepted is the encoding of the chunk it gives, which is never empty. */
  lemma EncodeUndoesDecode(msg: Bytes)
    requires Decoded(msg).Some?
    ensures Encode(Decoded(msg).value) == msg
    ensures Decoded(msg).value.data != [] && |Decoded(msg).value.file| < U32_RANGE
  {
    var len := FromLeBytes(msg[..LEN_SIZE]);
    LengthBytesRoundTrip(msg[..LEN_SIZE]);
    Wraps(len, U32_RANGE);
    Reassembles(msg, IdEnd(msg));
    assert Decoded(msg).value == Chunk(msg[LEN_SIZE..IdEnd(msg)], msg[IdEnd(msg)..]);
    assert |msg[LEN_SIZE..IdEnd(msg)]| == len;
  }

  lemma Reassembles(msg: Bytes, k: nat)
    requires LEN_SIZE <= k <= |msg|
    ensures msg[..LEN_SIZE] + msg[LEN_SIZE..k] + msg[k..] == msg
  {
  }

  /** The number that four bytes stand for, the least significant one first. */
  function Spelled(b0: int, b1: int, b2: int, b3: int): int {
    b0 + 256 * b1 + 65536 * b2 + 16777216 * b3
  }

  /** The layout on the wire: the length of the id with its least significant byte first, the id, the data. */
  lemma Layout(c: Chunk)
    requires |c.file| < U32_RANGE
    ensures var msg, n := Encode(c), |c.file|;
            && |msg| == 4 + n + |c.data| && Spelled(msg[0], msg[1], msg[2], msg[3]) == n
            && msg[4..4 + n] == c.file && msg[4 + n..] == c.data
  {
    var bytes := ToLeBytes(|c.file|);
    LengthBytesAre(|c.file|);
    EncodesIn(c);
    InThree(bytes, c.file, c.data);
  }

  lemma EncodesIn(c: Chunk)
    requires |c.file| < U32_RANGE
    ensures Encode(c) == ToLeBytes(|c.file|) + c.file + c.data
  {
  }

  lemma LengthBytesAre(n: nat)
    requires n < U32_RANGE
    ensures var b := ToLeBytes(n); Spelled(b[0], b[1], b[2], b[3]) == n
  {
    LengthRoundTrip(n);
  }

  lemma InThree(a: Bytes, b: Bytes, c: Bytes)
    ensures var s := a + b + c;
            && |s| == |a| + |b| + |c| && s[|a|..|a| + |b|] == b && s[|a| + |b|..] == c
            && forall i :: 0 <= i < |a| ==> s[i] == a[i]
  {
  }

  // ----- Subpaths as ids

  /** The separator is a byte of its own in UTF-8: it never occurs inside another character. */
  const SEPARATOR: Byte := 0x2F

  /** A chunk addressed by subpath survives exactly when, on top of that, it carries data and its joined path
      fits the length field. */
  lemma SubPathChunkRoundTrip(parts: seq<Bytes>, data: Bytes)
    requires Utf8(Join(parts, SEPARATOR))
    ensures var r := Decoded(Encode(Chunk(Join(parts, SEPARATOR), data)));
            (r.Some? && Split(r.value.file, SEPARATOR) == parts && r.value.data == data)
            <==> Separable(parts, SEPARATOR) && data != [] && |Join(parts, SEPARATOR)| < U32_RANGE
  {
    var c := Chunk(Join(parts, SEPARATOR), data);
    DecodeUndoesEncode(c);
    SplitUndoesJoin(parts, SEPARATOR);
    var r := Decoded(Encode(c));
    if r.Some? && Split(r.value.file, SEPARATOR) == parts {
      JoinUndoesSplit(r.value.file, SEPARATOR);
    }
  }
}
