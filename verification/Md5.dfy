/** The streaming MD5 hasher (core/src/md5.cpp) against RFC 1321. */
module Md5 {
  import opened Word32

  type Byte = bv8

  datatype State = State(a: Word, b: Word, c: Word, d: Word)

  /** Section 3.3 of RFC 1321. */
  const INITIAL := State(0x67452301, 0xefcdab89, 0x98badcfe, 0x10325476)

  /** Section 3.4's table, a round to a row. */
  const SINES: seq<seq<Word>> := [
    [0xd76aa478, 0xe8c7b756, 0x242070db, 0xc1bdceee, 0xf57c0faf, 0x4787c62a, 0xa8304613, 0xfd469501,
     0x698098d8, 0x8b44f7af, 0xffff5bb1, 0x895cd7be, 0x6b901122, 0xfd987193, 0xa679438e, 0x49b40821],
    [0xf61e2562, 0xc040b340, 0x265e5a51, 0xe9b6c7aa, 0xd62f105d, 0x02441453, 0xd8a1e681, 0xe7d3fbc8,
     0x21e1cde6, 0xc33707d6, 0xf4d50d87, 0x455a14ed, 0xa9e3e905, 0xfcefa3f8, 0x676f02d9, 0x8d2a4c8a],
    [0xfffa3942, 0x8771f681, 0x6d9d6122, 0xfde5380c, 0xa4beea44, 0x4bdecfa9, 0xf6bb4b60, 0xbebfbc70,
     0x289b7ec6, 0xeaa127fa, 0xd4ef3085, 0x04881d05, 0xd9d4d039, 0xe6db99e5, 0x1fa27cf8, 0xc4ac5665],
    [0xf4292244, 0x432aff97, 0xab9423a7, 0xfc93a039, 0x655b59c3, 0x8f0ccc92, 0xffeff47d, 0x85845dd1,
     0x6fa87e4f, 0xfe2ce6e0, 0xa3014314, 0x4e0811a1, 0xf7537e82, 0xbd3af235, 0x2ad7d2bb, 0xeb86d391]]

  /** The program's own table of rotations, a round to a row. */
  const SHIFTS: seq<seq<nat>> := [
    [7, 12, 17, 22, 7, 12, 17, 22, 7, 12, 17, 22, 7, 12, 17, 22],
    [5, 9, 14, 20, 5, 9, 14, 20, 5, 9, 14, 20, 5, 9, 14, 20],
    [4, 11, 16, 23, 4, 11, 16, 23, 4, 11, 16, 23, 4, 11, 16, 23],
    [6, 10, 15, 21, 6, 10, 15, 21, 6, 10, 15, 21, 6, 10, 15, 21]]

  // ----- The standard's rounds, as section 3.4 writes them out -----

  /** Which word each of a round's sixteen operations takes, in the order the standard lists them. */
  const ROUND_WORDS: seq<seq<nat>> := [
    [0, 1, 2, 3, 4, 5, 6, 7, 8, 9, 10, 11, 12, 13, 14, 15],
    [1, 6, 11, 0, 5, 10, 15, 4, 9, 14, 3, 8, 13, 2, 7, 12],
    [5, 8, 11, 14, 1, 4, 7, 10, 13, 0, 3, 6, 9, 12, 15, 2],
    [0, 7, 14, 5, 12, 3, 10, 1, 8, 15, 6, 13, 4, 11, 2, 9]]

  /** Each round's four rotations, which it goes through four times. */
  const ROUND_SHIFTS: seq<seq<nat>> := [[7, 12, 17, 22], [5, 9, 14, 20], [4, 11, 16, 23], [6, 10, 15, 21]]

  /** `[abcd k s i]`: a = b + ((a + Mix(b, c, d) + X[k] + T[i]) <<< s). */
  function Operation(round: nat, a: Word, b: Word, c: Word, d: Word, x: Word, s: nat, t: Word): Word
    requires round < 4 && s <= 32
  {
    Plus(b, RotateLeft(Sum4(a, Mix(round, b, c, d), x, t), s))
  }

  function SineAt(i: nat): Word
    requires i < 64
  {
    SINES[i / 16][i % 16]
  }

  /** The registers after the first `n` of the 64 operations; each writes one register, and the
      letters move round one place from each operation to the next: ABCD, DABC, CDAB, BCDA. */
  function Operations(s: State, words: seq<Word>, n: nat): State
    requires |words| == 16 && n <= 64
  {
    if n == 0 then s
    else
      var r, round := Operations(s, words, n - 1), (n - 1) / 16;
      var x, turn, t := words[WordAt(n - 1)], ShiftAt(n - 1), SineAt(n - 1);
      match (n - 1) % 4
      case 0 => r.(a := Operation(round, r.a, r.b, r.c, r.d, x, turn, t))
      case 1 => r.(d := Operation(round, r.d, r.a, r.b, r.c, x, turn, t))
      case 2 => r.(c := Operation(round, r.c, r.d, r.a, r.b, x, turn, t))
      case _ => r.(b := Operation(round, r.b, r.c, r.d, r.a, x, turn, t))
  }

  function WordAt(i: nat): (k: nat)
    requires i < 64
    ensures k < 16
  {
    var round := ROUND_WORDS[i / 16];
    var k := round[i % 16];
    assert forall j :: 0 <= j < 16 ==> ROUND_WORDS[0][j] < 16 && ROUND_WORDS[1][j] < 16 && ROUND_WORDS[2][j] < 16 && ROUND_WORDS[3][j] < 16;
    k
  }

  function ShiftAt(i: nat): (s: nat)
    requires i < 64
    ensures s <= 32
  {
    ROUND_SHIFTS[i / 16][i % 4]
  }

  /** Section 3.4: one block of sixteen words. */
  function Block(s: State, words: seq<Word>): State
    requires |words| == 16
  {
    var r := Operations(s, words, 64);
    State(Plus(s.a, r.a), Plus(s.b, r.b), Plus(s.c, r.c), Plus(s.d, r.d))
  }

  /** Four bytes as a word, low-order byte first. */
  function WordOf(b0: Byte, b1: Byte, b2: Byte, b3: Byte): Word {
    (b0 as Word) | (b1 as Word << 8) | (b2 as Word << 16) | (b3 as Word << 24)
  }

  function WordsOf(block: seq<Byte>): (r: seq<Word>)
    requires |block| == 64
    ensures |r| == 16
  {
    seq(16, i requires 0 <= i < 16 => WordOf(block[4 * i], block[4 * i + 1], block[4 * i + 2], block[4 * i + 3]))
  }

  /** Every block of a text that is a whole number of them. */
  function Fold(text: seq<Byte>): State
    requires |text| % 64 == 0
  {
    if |text| == 0 then INITIAL
    else Block(Fold(text[..|text| - 64]), WordsOf(text[|text| - 64..]))
  }

  /** The `k`th byte of `n`, low-order first. */
  function LengthByte(n: nat, k: nat): Byte
  {
    ((n / Power256(k)) % 256) as Byte
  }

  function Power256(k: nat): (p: nat)
    ensures p > 0
  {
    if k == 0 then 1 else 256 * Power256(k - 1)
  }

  const TWO64: nat := 0x1_0000_0000_0000_0000

  /** Section 3.2: the length in bits as eight bytes, of its low-order 64 bits. */
  function LengthBytes(bytes: nat): (r: seq<Byte>)
    ensures |r| == 8
  {
    var bits := bytes * 8 % TWO64;
    seq(8, k requires 0 <= k < 8 => LengthByte(bits, k))
  }

  /** Section 3.1: a one bit and as few zeros as bring the length to 56 modulo 64. */
  function Zeros(length: nat): nat { (119 - length % 64) % 64 }

  lemma PaddedLength(n: nat)
    ensures (n + 1 + Zeros(n) + 8) % 64 == 0 && Zeros(n) < 64
  {
    var q, r := n / 64, n % 64;
    assert n == 64 * q + r;
    assert Zeros(n) == if r < 56 then 55 - r else 119 - r;
    assert n + 1 + Zeros(n) + 8 == 64 * (if r < 56 then q + 1 else q + 2);
  }

  function Padded(message: seq<Byte>): (r: seq<Byte>)
    ensures |r| % 64 == 0
  {
    PaddedLength(|message|);
    message + [0x80] + seq(Zeros(|message|), i => 0) + LengthBytes(|message|)
  }

  /** Section 3.5: the four registers, low-order byte first. */
  function Output(s: State): seq<Byte> {
    WordBytes(s.a) + WordBytes(s.b) + WordBytes(s.c) + WordBytes(s.d)
  }

  function WordBytes(w: Word): seq<Byte> {
    [(w & 0xff) as Byte, ((w >> 8) & 0xff) as Byte, ((w >> 16) & 0xff) as Byte, ((w >> 24) & 0xff) as Byte]
  }

  function Digest(message: seq<Byte>): seq<Byte> { Output(Fold(Padded(message))) }

  // ----- One block, driven by tables -----

  /** The loop's word index, operation by operation. */
  function LoopWord(i: nat): (k: nat)
    requires i < 64
    ensures k < 16
  {
    if i < 16 then i else if i < 32 then (5 * i + 1) % 16 else if i < 48 then (3 * i + 5) % 16 else 7 * i % 16
  }

  lemma WordsAgree(j: nat)
    requires j < 16
    ensures ROUND_WORDS[0][j] == j && ROUND_WORDS[1][j] == (5 * (16 + j) + 1) % 16
    ensures ROUND_WORDS[2][j] == (3 * (32 + j) + 5) % 16 && ROUND_WORDS[3][j] == 7 * (48 + j) % 16
  {
    assert j == 0 || j == 1 || j == 2 || j == 3 || j == 4 || j == 5 || j == 6 || j == 7 || j == 8 || j == 9 || j == 10 || j == 11 || j == 12
           || j == 13 || j == 14 || j == 15;
  }

  lemma ShiftsAgree(j: nat)
    requires j < 16
    ensures SHIFTS[0][j] == ROUND_SHIFTS[0][j % 4] && SHIFTS[1][j] == ROUND_SHIFTS[1][j % 4]
    ensures SHIFTS[2][j] == ROUND_SHIFTS[2][j % 4] && SHIFTS[3][j] == ROUND_SHIFTS[3][j % 4]
  {
    assert j == 0 || j == 1 || j == 2 || j == 3 || j == 4 || j == 5 || j == 6 || j == 7 || j == 8 || j == 9 || j == 10 || j == 11 || j == 12
           || j == 13 || j == 14 || j == 15;
  }

  /** The loop's rotation, operation by operation. */
  function LoopShift(i: nat): nat
    requires i < 64
  {
    SHIFTS[i / 16][i % 16]
  }

  /** The loop's word index and rotation are the ones the standard lists. */
  lemma TablesAgree(i: nat)
    requires i < 64
    ensures WordAt(i) == LoopWord(i) && ShiftAt(i) == LoopShift(i)
  {
    var round, j := i / 16, i % 16;
    assert i == 16 * round + j && i % 4 == j % 4;
    WordsAgree(j);
    ShiftsAgree(j);
    assert round == 0 || round == 1 || round == 2 || round == 3;
  }

  /** The loop's four variables, which it passes round instead of the letters. */
  function Turned(r: State, n: nat): State {
    match n % 4
    case 0 => r
    case 1 => State(r.d, r.a, r.b, r.c)
    case 2 => State(r.c, r.d, r.a, r.b)
    case _ => State(r.b, r.c, r.d, r.a)
  }

  lemma OneOperation(s: State, words: seq<Word>, i: nat)
    requires |words| == 16 && i < 64
    ensures var r, x, turn, t := Operations(s, words, i), words[WordAt(i)], ShiftAt(i), SineAt(i);
            Operations(s, words, i + 1) ==
              match i % 4
              case 0 => r.(a := Operation(i / 16, r.a, r.b, r.c, r.d, x, turn, t))
              case 1 => r.(d := Operation(i / 16, r.d, r.a, r.b, r.c, x, turn, t))
              case 2 => r.(c := Operation(i / 16, r.c, r.d, r.a, r.b, x, turn, t))
              case _ => r.(b := Operation(i / 16, r.b, r.c, r.d, r.a, x, turn, t))
  {
    hide Operation, WordAt, ShiftAt, SineAt;
  }

  lemma NextOperation(s: State, words: seq<Word>, i: nat, mixed: Word)
    requires |words| == 16 && i < 64
    requires var v := Turned(Operations(s, words, i), i); mixed == Mix(i / 16, v.b, v.c, v.d)
    ensures var v := Turned(Operations(s, words, i), i);
            var sum := Sum4(v.a, mixed, words[WordAt(i)], SineAt(i));
            Turned(Operations(s, words, i + 1), i + 1) == State(v.d, Plus(v.b, RotateLeft(sum, ShiftAt(i))), v.b, v.c)
  {
    hide Operations, RotateLeft, Mix, WordAt, ShiftAt, Plus, Sum4, SineAt;
    OneOperation(s, words, i);
    assert i % 4 == 3 ==> (i + 1) % 4 == 0;
    assert i % 4 < 3 ==> (i + 1) % 4 == i % 4 + 1;
  }

  /** The block read little-endian. */
  method ReadWords(block: seq<Byte>) returns (words: seq<Word>)
    requires |block| == 64
    ensures words == WordsOf(block)
  {
    hide WordOf;
    words := [];
    for i := 0 to 16
      invariant words == WordsOf(block)[..i]
    {
      words := words + [WordOf(block[4 * i], block[4 * i + 1], block[4 * i + 2], block[4 * i + 3])];
    }
  }

  method Compress(s: State, block: seq<Byte>) returns (r: State)
    requires |block| == 64
    ensures r == Block(s, WordsOf(block))
  {
    hide RotateLeft, Operations, Turned, WordAt, ShiftAt, LoopMix, Mix, WordOf, Plus, Sum4, WordsOf, SineAt, LoopShift;
    var words := ReadWords(block);
    var a, b, c, d := s.a, s.b, s.c, s.d;
    NoOperations(s, words);
    for i := 0 to 64
      invariant State(a, b, c, d) == Turned(Operations(s, words, i), i)
    {
      var mixed := LoopMix(i, b, c, d);
      var word := LoopWord(i);
      MixesAgree(i, b, c, d);
      TablesAgree(i);
      NextOperation(s, words, i, mixed);
      SumsAgree(a, mixed, SineAt(i), words[word]);
      var rotated := RotateLeft(Sum4(a, mixed, SineAt(i), words[word]), LoopShift(i));
      a, d, c, b := d, c, b, Plus(b, rotated);
    }
    AllOperations(s, words);
    r := State(Plus(s.a, a), Plus(s.b, b), Plus(s.c, c), Plus(s.d, d));
  }

  lemma NoOperations(s: State, words: seq<Word>)
    requires |words| == 16
    ensures Turned(Operations(s, words, 0), 0) == s
  {
  }

  lemma AllOperations(s: State, words: seq<Word>)
    requires |words| == 16
    ensures Turned(Operations(s, words, 64), 64) == Operations(s, words, 64)
  {
    hide Operations;
  }

  // ----- The hasher -----

  /** Folding one more block. */
  lemma FoldMore(text: seq<Byte>, block: seq<Byte>)
    requires |text| % 64 == 0 && |block| == 64
    ensures Fold(text + block) == Block(Fold(text), WordsOf(block))
  {
    assert (text + block)[..|text + block| - 64] == text;
    assert (text + block)[|text + block| - 64..] == block;
  }

  class Md5Hasher {
    var state: State
    var pending: array<Byte>
    var pendingSize: nat
    /** The program's 64-bit count of bytes. */
    var absorbed: nat
    /** Everything given so far. */
    ghost var message: seq<Byte>

    ghost predicate Valid()
      reads this, pending
    {
      && pending.Length == 64 && pendingSize < 64 && pendingSize <= |message|
      && (|message| - pendingSize) % 64 == 0
      && state == Fold(message[..|message| - pendingSize])
      && pending[..pendingSize] == message[|message| - pendingSize..]
      && absorbed == |message| % TWO64
    }

    constructor ()
      ensures Valid() && message == [] && fresh(pending)
    {
      state, pendingSize, absorbed := INITIAL, 0, 0;
      pending := new Byte[64];
      message := [];
    }

    /** Put bytes after the pending ones. */
    method Buffer(bytes: seq<Byte>)
      requires pending.Length == 64 && pendingSize + |bytes| <= 64
      modifies this`pendingSize, pending
      ensures pendingSize == old(pendingSize) + |bytes|
      ensures pending[..pendingSize] == old(pending[..pendingSize]) + bytes
    {
      ghost var before := pending[..pendingSize];
      for i := 0 to |bytes|
        invariant pendingSize == old(pendingSize) + i
        invariant pending[..pendingSize] == before + bytes[..i]
      {
        ghost var was := pending[..pendingSize];
        pending[pendingSize] := bytes[i];
        assert pending[..pendingSize] == was;
        pendingSize := pendingSize + 1;
        assert pending[..pendingSize] == was + [bytes[i]];
        assert before + bytes[..i + 1] == before + bytes[..i] + [bytes[i]];
      }
      assert bytes[..|bytes|] == bytes;
    }

    /** Top up a partial block first. */
    method TopUp(data: seq<Byte>) returns (at: nat)
      requires Valid()
      modifies this`state, this`pendingSize, pending
      ensures at <= |data| && pendingSize < 64 && (pendingSize == 0 || at == |data|)
      ensures Reached(old(message) + data, data[at..])
    {
      hide Fold, Reached;
      at := 0;
      ghost var whole := message + data;
      Begun(data);
      assert data[0..] == data;
      if pendingSize != 0 {
        var room := 64 - pendingSize;
        var take := if |data| < room then |data| else room;
        Fill(whole, data, take);
        at := take;
        if pendingSize == 64 {
          Flush(whole, data[at..]);
        }
      }
    }

    lemma Begun(data: seq<Byte>)
      requires Valid()
      ensures Reached(message + data, data)
    {
      hide Fold;
      var whole, done := message + data, |message| - pendingSize;
      assert whole[..done] == message[..done];
      assert whole[done..] == pending[..pendingSize] + data;
    }

    /** Some of what is to come goes with what is pending. */
    method Fill(ghost whole: seq<Byte>, data: seq<Byte>, take: nat)
      requires take <= |data| && Reached(whole, data) && pendingSize + take <= 64
      modifies this`pendingSize, pending
      ensures pendingSize == old(pendingSize) + take && Reached(whole, data[take..])
    {
      hide Fold;
      ghost var was := pending[..pendingSize];
      assert data == data[..take] + data[take..];
      assert was + data == (was + data[..take]) + data[take..];
      Buffer(data[..take]);
    }

    /** A whole pending block is compressed. */
    method Flush(ghost whole: seq<Byte>, ghost rest: seq<Byte>)
      requires pendingSize == 64 && Reached(whole, rest)
      modifies this`state, this`pendingSize
      ensures pendingSize == 0 && Reached(whole, rest)
    {
      hide Fold, Block;
      ghost var done := |whole| - 64 - |rest|;
      assert pending[..] == pending[..64];
      state := Compress(state, pending[..]);
      AbsorbBlock(whole, done, pending[..64], rest);
      pendingSize := 0;
      assert pending[..0] + rest == rest;
    }

    /** What is folded in, what is pending and what is still to come make up `whole`. */
    ghost predicate Reached(whole: seq<Byte>, rest: seq<Byte>)
      reads this, pending
    {
      && pending.Length == 64 && pendingSize <= 64 && pendingSize + |rest| <= |whole|
      && var done := |whole| - pendingSize - |rest|;
      && done % 64 == 0 && state == Fold(whole[..done]) && whole[done..] == pending[..pendingSize] + rest
    }

    /** Compress the next whole block straight from the data. */
    method TakeBlock(ghost whole: seq<Byte>, block: seq<Byte>, ghost rest: seq<Byte>)
      requires |block| == 64 && pendingSize == 0 && Reached(whole, block + rest)
      modifies this`state
      ensures Reached(whole, rest)
    {
      hide Fold, Block;
      ghost var done := |whole| - |block + rest|;
      state := Compress(state, block);
      assert pending[..0] + (block + rest) == block + rest;
      AbsorbBlock(whole, done, block, rest);
      assert pending[..0] + rest == rest;
    }

    /** Keep what makes no whole block. */
    method Keep(ghost whole: seq<Byte>, rest: seq<Byte>)
      requires pendingSize + |rest| < 64 && Reached(whole, rest)
      modifies this`pendingSize, pending
      ensures pendingSize < 64 && Reached(whole, [])
    {
      hide Fold;
      ghost var was := pending[..pendingSize];
      Buffer(rest);
      assert was + rest == (was + rest) + [];
    }

    method Update(data: seq<Byte>)
      requires Valid()
      modifies this, pending
      ensures Valid() && pending == old(pending) && message == old(message) + data
    {
      hide Fold, Block, Reached;
      ghost var whole := message + data;
      var at := TopUp(data);
      while at + 64 <= |data|
        invariant at <= |data| && pending == old(pending) && message == old(message) && absorbed == old(absorbed)
        invariant pendingSize < 64 && (pendingSize == 0 || at == |data|)
        invariant Reached(whole, data[at..])
      {
        assert data[at..] == data[at..at + 64] + data[at + 64..];
        TakeBlock(whole, data[at..at + 64], data[at + 64..]);
        at := at + 64;
      }
      Keep(whole, data[at..]);
      Settled(whole);
      CountOn(absorbed, |message|, |data|);
      absorbed := (absorbed + |data|) % TWO64;
      message := whole;
    }

    lemma Settled(whole: seq<Byte>)
      requires Reached(whole, [])
      ensures pending.Length == 64 && pendingSize <= |whole| && (|whole| - pendingSize) % 64 == 0
      ensures state == Fold(whole[..|whole| - pendingSize]) && pending[..pendingSize] == whole[|whole| - pendingSize..]
    {
      hide Fold;
      assert pending[..pendingSize] + [] == pending[..pendingSize];
    }

    /** The padding and the digest: one last block, or two when the length does not fit in one. */
    method Finish() returns (digest: seq<Byte>)
      requires Valid()
      modifies this`state
      ensures digest == Digest(message)
    {
      hide Fold, Block, Output, LengthBytes, WordsOf;
      ghost var done := |message| - pendingSize;
      var blocks := if pendingSize + 9 <= 64 then 1 else 2;
      var tail := pending[..pendingSize] + [0x80] + seq(blocks * 64 - 9 - pendingSize, i => 0) + LengthBytes(absorbed);
      TailPads(message, done, pending[..pendingSize], blocks);
      AbsorbLength(absorbed, |message|);
      FoldMore(message[..done], tail[..64]);
      state := Compress(state, tail[..64]);
      if blocks == 2 {
        FoldMore(message[..done] + tail[..64], tail[64..128]);
        assert message[..done] + tail[..64] + tail[64..128] == message[..done] + tail;
        state := Compress(state, tail[64..128]);
      } else {
        assert tail[..64] == tail;
      }
      digest := Output(state);
    }
  }

  /** Counting on from a wrapped count. */
  lemma CountOn(absorbed: nat, length: nat, more: nat)
    requires absorbed == length % TWO64
    ensures (absorbed + more) % TWO64 == (length + more) % TWO64
  {
    ModuloSkips(absorbed + more, length / TWO64);
  }

  /** Eight times the wrapped count is eight times the length, in 64 bits. */
  lemma AbsorbLength(absorbed: nat, length: nat)
    requires absorbed == length % TWO64
    ensures LengthBytes(absorbed) == LengthBytes(length)
  {
    var q := length / TWO64;
    assert length == TWO64 * q + absorbed;
    assert length * 8 == TWO64 * (8 * q) + absorbed * 8;
    ModuloSkips(absorbed * 8, 8 * q);
  }

  lemma {:induction false} ModuloSkips(n: nat, k: nat)
    ensures (TWO64 * k + n) % TWO64 == n % TWO64
  {
    if k > 0 {
      ModuloSkips(n, k - 1);
      assert TWO64 * k + n == TWO64 + (TWO64 * (k - 1) + n);
    }
  }

  /** The tail is the end of the padded message. */
  lemma TailPads(message: seq<Byte>, done: nat, rest: seq<Byte>, blocks: nat)
    requires done <= |message| && done % 64 == 0 && rest == message[done..] && |rest| < 64
    requires blocks == if |rest| + 9 <= 64 then 1 else 2
    ensures Padded(message) == message[..done] + (rest + [0x80] + seq(blocks * 64 - 9 - |rest|, i => 0) + LengthBytes(|message|))
  {
    hide LengthBytes;
    assert |message| % 64 == |rest|;
    assert Zeros(|message|) == blocks * 64 - 9 - |rest|;
    assert message == message[..done] + rest;
  }

  lemma NothingBefore<T>(s: seq<T>)
    ensures [] + s == s && s + [] == s
  {
  }

  /** `Update` then `Finish` on a hasher that may have absorbed something already. */
  method FinishWith(hasher: Md5Hasher, data: seq<Byte>) returns (digest: seq<Byte>)
    requires hasher.Valid()
    modifies hasher, hasher.pending
    ensures digest == Digest(old(hasher.message) + data)
  {
    hide *;
    hasher.Update(data);
    digest := hasher.Finish();
  }

  /** One shot. */
  method Md5(data: seq<Byte>) returns (digest: seq<Byte>)
    ensures digest == Digest(data)
  {
    hide *;
    var hasher := new Md5Hasher();
    NothingBefore(data);
    digest := FinishWith(hasher, data);
  }

  function Flatten(chunks: seq<seq<Byte>>): seq<Byte> {
    if chunks == [] then [] else Flatten(chunks[..|chunks| - 1]) + chunks[|chunks| - 1]
  }

  lemma FlattenNothing(chunks: seq<seq<Byte>>)
    ensures Flatten(chunks[..0]) == []
  {
  }

  lemma FlattenMore(chunks: seq<seq<Byte>>, i: nat)
    requires i < |chunks|
    ensures Flatten(chunks[..i + 1]) == Flatten(chunks[..i]) + chunks[i]
  {
    assert chunks[..i + 1][..i] == chunks[..i];
  }

  method UpdateAll(hasher: Md5Hasher, chunks: seq<seq<Byte>>)
    requires hasher.Valid()
    modifies hasher, hasher.pending
    ensures hasher.Valid() && hasher.pending == old(hasher.pending) && hasher.message == old(hasher.message) + Flatten(chunks)
  {
    hide *;
    FlattenNothing(chunks);
    ghost var before := hasher.message;
    assert before + [] == before;
    for i := 0 to |chunks|
      invariant hasher.Valid() && hasher.pending == old(hasher.pending)
      invariant hasher.message == before + Flatten(chunks[..i])
    {
      FlattenMore(chunks, i);
      assert before + Flatten(chunks[..i]) + chunks[i] == before + (Flatten(chunks[..i]) + chunks[i]);
      hasher.Update(chunks[i]);
    }
    assert chunks[..|chunks|] == chunks;
  }

  /** However a message is cut, its chunks give the digest of the whole. */
  method HashChunks(chunks: seq<seq<Byte>>) returns (digest: seq<Byte>)
    ensures digest == Digest(Flatten(chunks))
  {
    hide *;
    var hasher := new Md5Hasher();
    UpdateAll(hasher, chunks);
    NothingBefore(Flatten(chunks));
    digest := FinishWith(hasher, []);
  }

  lemma AbsorbBlock(whole: seq<Byte>, done: nat, block: seq<Byte>, rest: seq<Byte>)
    requires done <= |whole| && done % 64 == 0 && |block| == 64 && whole[done..] == block + rest
    ensures done + 64 <= |whole| && Fold(whole[..done + 64]) == Block(Fold(whole[..done]), WordsOf(block))
    ensures whole[done + 64..] == rest
  {
    assert |whole[done..]| == 64 + |rest|;
    assert whole[done..done + 64] == whole[done..][..64] == block;
    assert whole[done + 64..] == whole[done..][64..] == rest;
    assert whole[..done + 64] == whole[..done] + block;
    FoldMore(whole[..done], block);
  }
}
