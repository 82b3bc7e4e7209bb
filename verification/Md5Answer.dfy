/** The test suite of RFC 1321, section A.5: the digest of "abc", operation by operation. */
module Md5Answer {
  import opened Word32
  import opened Md5

  /** The one block of the padded message: its letters, a one bit, and its length of 24 bits. */
  const ABC: seq<Word> := [0x80636261, 0, 0, 0, 0, 0, 0, 0, 0, 0, 0, 0, 0, 0, 24, 0]

  /** The `i`th operation takes this word, this rotation and this entry of the table. */
  ghost predicate Takes(i: nat, x: Word, s: nat, t: Word) {
    i < 64 && s <= 32 && ABC[WordAt(i)] == x && ShiftAt(i) == s && SineAt(i) == t
  }

  function Step(round: nat, v: State, x: Word, s: nat, t: Word): State
    requires round < 4 && s <= 32
  {
    State(v.d, Plus(v.b, RotateLeft(Sum4(v.a, Mix(round, v.b, v.c, v.d), x, t), s)), v.b, v.c)
  }

  /** The registers before the `i`th operation, in the order it takes them. */
  ghost predicate Stands(i: nat, v: State) { i <= 64 && Turned(Operations(INITIAL, ABC, i), i) == v }

  lemma Turn(i: nat, v: State, x: Word, s: nat, t: Word)
    requires i < 64 && Stands(i, v) && Takes(i, x, s, t)
    ensures s <= 32 && Stands(i + 1, Step(i / 16, v, x, s, t))
  {
    hide Operations, RotateLeft, Mix, WordAt, ShiftAt, Plus, Sum4, SineAt;
    NextOperation(INITIAL, ABC, i, Mix(i / 16, v.b, v.c, v.d));
  }

  lemma Takes0()
    ensures Takes(0, 0x80636261, 7, 0xd76aa478) && Takes(1, 0x0, 12, 0xe8c7b756)
    ensures Takes(2, 0x0, 17, 0x242070db) && Takes(3, 0x0, 22, 0xc1bdceee)
  {
  }

  lemma Takes4()
    ensures Takes(4, 0x0, 7, 0xf57c0faf) && Takes(5, 0x0, 12, 0x4787c62a)
    ensures Takes(6, 0x0, 17, 0xa8304613) && Takes(7, 0x0, 22, 0xfd469501)
  {
  }

  lemma Turns0()
    requires Stands(0, State(0x67452301, 0xefcdab89, 0x98badcfe, 0x10325476))
    ensures Stands(8, State(0xc73741ef, 0x928d99f6, 0x207dc67b, 0x8bac3051))
  {
    hide Stands, Takes;
    Takes0();
    Takes4();
    Turn(0, State(0x67452301, 0xefcdab89, 0x98badcfe, 0x10325476), 0x80636261, 7, 0xd76aa478);
    Turn(1, State(0x10325476, 0xd6d117b4, 0xefcdab89, 0x98badcfe), 0x0, 12, 0xe8c7b756);
    Turn(2, State(0x98badcfe, 0x344a8432, 0xd6d117b4, 0xefcdab89), 0x0, 17, 0x242070db);
    Turn(3, State(0xefcdab89, 0x2f6fbd72, 0x344a8432, 0xd6d117b4), 0x0, 22, 0xc1bdceee);
    Turn(4, State(0xd6d117b4, 0x7ad956f2, 0x2f6fbd72, 0x344a8432), 0x0, 7, 0xf57c0faf);
    Turn(5, State(0x344a8432, 0xc73741ef, 0x7ad956f2, 0x2f6fbd72), 0x0, 12, 0x4787c62a);
    Turn(6, State(0x2f6fbd72, 0x8bac3051, 0xc73741ef, 0x7ad956f2), 0x0, 17, 0xa8304613);
    Turn(7, State(0x7ad956f2, 0x207dc67b, 0x8bac3051, 0xc73741ef), 0x0, 22, 0xfd469501);
  }

  lemma Takes8()
    ensures Takes(8, 0x0, 7, 0x698098d8) && Takes(9, 0x0, 12, 0x8b44f7af)
    ensures Takes(10, 0x0, 17, 0xffff5bb1) && Takes(11, 0x0, 22, 0x895cd7be)
  {
  }

  lemma Takes12()
    ensures Takes(12, 0x0, 7, 0x6b901122) && Takes(13, 0x0, 12, 0xfd987193)
    ensures Takes(14, 0x18, 17, 0xa679438e) && Takes(15, 0x0, 22, 0x49b40821)
  {
  }

  lemma Turns8()
    requires Stands(8, State(0xc73741ef, 0x928d99f6, 0x207dc67b, 0x8bac3051))
    ensures Stands(16, State(0xdda9b9a6, 0x72aff2e0, 0xe396856b, 0xa1051895))
  {
    hide Stands, Takes;
    Takes8();
    Takes12();
    Turn(8, State(0xc73741ef, 0x928d99f6, 0x207dc67b, 0x8bac3051), 0x0, 7, 0x698098d8);
    Turn(9, State(0x8bac3051, 0x854b3712, 0x928d99f6, 0x207dc67b), 0x0, 12, 0x8b44f7af);
    Turn(10, State(0x207dc67b, 0x74e2f284, 0x854b3712, 0x928d99f6), 0x0, 17, 0xffff5bb1);
    Turn(11, State(0x928d99f6, 0x3020401c, 0x74e2f284, 0x854b3712), 0x0, 22, 0x895cd7be);
    Turn(12, State(0x854b3712, 0x5ed49596, 0x3020401c, 0x74e2f284), 0x0, 7, 0x6b901122);
    Turn(13, State(0x74e2f284, 0xdda9b9a6, 0x5ed49596, 0x3020401c), 0x0, 12, 0xfd987193);
    Turn(14, State(0x3020401c, 0xa1051895, 0xdda9b9a6, 0x5ed49596), 0x18, 17, 0xa679438e);
    Turn(15, State(0x5ed49596, 0xe396856b, 0xa1051895, 0xdda9b9a6), 0x0, 22, 0x49b40821);
  }

  lemma Takes16()
    ensures Takes(16, 0x0, 5, 0xf61e2562) && Takes(17, 0x0, 9, 0xc040b340)
    ensures Takes(18, 0x0, 14, 0x265e5a51) && Takes(19, 0x80636261, 20, 0xe9b6c7aa)
  {
  }

  lemma Takes20()
    ensures Takes(20, 0x0, 5, 0xd62f105d) && Takes(21, 0x0, 9, 0x02441453)
    ensures Takes(22, 0x0, 14, 0xd8a1e681) && Takes(23, 0x0, 20, 0xe7d3fbc8)
  {
  }

  lemma Turns16()
    requires Stands(16, State(0xdda9b9a6, 0x72aff2e0, 0xe396856b, 0xa1051895))
    ensures Stands(24, State(0x59a8ffda, 0x47092c07, 0xabfc7920, 0x6d002f1e))
  {
    hide Stands, Takes;
    Takes16();
    Takes20();
    Turn(16, State(0xdda9b9a6, 0x72aff2e0, 0xe396856b, 0xa1051895), 0x0, 5, 0xf61e2562);
    Turn(17, State(0xa1051895, 0x3e9e9126, 0x72aff2e0, 0xe396856b), 0x0, 9, 0xc040b340);
    Turn(18, State(0xe396856b, 0x4a1d804e, 0x3e9e9126, 0x72aff2e0), 0x0, 14, 0x265e5a51);
    Turn(19, State(0x72aff2e0, 0xe25e1652, 0x4a1d804e, 0x3e9e9126), 0x80636261, 20, 0xe9b6c7aa);
    Turn(20, State(0x3e9e9126, 0xb5b204e4, 0xe25e1652, 0x4a1d804e), 0x0, 5, 0xd62f105d);
    Turn(21, State(0x4a1d804e, 0x59a8ffda, 0xb5b204e4, 0xe25e1652), 0x0, 9, 0x02441453);
    Turn(22, State(0xe25e1652, 0x6d002f1e, 0x59a8ffda, 0xb5b204e4), 0x0, 14, 0xd8a1e681);
    Turn(23, State(0xb5b204e4, 0xabfc7920, 0x6d002f1e, 0x59a8ffda), 0x0, 20, 0xe7d3fbc8);
  }

  lemma Takes24()
    ensures Takes(24, 0x0, 5, 0x21e1cde6) && Takes(25, 0x18, 9, 0xc33707d6)
    ensures Takes(26, 0x0, 14, 0xf4d50d87) && Takes(27, 0x0, 20, 0x455a14ed)
  {
  }

  lemma Takes28()
    ensures Takes(28, 0x0, 5, 0xa9e3e905) && Takes(29, 0x0, 9, 0xfcefa3f8)
    ensures Takes(30, 0x0, 14, 0x676f02d9) && Takes(31, 0x0, 20, 0x8d2a4c8a)
  {
  }

  lemma Turns24()
    requires Stands(24, State(0x59a8ffda, 0x47092c07, 0xabfc7920, 0x6d002f1e))
    ensures Stands(32, State(0x790a77fb, 0x726342d3, 0xa62884aa, 0x9f47e4f8))
  {
    hide Stands, Takes;
    Takes24();
    Takes28();
    Turn(24, State(0x59a8ffda, 0x47092c07, 0xabfc7920, 0x6d002f1e), 0x0, 5, 0x21e1cde6);
    Turn(25, State(0x6d002f1e, 0xb7f268cf, 0x47092c07, 0xabfc7920), 0x18, 9, 0xc33707d6);
    Turn(26, State(0xabfc7920, 0x09388eff, 0xb7f268cf, 0x47092c07), 0x0, 14, 0xf4d50d87);
    Turn(27, State(0x47092c07, 0xfe1623b1, 0x09388eff, 0xb7f268cf), 0x0, 20, 0x455a14ed);
    Turn(28, State(0xb7f268cf, 0x786acb8f, 0xfe1623b1, 0x09388eff), 0x0, 5, 0xa9e3e905);
    Turn(29, State(0x09388eff, 0x790a77fb, 0x786acb8f, 0xfe1623b1), 0x0, 9, 0xfcefa3f8);
    Turn(30, State(0xfe1623b1, 0x9f47e4f8, 0x790a77fb, 0x786acb8f), 0x0, 14, 0x676f02d9);
    Turn(31, State(0x786acb8f, 0xa62884aa, 0x9f47e4f8, 0x790a77fb), 0x0, 20, 0x8d2a4c8a);
  }

  lemma Takes32()
    ensures Takes(32, 0x0, 4, 0xfffa3942) && Takes(33, 0x0, 11, 0x8771f681)
    ensures Takes(34, 0x0, 16, 0x6d9d6122) && Takes(35, 0x18, 23, 0xfde5380c)
  {
  }

  lemma Takes36()
    ensures Takes(36, 0x0, 4, 0xa4beea44) && Takes(37, 0x0, 11, 0x4bdecfa9)
    ensures Takes(38, 0x0, 16, 0xf6bb4b60) && Takes(39, 0x0, 23, 0xbebfbc70)
  {
  }

  lemma Turns32()
    requires Stands(32, State(0x790a77fb, 0x726342d3, 0xa62884aa, 0x9f47e4f8))
    ensures Stands(40, State(0x21b117b9, 0x5a2f5ea5, 0x3575227e, 0x6e7429d5))
  {
    hide Stands, Takes;
    Takes32();
    Takes36();
    Turn(32, State(0x790a77fb, 0x726342d3, 0xa62884aa, 0x9f47e4f8), 0x0, 4, 0xfffa3942);
    Turn(33, State(0x9f47e4f8, 0xb3707ebf, 0x726342d3, 0xa62884aa), 0x0, 11, 0x8771f681);
    Turn(34, State(0xa62884aa, 0x60127b2e, 0xb3707ebf, 0x726342d3), 0x0, 16, 0x6d9d6122);
    Turn(35, State(0x726342d3, 0x8d212ff5, 0x60127b2e, 0xb3707ebf), 0x18, 23, 0xfde5380c);
    Turn(36, State(0xb3707ebf, 0x3b0875c7, 0x8d212ff5, 0x60127b2e), 0x0, 4, 0xa4beea44);
    Turn(37, State(0x60127b2e, 0x21b117b9, 0x3b0875c7, 0x8d212ff5), 0x0, 11, 0x4bdecfa9);
    Turn(38, State(0x8d212ff5, 0x6e7429d5, 0x21b117b9, 0x3b0875c7), 0x0, 16, 0xf6bb4b60);
    Turn(39, State(0x3b0875c7, 0x3575227e, 0x6e7429d5, 0x21b117b9), 0x0, 23, 0xbebfbc70);
  }

  lemma Takes40()
    ensures Takes(40, 0x0, 4, 0x289b7ec6) && Takes(41, 0x80636261, 11, 0xeaa127fa)
    ensures Takes(42, 0x0, 16, 0xd4ef3085) && Takes(43, 0x0, 23, 0x04881d05)
  {
  }

  lemma Takes44()
    ensures Takes(44, 0x0, 4, 0xd9d4d039) && Takes(45, 0x0, 11, 0xe6db99e5)
    ensures Takes(46, 0x0, 16, 0x1fa27cf8) && Takes(47, 0x0, 23, 0xc4ac5665)
  {
  }

  lemma Turns40()
    requires Stands(40, State(0x21b117b9, 0x5a2f5ea5, 0x3575227e, 0x6e7429d5))
    ensures Stands(48, State(0x7f2e507b, 0x7beb9700, 0x8fae6399, 0x99d9679d))
  {
    hide Stands, Takes;
    Takes40();
    Takes44();
    Turn(40, State(0x21b117b9, 0x5a2f5ea5, 0x3575227e, 0x6e7429d5), 0x0, 4, 0x289b7ec6);
    Turn(41, State(0x6e7429d5, 0x11de1779, 0x5a2f5ea5, 0x3575227e), 0x80636261, 11, 0xeaa127fa);
    Turn(42, State(0x3575227e, 0xfadcaa38, 0x11de1779, 0x5a2f5ea5), 0x0, 16, 0xd4ef3085);
    Turn(43, State(0x5a2f5ea5, 0x31c465ca, 0xfadcaa38, 0x11de1779), 0x0, 23, 0x04881d05);
    Turn(44, State(0x11de1779, 0x4c6124f4, 0x31c465ca, 0xfadcaa38), 0x0, 4, 0xd9d4d039);
    Turn(45, State(0xfadcaa38, 0x7f2e507b, 0x4c6124f4, 0x31c465ca), 0x0, 11, 0xe6db99e5);
    Turn(46, State(0x31c465ca, 0x99d9679d, 0x7f2e507b, 0x4c6124f4), 0x0, 16, 0x1fa27cf8);
    Turn(47, State(0x4c6124f4, 0x8fae6399, 0x99d9679d, 0x7f2e507b), 0x0, 23, 0xc4ac5665);
  }

  lemma Takes48()
    ensures Takes(48, 0x80636261, 6, 0xf4292244) && Takes(49, 0x0, 10, 0x432aff97)
    ensures Takes(50, 0x18, 15, 0xab9423a7) && Takes(51, 0x0, 21, 0xfc93a039)
  {
  }

  lemma Takes52()
    ensures Takes(52, 0x0, 6, 0x655b59c3) && Takes(53, 0x0, 10, 0x8f0ccc92)
    ensures Takes(54, 0x0, 15, 0xffeff47d) && Takes(55, 0x0, 21, 0x85845dd1)
  {
  }

  lemma Turns48()
    requires Stands(48, State(0x7f2e507b, 0x7beb9700, 0x8fae6399, 0x99d9679d))
    ensures Stands(56, State(0x06cc5e8a, 0x3bfa2c27, 0x7d632dd0, 0x5b0d97aa))
  {
    hide Stands, Takes;
    Takes48();
    Takes52();
    Turn(48, State(0x7f2e507b, 0x7beb9700, 0x8fae6399, 0x99d9679d), 0x80636261, 6, 0xf4292244);
    Turn(49, State(0x99d9679d, 0x7b201df8, 0x7beb9700, 0x8fae6399), 0x0, 10, 0x432aff97);
    Turn(50, State(0x8fae6399, 0xf4e8e96e, 0x7b201df8, 0x7beb9700), 0x18, 15, 0xab9423a7);
    Turn(51, State(0x7beb9700, 0xb298cefd, 0xf4e8e96e, 0x7b201df8), 0x0, 21, 0xfc93a039);
    Turn(52, State(0x7b201df8, 0x8bf025c4, 0xb298cefd, 0xf4e8e96e), 0x0, 6, 0x655b59c3);
    Turn(53, State(0xf4e8e96e, 0x06cc5e8a, 0x8bf025c4, 0xb298cefd), 0x0, 10, 0x8f0ccc92);
    Turn(54, State(0xb298cefd, 0x5b0d97aa, 0x06cc5e8a, 0x8bf025c4), 0x0, 15, 0xffeff47d);
    Turn(55, State(0x8bf025c4, 0x7d632dd0, 0x5b0d97aa, 0x06cc5e8a), 0x0, 21, 0x85845dd1);
  }

  lemma Takes56()
    ensures Takes(56, 0x0, 6, 0x6fa87e4f) && Takes(57, 0x0, 10, 0xfe2ce6e0)
    ensures Takes(58, 0x0, 15, 0xa3014314) && Takes(59, 0x0, 21, 0x4e0811a1)
  {
  }

  lemma Takes60()
    ensures Takes(60, 0x0, 6, 0xf7537e82) && Takes(61, 0x0, 10, 0xbd3af235)
    ensures Takes(62, 0x0, 15, 0x2ad7d2bb) && Takes(63, 0x0, 21, 0xeb86d391)
  {
  }

  lemma Turns56()
    requires Stands(56, State(0x06cc5e8a, 0x3bfa2c27, 0x7d632dd0, 0x5b0d97aa))
    ensures Stands(64, State(0x310ade8f, 0xc08226b3, 0xe484b9d8, 0x624d8cb2))
  {
    hide Stands, Takes;
    Takes56();
    Takes60();
    Turn(56, State(0x06cc5e8a, 0x3bfa2c27, 0x7d632dd0, 0x5b0d97aa), 0x0, 6, 0x6fa87e4f);
    Turn(57, State(0x5b0d97aa, 0x7f81cc35, 0x3bfa2c27, 0x7d632dd0), 0x0, 10, 0xfe2ce6e0);
    Turn(58, State(0x7d632dd0, 0x094454ab, 0x7f81cc35, 0x3bfa2c27), 0x0, 15, 0xa3014314);
    Turn(59, State(0x3bfa2c27, 0x4f9dbe3f, 0x094454ab, 0x7f81cc35), 0x0, 21, 0x4e0811a1);
    Turn(60, State(0x7f81cc35, 0x7327d604, 0x4f9dbe3f, 0x094454ab), 0x0, 6, 0xf7537e82);
    Turn(61, State(0x094454ab, 0x310ade8f, 0x7327d604, 0x4f9dbe3f), 0x0, 10, 0xbd3af235);
    Turn(62, State(0x4f9dbe3f, 0x624d8cb2, 0x310ade8f, 0x7327d604), 0x0, 15, 0x2ad7d2bb);
    Turn(63, State(0x7327d604, 0xe484b9d8, 0x624d8cb2, 0x310ade8f), 0x0, 21, 0xeb86d391);
  }

  /** After all 64 operations. */
  lemma AllTurns()
    ensures Operations(INITIAL, ABC, 64) == State(0x310ade8f, 0xc08226b3, 0xe484b9d8, 0x624d8cb2)
  {
    assert Stands(0, INITIAL);
    hide Stands;
    Turns0();
    Turns8();
    Turns16();
    Turns24();
    Turns32();
    Turns40();
    Turns48();
    Turns56();
    Ends(State(0x310ade8f, 0xc08226b3, 0xe484b9d8, 0x624d8cb2));
  }

  lemma Ends(v: State)
    requires Stands(64, v)
    ensures Operations(INITIAL, ABC, 64) == v
  {
    hide Operations;
  }

  const LETTERS: seq<Byte> := [0x61, 0x62, 0x63]

  lemma PaddedLetters()
    ensures |Padded(LETTERS)| == 64 && Padded(LETTERS)[..4] == [0x61, 0x62, 0x63, 0x80]
    ensures Padded(LETTERS)[56..] == [24, 0, 0, 0, 0, 0, 0, 0] && forall i :: 4 <= i < 56 ==> Padded(LETTERS)[i] == 0
  {
    assert Zeros(3) == 52;
    LengthIs(0);
    LengthIs(1);
    forall k | 2 <= k < 8 ensures LengthByte(24, k) == 0 { LengthIs(k); }
    assert LengthBytes(3) == [24, 0, 0, 0, 0, 0, 0, 0];
  }

  lemma LengthIs(k: nat)
    ensures LengthByte(24, k) == if k == 0 then 24 else 0
  {
    if k > 0 {
      assert Power256(k) == 256 * Power256(k - 1) >= 256;
      Small(Power256(k));
    }
  }

  lemma Small(p: nat)
    requires p > 24
    ensures 24 / p == 0
  {
  }

  lemma WordsAre()
    ensures |Padded(LETTERS)| == 64 && WordsOf(Padded(LETTERS)) == ABC
  {
    PaddedLetters();
    var block := Padded(LETTERS);
    hide Padded;
    assert block[0] == block[..4][0] && block[1] == block[..4][1] && block[2] == block[..4][2] && block[3] == block[..4][3];
    forall i | 56 <= i < 64 ensures block[i] == block[56..][i - 56] {}
    forall i | 0 <= i < 16 ensures WordsOf(block)[i] == ABC[i] {
      if i == 14 {
        assert block[56] == 24 && block[57] == 0 && block[58] == 0 && block[59] == 0;
      } else if i != 0 {
        assert block[4 * i] == 0 && block[4 * i + 1] == 0 && block[4 * i + 2] == 0 && block[4 * i + 3] == 0;
      }
    }
  }

  /** MD5 ("abc") = 900150983cd24fb0d6963f7d28e17f72. */
  lemma KnownAnswer()
    ensures Digest(LETTERS) == [0x90, 0x01, 0x50, 0x98, 0x3c, 0xd2, 0x4f, 0xb0, 0xd6, 0x96, 0x3f, 0x7d, 0x28, 0xe1, 0x7f, 0x72]
  {
    WordsAre();
    AllTurns();
    hide Operations, Padded, WordsOf;
    var block := Padded(LETTERS);
    assert block[..|block| - 64] == [] && block[|block| - 64..] == block;
    assert Fold(block) == Block(INITIAL, ABC);
    assert Block(INITIAL, ABC) == State(0x98500190, 0xb04fd23c, 0x7d3f96d6, 0x727fe128);
  }
}
