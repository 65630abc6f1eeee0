/** The key schedule of lualib-src/lua-crypt.cpp against that of FIPS 46-3. */
module DesKeys {
  import opened Common
  import opened Des
  import opened DesTables
  import opened Fips46
  import opened DesRounds

  /** What LHs does, without its table: four bits, one to each byte. */
  function Strewn(v: Word): Word { ((v & 8) << 21) | ((v & 4) << 14) | ((v & 2) << 7) | (v & 1) }

  /** RHs: the same in the other order. */
  function Mirrored(v: Word): Word { ((v & 1) << 24) | ((v & 2) << 15) | ((v & 4) << 6) | ((v & 8) >> 3) }

  lemma LHsIs(v: Word)
    ensures LHs(v & 0xF) == Strewn(v)
  {
  }

  lemma RHsIs(v: Word)
    ensures RHs(v & 0xF) == Mirrored(v)
  {
  }

  function LeftPlain(x: Word): Word {
    Woven(Strewn(x), Strewn(x >> 8), Strewn(x >> 16), Strewn(x >> 24),
          Strewn(x >> 5), Strewn(x >> 13), Strewn(x >> 21), Strewn(x >> 29))
  }

  function RightPlain(y: Word): Word {
    Woven(Mirrored(y >> 1), Mirrored(y >> 9), Mirrored(y >> 17), Mirrored(y >> 25),
          Mirrored(y >> 4), Mirrored(y >> 12), Mirrored(y >> 20), Mirrored(y >> 28))
  }

  lemma LeftIsPlain(x: Word)
    ensures LeftHalf(x) == LeftPlain(x)
  {
    hide LHs, Strewn, Woven;
    LHsIs(x);
    LHsIs(x >> 8);
    LHsIs(x >> 16);
    LHsIs(x >> 24);
    LHsIs(x >> 5);
    LHsIs(x >> 13);
    LHsIs(x >> 21);
    LHsIs(x >> 29);
  }

  lemma RightIsPlain(y: Word)
    ensures RightHalf(y) == RightPlain(y)
  {
    hide RHs, Mirrored, Woven;
    RHsIs(y >> 1);
    RHsIs(y >> 9);
    RHsIs(y >> 17);
    RHsIs(y >> 25);
    RHsIs(y >> 4);
    RHsIs(y >> 12);
    RHsIs(y >> 20);
    RHsIs(y >> 28);
  }


  /** Bit i of 28 in the low bits of a word. */
  function LowBit(w: Word, i: int): bool
    requires 1 <= i <= 28
  {
    Bit(w, i + 4)
  }

  lemma PlainC(kx: Word, ky: Word, i: int)
    requires 1 <= i <= 28
    ensures LowBit(LeftPlain(SwapKey(kx, ky).0), i) == PairBit(kx, ky, PC1(i))
  {
    match i
    case 1 => case 2 => case 3 => case 4 => case 5 => case 6 => case 7 =>
    case 8 => case 9 => case 10 => case 11 => case 12 => case 13 => case 14 =>
    case 15 => case 16 => case 17 => case 18 => case 19 => case 20 => case 21 =>
    case 22 => case 23 => case 24 => case 25 => case 26 => case 27 => case 28 =>
  }

  lemma PlainD(kx: Word, ky: Word, i: int)
    requires 1 <= i <= 28
    ensures LowBit(RightPlain(SwapKey(kx, ky).1), i) == PairBit(kx, ky, PC1(28 + i))
  {
    match i
    case 1 => case 2 => case 3 => case 4 => case 5 => case 6 => case 7 =>
    case 8 => case 9 => case 10 => case 11 => case 12 => case 13 => case 14 =>
    case 15 => case 16 => case 17 => case 18 => case 19 => case 20 => case 21 =>
    case 22 => case 23 => case 24 => case 25 => case 26 => case 27 => case 28 =>
  }

  lemma TurnBits(x: Word)
    requires x & 0xF0000000 == 0
    ensures
      var w := Turn1(x);
      (w & 0x08000000 != 0) == (x & 0x04000000 != 0) && (w & 0x04000000 != 0) == (x & 0x02000000 != 0)
      && (w & 0x02000000 != 0) == (x & 0x01000000 != 0) && (w & 0x01000000 != 0) == (x & 0x00800000 != 0)
      && (w & 0x00800000 != 0) == (x & 0x00400000 != 0) && (w & 0x00400000 != 0) == (x & 0x00200000 != 0)
      && (w & 0x00200000 != 0) == (x & 0x00100000 != 0) && (w & 0x00100000 != 0) == (x & 0x00080000 != 0)
      && (w & 0x00080000 != 0) == (x & 0x00040000 != 0) && (w & 0x00040000 != 0) == (x & 0x00020000 != 0)
      && (w & 0x00020000 != 0) == (x & 0x00010000 != 0) && (w & 0x00010000 != 0) == (x & 0x00008000 != 0)
      && (w & 0x00008000 != 0) == (x & 0x00004000 != 0) && (w & 0x00004000 != 0) == (x & 0x00002000 != 0)
      && (w & 0x00002000 != 0) == (x & 0x00001000 != 0) && (w & 0x00001000 != 0) == (x & 0x00000800 != 0)
      && (w & 0x00000800 != 0) == (x & 0x00000400 != 0) && (w & 0x00000400 != 0) == (x & 0x00000200 != 0)
      && (w & 0x00000200 != 0) == (x & 0x00000100 != 0) && (w & 0x00000100 != 0) == (x & 0x00000080 != 0)
      && (w & 0x00000080 != 0) == (x & 0x00000040 != 0) && (w & 0x00000040 != 0) == (x & 0x00000020 != 0)
      && (w & 0x00000020 != 0) == (x & 0x00000010 != 0) && (w & 0x00000010 != 0) == (x & 0x00000008 != 0)
      && (w & 0x00000008 != 0) == (x & 0x00000004 != 0) && (w & 0x00000004 != 0) == (x & 0x00000002 != 0)
      && (w & 0x00000002 != 0) == (x & 0x00000001 != 0) && (w & 0x00000001 != 0) == (x & 0x08000000 != 0)
  {
  }

  lemma TurnLow1(x: Word)
    requires x & 0xF0000000 == 0
    ensures forall i :: 1 <= i <= 7 ==> LowBit(Turn1(x), i) == LowBit(x, i + 1)
  {
    hide Turn1, Bit;
    TurnBits(x);
    Literals(x);
    Literals(Turn1(x));
  }

  lemma TurnLow2(x: Word)
    requires x & 0xF0000000 == 0
    ensures forall i :: 8 <= i <= 14 ==> LowBit(Turn1(x), i) == LowBit(x, i + 1)
  {
    hide Turn1, Bit;
    TurnBits(x);
    Literals(x);
    Literals(Turn1(x));
  }

  lemma TurnLow3(x: Word)
    requires x & 0xF0000000 == 0
    ensures forall i :: 15 <= i <= 21 ==> LowBit(Turn1(x), i) == LowBit(x, i + 1)
  {
    hide Turn1, Bit;
    TurnBits(x);
    Literals(x);
    Literals(Turn1(x));
  }

  lemma TurnLow4(x: Word)
    requires x & 0xF0000000 == 0
    ensures forall i :: 22 <= i <= 28 ==> LowBit(Turn1(x), i) == LowBit(x, if i == 28 then 1 else i + 1)
  {
    hide Turn1, Bit;
    TurnBits(x);
    Literals(x);
    Literals(Turn1(x));
  }

  lemma TurnLow(x: Word, i: int)
    requires 1 <= i <= 28 && x & 0xF0000000 == 0
    ensures LowBit(Turn1(x), i) == LowBit(x, Around(i, 1))
  {
    hide Turn1, LowBit;
    assert Around(i, 1) == if i == 28 then 1 else i + 1;
    hide Around;
    TurnLow1(x);
    TurnLow2(x);
    TurnLow3(x);
    TurnLow4(x);
  }

  lemma TurnTwice(x: Word)
    requires x & 0xF0000000 == 0
    ensures Turn2(x) == Turn1(Turn1(x))
  {
  }

  lemma TurnFits(x: Word)
    ensures Turn1(x) & 0xF0000000 == 0
  {
  }

  lemma ChoiceFits(kx: Word, ky: Word)
    ensures var (c, d) := Choice1(kx, ky); c & 0xF0000000 == 0 && d & 0xF0000000 == 0
  {
    hide LHs, RHs, SwapKey;
  }

  lemma AroundMore(i: int, turns: nat)
    requires 1 <= i <= 28
    ensures Around(Around(i, 1), turns) == Around(i, turns + 1)
  {
    if i == 28 { assert (28 + turns) % 28 == turns % 28; }
  }

  /** The half w of the key schedule, begun as start, has turned so far. */
  ghost predicate HasTurned(start: Word, w: Word, turns: nat) {
    w & 0xF0000000 == 0 && forall i :: 1 <= i <= 28 ==> LowBit(w, i) == LowBit(start, Around(i, turns))
  }

  lemma TurnOnce(start: Word, w: Word, turns: nat)
    requires HasTurned(start, w, turns)
    ensures HasTurned(start, Turn1(w), turns + 1)
  {
    hide Turn1, LowBit, Around;
    TurnFits(w);
    forall i | 1 <= i <= 28 ensures LowBit(Turn1(w), i) == LowBit(start, Around(i, turns + 1)) {
      TurnLow(w, i);
      AroundMore(i, turns);
    }
  }

  lemma TurnHalf(start: Word, w: Word, n: nat)
    requires 1 <= n <= 16 && HasTurned(start, w, Turns(n - 1))
    ensures HasTurned(start, if n <= 2 || n == 9 || n == 16 then Turn1(w) else Turn2(w), Turns(n))
  {
    hide HasTurned, Turn1, Turn2;
    TurnOnce(start, w, Turns(n - 1));
    TurnOnce(start, Turn1(w), Turns(n - 1) + 1);
    TwiceOf(start, w, Turns(n - 1));
  }

  /** After n turns of the loop of des_main_ks. */
  lemma {:induction false} StateTurns(kx: Word, ky: Word, n: nat)
    requires n <= 16
    ensures HasTurned(Choice1(kx, ky).0, KeyState(kx, ky, n).0, Turns(n))
    ensures HasTurned(Choice1(kx, ky).1, KeyState(kx, ky, n).1, Turns(n))
  {
    hide Choice1, HasTurned, Turn1, Turn2;
    var c, d := Choice1(kx, ky).0, Choice1(kx, ky).1;
    if n == 0 {
      NotTurned(c, d, kx, ky);
    } else {
      hide Turns;
      StateTurns(kx, ky, n - 1);
      var (x, y) := KeyState(kx, ky, n - 1);
      TurnHalf(c, x, n);
      TurnHalf(d, y, n);
    }
  }

  lemma TwiceOf(start: Word, w: Word, turns: nat)
    requires HasTurned(start, w, turns)
    ensures Turn2(w) == Turn1(Turn1(w))
  {
    TurnTwice(w);
  }

  lemma NotTurned(c: Word, d: Word, kx: Word, ky: Word)
    requires (c, d) == Choice1(kx, ky)
    ensures HasTurned(c, c, 0) && HasTurned(d, d, 0)
  {
    ChoiceFits(kx, ky);
    hide Choice1, LowBit;
    forall i | 1 <= i <= 28 ensures Around(i, 0) == i {}
  }

  lemma FirstBits(x: Word, y: Word)
    ensures
      var k1 := FirstKey(x, y);
      (k1 & 0x20000000 != 0) == (x & 0x02000000 != 0) && (k1 & 0x10000000 != 0) == (x & 0x00000001 != 0)
      && (k1 & 0x08000000 != 0) == (x & 0x00002000 != 0) && (k1 & 0x04000000 != 0) == (x & 0x00400000 != 0)
      && (k1 & 0x02000000 != 0) == (x & 0x00000080 != 0) && (k1 & 0x01000000 != 0) == (x & 0x00040000 != 0)
      && (k1 & 0x00200000 != 0) == (x & 0x00001000 != 0) && (k1 & 0x00100000 != 0) == (x & 0x00200000 != 0)
      && (k1 & 0x00080000 != 0) == (x & 0x00000002 != 0) && (k1 & 0x00040000 != 0) == (x & 0x00000100 != 0)
      && (k1 & 0x00020000 != 0) == (x & 0x00008000 != 0) && (k1 & 0x00010000 != 0) == (x & 0x04000000 != 0)
      && (k1 & 0x00002000 != 0) == (y & 0x04000000 != 0) && (k1 & 0x00001000 != 0) == (y & 0x00010000 != 0)
      && (k1 & 0x00000800 != 0) == (y & 0x00000020 != 0) && (k1 & 0x00000400 != 0) == (y & 0x00000800 != 0)
      && (k1 & 0x00000200 != 0) == (y & 0x00800000 != 0) && (k1 & 0x00000100 != 0) == (y & 0x00000100 != 0)
      && (k1 & 0x00000020 != 0) == (y & 0x00000400 != 0) && (k1 & 0x00000010 != 0) == (y & 0x00004000 != 0)
      && (k1 & 0x00000008 != 0) == (y & 0x00000040 != 0) && (k1 & 0x00000004 != 0) == (y & 0x00100000 != 0)
      && (k1 & 0x00000002 != 0) == (y & 0x08000000 != 0) && (k1 & 0x00000001 != 0) == (y & 0x01000000 != 0)
  {
  }

  lemma SecondBits(x: Word, y: Word)
    ensures
      var k2 := SecondKey(x, y);
      (k2 & 0x20000000 != 0) == (x & 0x00004000 != 0) && (k2 & 0x10000000 != 0) == (x & 0x00000800 != 0)
      && (k2 & 0x08000000 != 0) == (x & 0x00020000 != 0) && (k2 & 0x04000000 != 0) == (x & 0x00000010 != 0)
      && (k2 & 0x02000000 != 0) == (x & 0x08000000 != 0) && (k2 & 0x01000000 != 0) == (x & 0x00800000 != 0)
      && (k2 & 0x00200000 != 0) == (x & 0x00000020 != 0) && (k2 & 0x00100000 != 0) == (x & 0x00000200 != 0)
      && (k2 & 0x00080000 != 0) == (x & 0x00010000 != 0) && (k2 & 0x00040000 != 0) == (x & 0x01000000 != 0)
      && (k2 & 0x00020000 != 0) == (x & 0x00000004 != 0) && (k2 & 0x00010000 != 0) == (x & 0x00100000 != 0)
      && (k2 & 0x00002000 != 0) == (y & 0x00008000 != 0) && (k2 & 0x00001000 != 0) == (y & 0x00000010 != 0)
      && (k2 & 0x00000800 != 0) == (y & 0x02000000 != 0) && (k2 & 0x00000400 != 0) == (y & 0x00080000 != 0)
      && (k2 & 0x00000200 != 0) == (y & 0x00000200 != 0) && (k2 & 0x00000100 != 0) == (y & 0x00000002 != 0)
      && (k2 & 0x00000020 != 0) == (y & 0x00001000 != 0) && (k2 & 0x00000010 != 0) == (y & 0x00000080 != 0)
      && (k2 & 0x00000008 != 0) == (y & 0x00020000 != 0) && (k2 & 0x00000004 != 0) == (y & 0x00000001 != 0)
      && (k2 & 0x00000002 != 0) == (y & 0x00400000 != 0) && (k2 & 0x00000001 != 0) == (y & 0x00000008 != 0)
  {
  }

  function ChosenBit(x: Word, y: Word, c: int): bool
    requires 1 <= c <= 56
  {
    if c <= 28 then LowBit(x, c) else LowBit(y, c - 28)
  }

  lemma Chosen1(x: Word, y: Word)
    ensures forall q :: 1 <= q <= 6 ==> Held(FirstKey(x, y), SecondKey(x, y), q) == ChosenBit(x, y, PC2(q))
  {
    hide FirstKey, SecondKey, Bit;
    SecondBits(x, y);
    Literals(x);
    Literals(y);
    Literals(SecondKey(x, y));
  }

  lemma Chosen2(x: Word, y: Word)
    ensures forall q :: 7 <= q <= 12 ==> Held(FirstKey(x, y), SecondKey(x, y), q) == ChosenBit(x, y, PC2(q))
  {
    hide FirstKey, SecondKey, Bit;
    FirstBits(x, y);
    Literals(x);
    Literals(y);
    Literals(FirstKey(x, y));
  }

  lemma Chosen3(x: Word, y: Word)
    ensures forall q :: 13 <= q <= 18 ==> Held(FirstKey(x, y), SecondKey(x, y), q) == ChosenBit(x, y, PC2(q))
  {
    hide FirstKey, SecondKey, Bit;
    SecondBits(x, y);
    Literals(x);
    Literals(y);
    Literals(SecondKey(x, y));
  }

  lemma Chosen4(x: Word, y: Word)
    ensures forall q :: 19 <= q <= 24 ==> Held(FirstKey(x, y), SecondKey(x, y), q) == ChosenBit(x, y, PC2(q))
  {
    hide FirstKey, SecondKey, Bit;
    FirstBits(x, y);
    Literals(x);
    Literals(y);
    Literals(FirstKey(x, y));
  }

  lemma Chosen5(x: Word, y: Word)
    ensures forall q :: 25 <= q <= 30 ==> Held(FirstKey(x, y), SecondKey(x, y), q) == ChosenBit(x, y, PC2(q))
  {
    hide FirstKey, SecondKey, Bit;
    SecondBits(x, y);
    Literals(x);
    Literals(y);
    Literals(SecondKey(x, y));
  }

  lemma Chosen6(x: Word, y: Word)
    ensures forall q :: 31 <= q <= 36 ==> Held(FirstKey(x, y), SecondKey(x, y), q) == ChosenBit(x, y, PC2(q))
  {
    hide FirstKey, SecondKey, Bit;
    FirstBits(x, y);
    Literals(x);
    Literals(y);
    Literals(FirstKey(x, y));
  }

  lemma Chosen7(x: Word, y: Word)
    ensures forall q :: 37 <= q <= 42 ==> Held(FirstKey(x, y), SecondKey(x, y), q) == ChosenBit(x, y, PC2(q))
  {
    hide FirstKey, SecondKey, Bit;
    SecondBits(x, y);
    Literals(x);
    Literals(y);
    Literals(SecondKey(x, y));
  }

  lemma Chosen8(x: Word, y: Word)
    ensures forall q :: 43 <= q <= 48 ==> Held(FirstKey(x, y), SecondKey(x, y), q) == ChosenBit(x, y, PC2(q))
  {
    hide FirstKey, SecondKey, Bit;
    FirstBits(x, y);
    Literals(x);
    Literals(y);
    Literals(FirstKey(x, y));
  }

  /** The subkeys of round n hold the round key that the standard chooses: PC1, the turns so far, PC2. */
  lemma KeyLaw(kx: Word, ky: Word, n: nat)
    requires n <= 16
    ensures var k := KeyPair(kx, ky, n); forall q :: 1 <= q <= 48 ==> Held(k.0, k.1, q) == KeyBit(kx, ky, n, q)
  {
    hide FirstKey, SecondKey, Held, PC1, PC2, Choice1, LowBit, Around, KeyState;
    var (x, y) := KeyState(kx, ky, n);
    StateTurns(kx, ky, n);
    Chosen1(x, y);
    Chosen2(x, y);
    Chosen3(x, y);
    Chosen4(x, y);
    Chosen5(x, y);
    Chosen6(x, y);
    Chosen7(x, y);
    Chosen8(x, y);
    forall q | 1 <= q <= 48 ensures ChosenBit(x, y, PC2(q)) == KeyBit(kx, ky, n, q) {
      var c := PC2(q);
      HalfIs(kx, ky, if c <= 28 then Around(c, Turns(n)) else Around(c - 28, Turns(n)));
    }
  }

  lemma HalfIs(kx: Word, ky: Word, i: int)
    requires 1 <= i <= 28
    ensures LowBit(Choice1(kx, ky).0, i) == PairBit(kx, ky, PC1(i)) && LowBit(Choice1(kx, ky).1, i) == PairBit(kx, ky, PC1(28 + i))
  {
    hide SwapKey, LeftHalf, RightHalf, LeftPlain, RightPlain, PC1, LowBit, PairBit;
    var (x, y) := SwapKey(kx, ky);
    LeftIsPlain(x);
    RightIsPlain(y);
    PlainC(kx, ky, i);
    PlainD(kx, ky, i);
  }
}
