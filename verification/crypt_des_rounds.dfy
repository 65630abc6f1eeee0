/** The permutations and the rounds of lualib-src/lua-crypt.cpp against those of FIPS 46-3. */
module DesRounds {
  import opened Common
  import opened Des
  import opened DesTables
  import opened Fips46

  // ---------- the initial permutation ----------

  lemma Row1(x: Word, y: Word, i: int)
    requires 1 <= i <= 8
    ensures var (a, b) := Initial(x, y); PairBit(Right1(a), Right1(b), i) == PairBit(x, y, IP(i))
  {
    match i
    case 1 => case 2 => case 3 => case 4 => case 5 => case 6 => case 7 => case 8 =>
  }

  lemma Row2(x: Word, y: Word, i: int)
    requires 9 <= i <= 16
    ensures var (a, b) := Initial(x, y); PairBit(Right1(a), Right1(b), i) == PairBit(x, y, IP(i))
  {
    match i
    case 9 => case 10 => case 11 => case 12 => case 13 => case 14 => case 15 => case 16 =>
  }

  lemma Row3(x: Word, y: Word, i: int)
    requires 17 <= i <= 24
    ensures var (a, b) := Initial(x, y); PairBit(Right1(a), Right1(b), i) == PairBit(x, y, IP(i))
  {
    match i
    case 17 => case 18 => case 19 => case 20 => case 21 => case 22 => case 23 => case 24 =>
  }

  lemma Row4(x: Word, y: Word, i: int)
    requires 25 <= i <= 32
    ensures var (a, b) := Initial(x, y); PairBit(Right1(a), Right1(b), i) == PairBit(x, y, IP(i))
  {
    match i
    case 25 => case 26 => case 27 => case 28 => case 29 => case 30 => case 31 => case 32 =>
  }

  lemma Row5(x: Word, y: Word, i: int)
    requires 33 <= i <= 40
    ensures var (a, b) := Initial(x, y); PairBit(Right1(a), Right1(b), i) == PairBit(x, y, IP(i))
  {
    match i
    case 33 => case 34 => case 35 => case 36 => case 37 => case 38 => case 39 => case 40 =>
  }

  lemma Row6(x: Word, y: Word, i: int)
    requires 41 <= i <= 48
    ensures var (a, b) := Initial(x, y); PairBit(Right1(a), Right1(b), i) == PairBit(x, y, IP(i))
  {
    match i
    case 41 => case 42 => case 43 => case 44 => case 45 => case 46 => case 47 => case 48 =>
  }

  lemma Row7(x: Word, y: Word, i: int)
    requires 49 <= i <= 56
    ensures var (a, b) := Initial(x, y); PairBit(Right1(a), Right1(b), i) == PairBit(x, y, IP(i))
  {
    match i
    case 49 => case 50 => case 51 => case 52 => case 53 => case 54 => case 55 => case 56 =>
  }

  lemma Row8(x: Word, y: Word, i: int)
    requires 57 <= i <= 64
    ensures var (a, b) := Initial(x, y); PairBit(Right1(a), Right1(b), i) == PairBit(x, y, IP(i))
  {
    match i
    case 57 => case 58 => case 59 => case 60 => case 61 => case 62 => case 63 => case 64 =>
  }

  lemma Literals(w: Word)
    ensures Bit(w, 1) == (w & 0x80000000 != 0) && Bit(w, 2) == (w & 0x40000000 != 0) && Bit(w, 3) == (w & 0x20000000 != 0) && Bit(w, 4) == (w & 0x10000000 != 0)
      && Bit(w, 5) == (w & 0x08000000 != 0) && Bit(w, 6) == (w & 0x04000000 != 0) && Bit(w, 7) == (w & 0x02000000 != 0) && Bit(w, 8) == (w & 0x01000000 != 0)
      && Bit(w, 9) == (w & 0x00800000 != 0) && Bit(w, 10) == (w & 0x00400000 != 0) && Bit(w, 11) == (w & 0x00200000 != 0) && Bit(w, 12) == (w & 0x00100000 != 0)
      && Bit(w, 13) == (w & 0x00080000 != 0) && Bit(w, 14) == (w & 0x00040000 != 0) && Bit(w, 15) == (w & 0x00020000 != 0) && Bit(w, 16) == (w & 0x00010000 != 0)
      && Bit(w, 17) == (w & 0x00008000 != 0) && Bit(w, 18) == (w & 0x00004000 != 0) && Bit(w, 19) == (w & 0x00002000 != 0) && Bit(w, 20) == (w & 0x00001000 != 0)
      && Bit(w, 21) == (w & 0x00000800 != 0) && Bit(w, 22) == (w & 0x00000400 != 0) && Bit(w, 23) == (w & 0x00000200 != 0) && Bit(w, 24) == (w & 0x00000100 != 0)
      && Bit(w, 25) == (w & 0x00000080 != 0) && Bit(w, 26) == (w & 0x00000040 != 0) && Bit(w, 27) == (w & 0x00000020 != 0) && Bit(w, 28) == (w & 0x00000010 != 0)
      && Bit(w, 29) == (w & 0x00000008 != 0) && Bit(w, 30) == (w & 0x00000004 != 0) && Bit(w, 31) == (w & 0x00000002 != 0) && Bit(w, 32) == (w & 0x00000001 != 0)
  {
  }

  /** DES_IP is IP, with both halves turned by one place. */
  lemma InitialPermutes(x: Word, y: Word)
    ensures var (a, b) := Initial(x, y); IsPermuted(x, y, Right1(a), Right1(b))
  {
    hide Initial, Right1, PairBit, IP;
    var (a, b) := Initial(x, y);
    forall i | 1 <= i <= 64 ensures PairBit(Right1(a), Right1(b), i) == PairBit(x, y, IP(i)) {
      if i <= 8 { Row1(x, y, i); } else if i <= 16 { Row2(x, y, i); }
      else if i <= 24 { Row3(x, y, i); } else if i <= 32 { Row4(x, y, i); }
      else if i <= 40 { Row5(x, y, i); } else if i <= 48 { Row6(x, y, i); }
      else if i <= 56 { Row7(x, y, i); } else { Row8(x, y, i); }
    }
  }

  // ---------- the round ----------

  /** Bit q of the 48-bit round key that two subkey words hold: six bits a byte, the even boxes in the first word. */
  function Held(k1: Word, k2: Word, q: int): bool
    requires 1 <= q <= 48
  {
    var box, place := (q - 1) / 6, (q - 1) % 6;
    Bit(if box % 2 == 1 then k1 else k2, 8 * (box / 2) + 3 + place)
  }

  function HeldKey(k1: Word, k2: Word): int -> bool { q => 1 <= q <= 48 && Held(k1, k2, q) }

  lemma AroundTheEnd()
    ensures E(1) == 32 && E(2) == 1 && E(3) == 2 && E(4) == 3 && E(5) == 4 && E(6) == 5
    ensures E(43) == 28 && E(44) == 29 && E(45) == 30 && E(46) == 31 && E(47) == 32 && E(48) == 1
  {
  }

  lemma SixBits(w: Word)
    ensures w & 0x3F ==
      (if w & 32 != 0 then 32 else 0) | (if w & 16 != 0 then 16 else 0) | (if w & 8 != 0 then 8 else 0)
      | (if w & 4 != 0 then 4 else 0) | (if w & 2 != 0 then 2 else 0) | (if w & 1 != 0 then 1 else 0)
  {
  }

  lemma SixIs(b1: bool, b2: bool, b3: bool, b4: bool, b5: bool, b6: bool, v: Word)
    requires v ==
      (if b1 then 32 else 0) | (if b2 then 16 else 0) | (if b3 then 8 else 0)
      | (if b4 then 4 else 0) | (if b5 then 2 else 0) | (if b6 then 1 else 0)
    ensures v == Six(b1, b2, b3, b4, b5, b6)
  {
  }

  lemma SixOf(w: Word)
    ensures w & 0x3F == Six(w & 32 != 0, w & 16 != 0, w & 8 != 0, w & 4 != 0, w & 2 != 0, w & 1 != 0)
  {
    hide Six;
    SixBits(w);
    SixIs(w & 32 != 0, w & 16 != 0, w & 8 != 0, w & 4 != 0, w & 2 != 0, w & 1 != 0, w & 0x3F);
  }

  lemma Fed1(k2: Word, r: Word)
    ensures
      var w := (k2 ^ ((Left1(r) << 28) | (Left1(r) >> 4))) >> 24;
      (w & 32 != 0) == ((r & 0x00000001 != 0) != (k2 & 0x20000000 != 0)) && (w & 16 != 0) == ((r & 0x80000000 != 0) != (k2 & 0x10000000 != 0))
      && (w & 8 != 0) == ((r & 0x40000000 != 0) != (k2 & 0x08000000 != 0)) && (w & 4 != 0) == ((r & 0x20000000 != 0) != (k2 & 0x04000000 != 0))
      && (w & 2 != 0) == ((r & 0x10000000 != 0) != (k2 & 0x02000000 != 0)) && (w & 1 != 0) == ((r & 0x08000000 != 0) != (k2 & 0x01000000 != 0))
  {
  }

  lemma Six1(k1: Word, k2: Word, r: Word, w: Word)
    requires
      (w & 32 != 0) == ((r & 0x00000001 != 0) != (k2 & 0x20000000 != 0)) && (w & 16 != 0) == ((r & 0x80000000 != 0) != (k2 & 0x10000000 != 0))
      && (w & 8 != 0) == ((r & 0x40000000 != 0) != (k2 & 0x08000000 != 0)) && (w & 4 != 0) == ((r & 0x20000000 != 0) != (k2 & 0x04000000 != 0))
      && (w & 2 != 0) == ((r & 0x10000000 != 0) != (k2 & 0x02000000 != 0)) && (w & 1 != 0) == ((r & 0x08000000 != 0) != (k2 & 0x01000000 != 0))
    ensures w & 0x3F == Input(HeldKey(k1, k2), r, 1)
  {
    AroundTheEnd();
    hide Bit, Six, E;
    Literals(r);
    Literals(k2);
    SixOf(w);
  }

  lemma Box1(k1: Word, k2: Word, r: Word)
    ensures ((k2 ^ ((Left1(r) << 28) | (Left1(r) >> 4))) >> 24) & 0x3F == Input(HeldKey(k1, k2), r, 1)
  {
    hide Left1, Input, HeldKey;
    Fed1(k2, r);
    Six1(k1, k2, r, (k2 ^ ((Left1(r) << 28) | (Left1(r) >> 4))) >> 24);
  }

  lemma Fed2(k1: Word, r: Word)
    ensures
      var w := (k1 ^ Left1(r)) >> 24;
      (w & 32 != 0) == ((r & 0x10000000 != 0) != (k1 & 0x20000000 != 0)) && (w & 16 != 0) == ((r & 0x08000000 != 0) != (k1 & 0x10000000 != 0))
      && (w & 8 != 0) == ((r & 0x04000000 != 0) != (k1 & 0x08000000 != 0)) && (w & 4 != 0) == ((r & 0x02000000 != 0) != (k1 & 0x04000000 != 0))
      && (w & 2 != 0) == ((r & 0x01000000 != 0) != (k1 & 0x02000000 != 0)) && (w & 1 != 0) == ((r & 0x00800000 != 0) != (k1 & 0x01000000 != 0))
  {
  }

  lemma Six2(k1: Word, k2: Word, r: Word, w: Word)
    requires
      (w & 32 != 0) == ((r & 0x10000000 != 0) != (k1 & 0x20000000 != 0)) && (w & 16 != 0) == ((r & 0x08000000 != 0) != (k1 & 0x10000000 != 0))
      && (w & 8 != 0) == ((r & 0x04000000 != 0) != (k1 & 0x08000000 != 0)) && (w & 4 != 0) == ((r & 0x02000000 != 0) != (k1 & 0x04000000 != 0))
      && (w & 2 != 0) == ((r & 0x01000000 != 0) != (k1 & 0x02000000 != 0)) && (w & 1 != 0) == ((r & 0x00800000 != 0) != (k1 & 0x01000000 != 0))
    ensures w & 0x3F == Input(HeldKey(k1, k2), r, 2)
  {
    hide Bit, Six;
    Literals(r);
    Literals(k1);
    SixOf(w);
  }

  lemma Box2(k1: Word, k2: Word, r: Word)
    ensures ((k1 ^ Left1(r)) >> 24) & 0x3F == Input(HeldKey(k1, k2), r, 2)
  {
    hide Left1, Input, HeldKey;
    Fed2(k1, r);
    Six2(k1, k2, r, (k1 ^ Left1(r)) >> 24);
  }

  lemma Fed3(k2: Word, r: Word)
    ensures
      var w := (k2 ^ ((Left1(r) << 28) | (Left1(r) >> 4))) >> 16;
      (w & 32 != 0) == ((r & 0x01000000 != 0) != (k2 & 0x00200000 != 0)) && (w & 16 != 0) == ((r & 0x00800000 != 0) != (k2 & 0x00100000 != 0))
      && (w & 8 != 0) == ((r & 0x00400000 != 0) != (k2 & 0x00080000 != 0)) && (w & 4 != 0) == ((r & 0x00200000 != 0) != (k2 & 0x00040000 != 0))
      && (w & 2 != 0) == ((r & 0x00100000 != 0) != (k2 & 0x00020000 != 0)) && (w & 1 != 0) == ((r & 0x00080000 != 0) != (k2 & 0x00010000 != 0))
  {
  }

  lemma Six3(k1: Word, k2: Word, r: Word, w: Word)
    requires
      (w & 32 != 0) == ((r & 0x01000000 != 0) != (k2 & 0x00200000 != 0)) && (w & 16 != 0) == ((r & 0x00800000 != 0) != (k2 & 0x00100000 != 0))
      && (w & 8 != 0) == ((r & 0x00400000 != 0) != (k2 & 0x00080000 != 0)) && (w & 4 != 0) == ((r & 0x00200000 != 0) != (k2 & 0x00040000 != 0))
      && (w & 2 != 0) == ((r & 0x00100000 != 0) != (k2 & 0x00020000 != 0)) && (w & 1 != 0) == ((r & 0x00080000 != 0) != (k2 & 0x00010000 != 0))
    ensures w & 0x3F == Input(HeldKey(k1, k2), r, 3)
  {
    hide Bit, Six;
    Literals(r);
    Literals(k2);
    SixOf(w);
  }

  lemma Box3(k1: Word, k2: Word, r: Word)
    ensures ((k2 ^ ((Left1(r) << 28) | (Left1(r) >> 4))) >> 16) & 0x3F == Input(HeldKey(k1, k2), r, 3)
  {
    hide Left1, Input, HeldKey;
    Fed3(k2, r);
    Six3(k1, k2, r, (k2 ^ ((Left1(r) << 28) | (Left1(r) >> 4))) >> 16);
  }

  lemma Fed4(k1: Word, r: Word)
    ensures
      var w := (k1 ^ Left1(r)) >> 16;
      (w & 32 != 0) == ((r & 0x00100000 != 0) != (k1 & 0x00200000 != 0)) && (w & 16 != 0) == ((r & 0x00080000 != 0) != (k1 & 0x00100000 != 0))
      && (w & 8 != 0) == ((r & 0x00040000 != 0) != (k1 & 0x00080000 != 0)) && (w & 4 != 0) == ((r & 0x00020000 != 0) != (k1 & 0x00040000 != 0))
      && (w & 2 != 0) == ((r & 0x00010000 != 0) != (k1 & 0x00020000 != 0)) && (w & 1 != 0) == ((r & 0x00008000 != 0) != (k1 & 0x00010000 != 0))
  {
  }

  lemma Six4(k1: Word, k2: Word, r: Word, w: Word)
    requires
      (w & 32 != 0) == ((r & 0x00100000 != 0) != (k1 & 0x00200000 != 0)) && (w & 16 != 0) == ((r & 0x00080000 != 0) != (k1 & 0x00100000 != 0))
      && (w & 8 != 0) == ((r & 0x00040000 != 0) != (k1 & 0x00080000 != 0)) && (w & 4 != 0) == ((r & 0x00020000 != 0) != (k1 & 0x00040000 != 0))
      && (w & 2 != 0) == ((r & 0x00010000 != 0) != (k1 & 0x00020000 != 0)) && (w & 1 != 0) == ((r & 0x00008000 != 0) != (k1 & 0x00010000 != 0))
    ensures w & 0x3F == Input(HeldKey(k1, k2), r, 4)
  {
    hide Bit, Six;
    Literals(r);
    Literals(k1);
    SixOf(w);
  }

  lemma Box4(k1: Word, k2: Word, r: Word)
    ensures ((k1 ^ Left1(r)) >> 16) & 0x3F == Input(HeldKey(k1, k2), r, 4)
  {
    hide Left1, Input, HeldKey;
    Fed4(k1, r);
    Six4(k1, k2, r, (k1 ^ Left1(r)) >> 16);
  }

  lemma Fed5(k2: Word, r: Word)
    ensures
      var w := (k2 ^ ((Left1(r) << 28) | (Left1(r) >> 4))) >> 8;
      (w & 32 != 0) == ((r & 0x00010000 != 0) != (k2 & 0x00002000 != 0)) && (w & 16 != 0) == ((r & 0x00008000 != 0) != (k2 & 0x00001000 != 0))
      && (w & 8 != 0) == ((r & 0x00004000 != 0) != (k2 & 0x00000800 != 0)) && (w & 4 != 0) == ((r & 0x00002000 != 0) != (k2 & 0x00000400 != 0))
      && (w & 2 != 0) == ((r & 0x00001000 != 0) != (k2 & 0x00000200 != 0)) && (w & 1 != 0) == ((r & 0x00000800 != 0) != (k2 & 0x00000100 != 0))
  {
  }

  lemma Six5(k1: Word, k2: Word, r: Word, w: Word)
    requires
      (w & 32 != 0) == ((r & 0x00010000 != 0) != (k2 & 0x00002000 != 0)) && (w & 16 != 0) == ((r & 0x00008000 != 0) != (k2 & 0x00001000 != 0))
      && (w & 8 != 0) == ((r & 0x00004000 != 0) != (k2 & 0x00000800 != 0)) && (w & 4 != 0) == ((r & 0x00002000 != 0) != (k2 & 0x00000400 != 0))
      && (w & 2 != 0) == ((r & 0x00001000 != 0) != (k2 & 0x00000200 != 0)) && (w & 1 != 0) == ((r & 0x00000800 != 0) != (k2 & 0x00000100 != 0))
    ensures w & 0x3F == Input(HeldKey(k1, k2), r, 5)
  {
    hide Bit, Six;
    Literals(r);
    Literals(k2);
    SixOf(w);
  }

  lemma Box5(k1: Word, k2: Word, r: Word)
    ensures ((k2 ^ ((Left1(r) << 28) | (Left1(r) >> 4))) >> 8) & 0x3F == Input(HeldKey(k1, k2), r, 5)
  {
    hide Left1, Input, HeldKey;
    Fed5(k2, r);
    Six5(k1, k2, r, (k2 ^ ((Left1(r) << 28) | (Left1(r) >> 4))) >> 8);
  }

  lemma Fed6(k1: Word, r: Word)
    ensures
      var w := (k1 ^ Left1(r)) >> 8;
      (w & 32 != 0) == ((r & 0x00001000 != 0) != (k1 & 0x00002000 != 0)) && (w & 16 != 0) == ((r & 0x00000800 != 0) != (k1 & 0x00001000 != 0))
      && (w & 8 != 0) == ((r & 0x00000400 != 0) != (k1 & 0x00000800 != 0)) && (w & 4 != 0) == ((r & 0x00000200 != 0) != (k1 & 0x00000400 != 0))
      && (w & 2 != 0) == ((r & 0x00000100 != 0) != (k1 & 0x00000200 != 0)) && (w & 1 != 0) == ((r & 0x00000080 != 0) != (k1 & 0x00000100 != 0))
  {
  }

  lemma Six6(k1: Word, k2: Word, r: Word, w: Word)
    requires
      (w & 32 != 0) == ((r & 0x00001000 != 0) != (k1 & 0x00002000 != 0)) && (w & 16 != 0) == ((r & 0x00000800 != 0) != (k1 & 0x00001000 != 0))
      && (w & 8 != 0) == ((r & 0x00000400 != 0) != (k1 & 0x00000800 != 0)) && (w & 4 != 0) == ((r & 0x00000200 != 0) != (k1 & 0x00000400 != 0))
      && (w & 2 != 0) == ((r & 0x00000100 != 0) != (k1 & 0x00000200 != 0)) && (w & 1 != 0) == ((r & 0x00000080 != 0) != (k1 & 0x00000100 != 0))
    ensures w & 0x3F == Input(HeldKey(k1, k2), r, 6)
  {
    hide Bit, Six;
    Literals(r);
    Literals(k1);
    SixOf(w);
  }

  lemma Box6(k1: Word, k2: Word, r: Word)
    ensures ((k1 ^ Left1(r)) >> 8) & 0x3F == Input(HeldKey(k1, k2), r, 6)
  {
    hide Left1, Input, HeldKey;
    Fed6(k1, r);
    Six6(k1, k2, r, (k1 ^ Left1(r)) >> 8);
  }

  lemma Fed7(k2: Word, r: Word)
    ensures
      var w := k2 ^ ((Left1(r) << 28) | (Left1(r) >> 4));
      (w & 32 != 0) == ((r & 0x00000100 != 0) != (k2 & 0x00000020 != 0)) && (w & 16 != 0) == ((r & 0x00000080 != 0) != (k2 & 0x00000010 != 0))
      && (w & 8 != 0) == ((r & 0x00000040 != 0) != (k2 & 0x00000008 != 0)) && (w & 4 != 0) == ((r & 0x00000020 != 0) != (k2 & 0x00000004 != 0))
      && (w & 2 != 0) == ((r & 0x00000010 != 0) != (k2 & 0x00000002 != 0)) && (w & 1 != 0) == ((r & 0x00000008 != 0) != (k2 & 0x00000001 != 0))
  {
  }

  lemma Six7(k1: Word, k2: Word, r: Word, w: Word)
    requires
      (w & 32 != 0) == ((r & 0x00000100 != 0) != (k2 & 0x00000020 != 0)) && (w & 16 != 0) == ((r & 0x00000080 != 0) != (k2 & 0x00000010 != 0))
      && (w & 8 != 0) == ((r & 0x00000040 != 0) != (k2 & 0x00000008 != 0)) && (w & 4 != 0) == ((r & 0x00000020 != 0) != (k2 & 0x00000004 != 0))
      && (w & 2 != 0) == ((r & 0x00000010 != 0) != (k2 & 0x00000002 != 0)) && (w & 1 != 0) == ((r & 0x00000008 != 0) != (k2 & 0x00000001 != 0))
    ensures w & 0x3F == Input(HeldKey(k1, k2), r, 7)
  {
    hide Bit, Six;
    Literals(r);
    Literals(k2);
    SixOf(w);
  }

  lemma Box7(k1: Word, k2: Word, r: Word)
    ensures (k2 ^ ((Left1(r) << 28) | (Left1(r) >> 4))) & 0x3F == Input(HeldKey(k1, k2), r, 7)
  {
    hide Left1, Input, HeldKey;
    Fed7(k2, r);
    Six7(k1, k2, r, k2 ^ ((Left1(r) << 28) | (Left1(r) >> 4)));
  }

  lemma Fed8(k1: Word, r: Word)
    ensures
      var w := k1 ^ Left1(r);
      (w & 32 != 0) == ((r & 0x00000010 != 0) != (k1 & 0x00000020 != 0)) && (w & 16 != 0) == ((r & 0x00000008 != 0) != (k1 & 0x00000010 != 0))
      && (w & 8 != 0) == ((r & 0x00000004 != 0) != (k1 & 0x00000008 != 0)) && (w & 4 != 0) == ((r & 0x00000002 != 0) != (k1 & 0x00000004 != 0))
      && (w & 2 != 0) == ((r & 0x00000001 != 0) != (k1 & 0x00000002 != 0)) && (w & 1 != 0) == ((r & 0x80000000 != 0) != (k1 & 0x00000001 != 0))
  {
  }

  lemma Six8(k1: Word, k2: Word, r: Word, w: Word)
    requires
      (w & 32 != 0) == ((r & 0x00000010 != 0) != (k1 & 0x00000020 != 0)) && (w & 16 != 0) == ((r & 0x00000008 != 0) != (k1 & 0x00000010 != 0))
      && (w & 8 != 0) == ((r & 0x00000004 != 0) != (k1 & 0x00000008 != 0)) && (w & 4 != 0) == ((r & 0x00000002 != 0) != (k1 & 0x00000004 != 0))
      && (w & 2 != 0) == ((r & 0x00000001 != 0) != (k1 & 0x00000002 != 0)) && (w & 1 != 0) == ((r & 0x80000000 != 0) != (k1 & 0x00000001 != 0))
    ensures w & 0x3F == Input(HeldKey(k1, k2), r, 8)
  {
    AroundTheEnd();
    hide Bit, Six, E;
    Literals(r);
    Literals(k1);
    SixOf(w);
  }

  lemma Box8(k1: Word, k2: Word, r: Word)
    ensures (k1 ^ Left1(r)) & 0x3F == Input(HeldKey(k1, k2), r, 8)
  {
    hide Left1, Input, HeldKey;
    Fed8(k1, r);
    Six8(k1, k2, r, k1 ^ Left1(r));
  }

  function Sum(a1: Word, a2: Word, a3: Word, a4: Word, a5: Word, a6: Word, a7: Word, a8: Word): Word {
    a1 ^ a2 ^ a3 ^ a4 ^ a5 ^ a6 ^ a7 ^ a8
  }

  /** The eight tables at their inputs, added up. */
  function Summed(sb: Tables, key: int -> bool, r: Word): Word
    requires TablesOk(sb)
  {
    Sum(sb[0](Input(key, r, 1)), sb[1](Input(key, r, 2)), sb[2](Input(key, r, 3)), sb[3](Input(key, r, 4)),
        sb[4](Input(key, r, 5)), sb[5](Input(key, r, 6)), sb[6](Input(key, r, 7)), sb[7](Input(key, r, 8)))
  }

  /**
   DES_ROUND for all tables and subkeys: table j sees the six bits that E gives S-box j, added to the six
   bits of its part of the round key, and the round adds the eight entries to the other half.
   */
  lemma RoundLaw(sb: Tables, k1: Word, k2: Word, r: Word)
    requires TablesOk(sb)
    ensures Mix(sb, k1, k2, Left1(r)) == Summed(sb, HeldKey(k1, k2), r)
  {
    hide Input, Left1, HeldKey;
    Box1(k1, k2, r);
    Box2(k1, k2, r);
    Box3(k1, k2, r);
    Box4(k1, k2, r);
    Box5(k1, k2, r);
    Box6(k1, k2, r);
    Box7(k1, k2, r);
    Box8(k1, k2, r);
  }

  // ---------- the S-boxes and P ----------

  lemma Table1(v: Word)
    ensures
      var w := Right1(SB1(v));
      w & 0xFF7F7DFD == 0
      && (w & 0x00800000 != 0) == (S1(v) & 8 != 0) && (w & 0x00008000 != 0) == (S1(v) & 4 != 0)
      && (w & 0x00000200 != 0) == (S1(v) & 2 != 0) && (w & 0x00000002 != 0) == (S1(v) & 1 != 0)
  {
  }

  lemma Table2(v: Word)
    ensures
      var w := Right1(SB2(v));
      w & 0xBFF7BFEF == 0
      && (w & 0x00080000 != 0) == (S2(v) & 8 != 0) && (w & 0x00000010 != 0) == (S2(v) & 4 != 0)
      && (w & 0x40000000 != 0) == (S2(v) & 2 != 0) && (w & 0x00004000 != 0) == (S2(v) & 1 != 0)
  {
  }

  lemma Table3(v: Word)
    ensures
      var w := Right1(SB3(v));
      w & 0xFBFEFEFB == 0
      && (w & 0x00000100 != 0) == (S3(v) & 8 != 0) && (w & 0x00010000 != 0) == (S3(v) & 4 != 0)
      && (w & 0x00000004 != 0) == (S3(v) & 2 != 0) && (w & 0x04000000 != 0) == (S3(v) & 1 != 0)
  {
  }

  lemma Table4(v: Word)
    ensures
      var w := Right1(SB4(v));
      w & 0x7FBFEFBF == 0
      && (w & 0x00000040 != 0) == (S4(v) & 8 != 0) && (w & 0x00001000 != 0) == (S4(v) & 4 != 0)
      && (w & 0x00400000 != 0) == (S4(v) & 2 != 0) && (w & 0x80000000 != 0) == (S4(v) & 1 != 0)
  {
  }

  lemma Table5(v: Word)
    ensures
      var w := Right1(SB5(v));
      w & 0xDEFBFF7F == 0
      && (w & 0x01000000 != 0) == (S5(v) & 8 != 0) && (w & 0x00040000 != 0) == (S5(v) & 4 != 0)
      && (w & 0x00000080 != 0) == (S5(v) & 2 != 0) && (w & 0x20000000 != 0) == (S5(v) & 1 != 0)
  {
  }

  lemma Table6(v: Word)
    ensures
      var w := Right1(SB6(v));
      w & 0xEFDFDFF7 == 0
      && (w & 0x10000000 != 0) == (S6(v) & 8 != 0) && (w & 0x00000008 != 0) == (S6(v) & 4 != 0)
      && (w & 0x00200000 != 0) == (S6(v) & 2 != 0) && (w & 0x00002000 != 0) == (S6(v) & 1 != 0)
  {
  }

  lemma Table7(v: Word)
    ensures
      var w := Right1(SB7(v));
      w & 0xFDEFFBFE == 0
      && (w & 0x00000001 != 0) == (S7(v) & 8 != 0) && (w & 0x00100000 != 0) == (S7(v) & 4 != 0)
      && (w & 0x00000400 != 0) == (S7(v) & 2 != 0) && (w & 0x02000000 != 0) == (S7(v) & 1 != 0)
  {
  }

  lemma Table8(v: Word)
    ensures
      var w := Right1(SB8(v));
      w & 0xF7FDF7DF == 0
      && (w & 0x08000000 != 0) == (S8(v) & 8 != 0) && (w & 0x00000020 != 0) == (S8(v) & 4 != 0)
      && (w & 0x00020000 != 0) == (S8(v) & 2 != 0) && (w & 0x00000800 != 0) == (S8(v) & 1 != 0)
  {
  }

  /** The tables fill different places, so adding them up only joins them. */
  lemma NoOverlap(a1: Word, a2: Word, a3: Word, a4: Word, a5: Word, a6: Word, a7: Word, a8: Word)
    requires a1 & 0xFF7F7DFD == 0 && a2 & 0xBFF7BFEF == 0 && a3 & 0xFBFEFEFB == 0 && a4 & 0x7FBFEFBF == 0
      && a5 & 0xDEFBFF7F == 0 && a6 & 0xEFDFDFF7 == 0 && a7 & 0xFDEFFBFE == 0 && a8 & 0xF7FDF7DF == 0
    ensures
      var w := Sum(a1, a2, a3, a4, a5, a6, a7, a8);
      (w & 0x80000000 != 0) == (a4 & 0x80000000 != 0) && (w & 0x40000000 != 0) == (a2 & 0x40000000 != 0)
      && (w & 0x20000000 != 0) == (a5 & 0x20000000 != 0) && (w & 0x10000000 != 0) == (a6 & 0x10000000 != 0)
      && (w & 0x08000000 != 0) == (a8 & 0x08000000 != 0) && (w & 0x04000000 != 0) == (a3 & 0x04000000 != 0)
      && (w & 0x02000000 != 0) == (a7 & 0x02000000 != 0) && (w & 0x01000000 != 0) == (a5 & 0x01000000 != 0)
      && (w & 0x00800000 != 0) == (a1 & 0x00800000 != 0) && (w & 0x00400000 != 0) == (a4 & 0x00400000 != 0)
      && (w & 0x00200000 != 0) == (a6 & 0x00200000 != 0) && (w & 0x00100000 != 0) == (a7 & 0x00100000 != 0)
      && (w & 0x00080000 != 0) == (a2 & 0x00080000 != 0) && (w & 0x00040000 != 0) == (a5 & 0x00040000 != 0)
      && (w & 0x00020000 != 0) == (a8 & 0x00020000 != 0) && (w & 0x00010000 != 0) == (a3 & 0x00010000 != 0)
      && (w & 0x00008000 != 0) == (a1 & 0x00008000 != 0) && (w & 0x00004000 != 0) == (a2 & 0x00004000 != 0)
      && (w & 0x00002000 != 0) == (a6 & 0x00002000 != 0) && (w & 0x00001000 != 0) == (a4 & 0x00001000 != 0)
      && (w & 0x00000800 != 0) == (a8 & 0x00000800 != 0) && (w & 0x00000400 != 0) == (a7 & 0x00000400 != 0)
      && (w & 0x00000200 != 0) == (a1 & 0x00000200 != 0) && (w & 0x00000100 != 0) == (a3 & 0x00000100 != 0)
      && (w & 0x00000080 != 0) == (a5 & 0x00000080 != 0) && (w & 0x00000040 != 0) == (a4 & 0x00000040 != 0)
      && (w & 0x00000020 != 0) == (a8 & 0x00000020 != 0) && (w & 0x00000010 != 0) == (a2 & 0x00000010 != 0)
      && (w & 0x00000008 != 0) == (a6 & 0x00000008 != 0) && (w & 0x00000004 != 0) == (a3 & 0x00000004 != 0)
      && (w & 0x00000002 != 0) == (a1 & 0x00000002 != 0) && (w & 0x00000001 != 0) == (a7 & 0x00000001 != 0)
  {
  }

  lemma TurnedTerms(a1: Word, a2: Word, a3: Word, a4: Word, a5: Word, a6: Word, a7: Word, a8: Word)
    ensures Right1(a1 ^ a2 ^ a3 ^ a4 ^ a5 ^ a6 ^ a7 ^ a8)
      == Right1(a1) ^ Right1(a2) ^ Right1(a3) ^ Right1(a4) ^ Right1(a5) ^ Right1(a6) ^ Right1(a7) ^ Right1(a8)
  {
  }

  lemma TurnedSum(a1: Word, a2: Word, a3: Word, a4: Word, a5: Word, a6: Word, a7: Word, a8: Word)
    ensures Right1(Sum(a1, a2, a3, a4, a5, a6, a7, a8))
      == Sum(Right1(a1), Right1(a2), Right1(a3), Right1(a4), Right1(a5), Right1(a6), Right1(a7), Right1(a8))
  {
    hide Right1;
    TurnedTerms(a1, a2, a3, a4, a5, a6, a7, a8);
  }

  /** What table j gives for its input, and the entry of S-box j. */
  function Share(key: int -> bool, r: Word, j: int): Word
    requires 1 <= j <= 8
  {
    Right1(Standard()[j - 1](Input(key, r, j)))
  }

  function SAt(key: int -> bool, r: Word, j: int): Word
    requires 1 <= j <= 8
  {
    S(j, Input(key, r, j))
  }

  lemma SummedShares(key: int -> bool, r: Word)
    ensures Right1(Summed(Standard(), key, r))
      == Sum(Share(key, r, 1), Share(key, r, 2), Share(key, r, 3), Share(key, r, 4),
             Share(key, r, 5), Share(key, r, 6), Share(key, r, 7), Share(key, r, 8))
  {
    hide Input, Right1, Standard, Sum;
    var sb := Standard();
    TurnedSum(sb[0](Input(key, r, 1)), sb[1](Input(key, r, 2)), sb[2](Input(key, r, 3)), sb[3](Input(key, r, 4)),
              sb[4](Input(key, r, 5)), sb[5](Input(key, r, 6)), sb[6](Input(key, r, 7)), sb[7](Input(key, r, 8)));
  }

  lemma SharesAre(key: int -> bool, r: Word)
    ensures
      Share(key, r, 1) == Right1(SB1(Input(key, r, 1))) && SAt(key, r, 1) == S1(Input(key, r, 1))
      && Share(key, r, 2) == Right1(SB2(Input(key, r, 2))) && SAt(key, r, 2) == S2(Input(key, r, 2))
      && Share(key, r, 3) == Right1(SB3(Input(key, r, 3))) && SAt(key, r, 3) == S3(Input(key, r, 3))
      && Share(key, r, 4) == Right1(SB4(Input(key, r, 4))) && SAt(key, r, 4) == S4(Input(key, r, 4))
      && Share(key, r, 5) == Right1(SB5(Input(key, r, 5))) && SAt(key, r, 5) == S5(Input(key, r, 5))
      && Share(key, r, 6) == Right1(SB6(Input(key, r, 6))) && SAt(key, r, 6) == S6(Input(key, r, 6))
      && Share(key, r, 7) == Right1(SB7(Input(key, r, 7))) && SAt(key, r, 7) == S7(Input(key, r, 7))
      && Share(key, r, 8) == Right1(SB8(Input(key, r, 8))) && SAt(key, r, 8) == S8(Input(key, r, 8))
  {
    hide Right1, Input, SB1, SB2, SB3, SB4, SB5, SB6, SB7, SB8, S1, S2, S3, S4, S5, S6, S7, S8;
  }

  lemma Share1(key: int -> bool, r: Word)
    ensures
      var a, s := Share(key, r, 1), SAt(key, r, 1);
      a & 0xFF7F7DFD == 0
      && (a & 0x00800000 != 0) == (s & 8 != 0) && (a & 0x00008000 != 0) == (s & 4 != 0)
      && (a & 0x00000200 != 0) == (s & 2 != 0) && (a & 0x00000002 != 0) == (s & 1 != 0)
  {
    hide Right1, SB1, S1, Input, Share, SAt;
    SharesAre(key, r);
    Table1(Input(key, r, 1));
  }

  lemma Share2(key: int -> bool, r: Word)
    ensures
      var a, s := Share(key, r, 2), SAt(key, r, 2);
      a & 0xBFF7BFEF == 0
      && (a & 0x00080000 != 0) == (s & 8 != 0) && (a & 0x00000010 != 0) == (s & 4 != 0)
      && (a & 0x40000000 != 0) == (s & 2 != 0) && (a & 0x00004000 != 0) == (s & 1 != 0)
  {
    hide Right1, SB2, S2, Input, Share, SAt;
    SharesAre(key, r);
    Table2(Input(key, r, 2));
  }

  lemma Share3(key: int -> bool, r: Word)
    ensures
      var a, s := Share(key, r, 3), SAt(key, r, 3);
      a & 0xFBFEFEFB == 0
      && (a & 0x00000100 != 0) == (s & 8 != 0) && (a & 0x00010000 != 0) == (s & 4 != 0)
      && (a & 0x00000004 != 0) == (s & 2 != 0) && (a & 0x04000000 != 0) == (s & 1 != 0)
  {
    hide Right1, SB3, S3, Input, Share, SAt;
    SharesAre(key, r);
    Table3(Input(key, r, 3));
  }

  lemma Share4(key: int -> bool, r: Word)
    ensures
      var a, s := Share(key, r, 4), SAt(key, r, 4);
      a & 0x7FBFEFBF == 0
      && (a & 0x00000040 != 0) == (s & 8 != 0) && (a & 0x00001000 != 0) == (s & 4 != 0)
      && (a & 0x00400000 != 0) == (s & 2 != 0) && (a & 0x80000000 != 0) == (s & 1 != 0)
  {
    hide Right1, SB4, S4, Input, Share, SAt;
    SharesAre(key, r);
    Table4(Input(key, r, 4));
  }

  lemma Share5(key: int -> bool, r: Word)
    ensures
      var a, s := Share(key, r, 5), SAt(key, r, 5);
      a & 0xDEFBFF7F == 0
      && (a & 0x01000000 != 0) == (s & 8 != 0) && (a & 0x00040000 != 0) == (s & 4 != 0)
      && (a & 0x00000080 != 0) == (s & 2 != 0) && (a & 0x20000000 != 0) == (s & 1 != 0)
  {
    hide Right1, SB5, S5, Input, Share, SAt;
    SharesAre(key, r);
    Table5(Input(key, r, 5));
  }

  lemma Share6(key: int -> bool, r: Word)
    ensures
      var a, s := Share(key, r, 6), SAt(key, r, 6);
      a & 0xEFDFDFF7 == 0
      && (a & 0x10000000 != 0) == (s & 8 != 0) && (a & 0x00000008 != 0) == (s & 4 != 0)
      && (a & 0x00200000 != 0) == (s & 2 != 0) && (a & 0x00002000 != 0) == (s & 1 != 0)
  {
    hide Right1, SB6, S6, Input, Share, SAt;
    SharesAre(key, r);
    Table6(Input(key, r, 6));
  }

  lemma Share7(key: int -> bool, r: Word)
    ensures
      var a, s := Share(key, r, 7), SAt(key, r, 7);
      a & 0xFDEFFBFE == 0
      && (a & 0x00000001 != 0) == (s & 8 != 0) && (a & 0x00100000 != 0) == (s & 4 != 0)
      && (a & 0x00000400 != 0) == (s & 2 != 0) && (a & 0x02000000 != 0) == (s & 1 != 0)
  {
    hide Right1, SB7, S7, Input, Share, SAt;
    SharesAre(key, r);
    Table7(Input(key, r, 7));
  }

  lemma Share8(key: int -> bool, r: Word)
    ensures
      var a, s := Share(key, r, 8), SAt(key, r, 8);
      a & 0xF7FDF7DF == 0
      && (a & 0x08000000 != 0) == (s & 8 != 0) && (a & 0x00000020 != 0) == (s & 4 != 0)
      && (a & 0x00020000 != 0) == (s & 2 != 0) && (a & 0x00000800 != 0) == (s & 1 != 0)
  {
    hide Right1, SB8, S8, Input, Share, SAt;
    SharesAre(key, r);
    Table8(Input(key, r, 8));
  }

  lemma Nibble(s: Word)
    ensures Bit(s, 29) == (s & 8 != 0) && Bit(s, 30) == (s & 4 != 0) && Bit(s, 31) == (s & 2 != 0) && Bit(s, 32) == (s & 1 != 0)
  {
  }

  /** The bits of the sum are those of the S-boxes, each at its place. */
  lemma SumBits(key: int -> bool, r: Word)
    ensures
      var w := Right1(Summed(Standard(), key, r));
      (w & 0x80000000 != 0) == (SAt(key, r, 4) & 1 != 0) && (w & 0x40000000 != 0) == (SAt(key, r, 2) & 2 != 0)
      && (w & 0x20000000 != 0) == (SAt(key, r, 5) & 1 != 0) && (w & 0x10000000 != 0) == (SAt(key, r, 6) & 8 != 0)
      && (w & 0x08000000 != 0) == (SAt(key, r, 8) & 8 != 0) && (w & 0x04000000 != 0) == (SAt(key, r, 3) & 1 != 0)
      && (w & 0x02000000 != 0) == (SAt(key, r, 7) & 1 != 0) && (w & 0x01000000 != 0) == (SAt(key, r, 5) & 8 != 0)
      && (w & 0x00800000 != 0) == (SAt(key, r, 1) & 8 != 0) && (w & 0x00400000 != 0) == (SAt(key, r, 4) & 2 != 0)
      && (w & 0x00200000 != 0) == (SAt(key, r, 6) & 2 != 0) && (w & 0x00100000 != 0) == (SAt(key, r, 7) & 4 != 0)
      && (w & 0x00080000 != 0) == (SAt(key, r, 2) & 8 != 0) && (w & 0x00040000 != 0) == (SAt(key, r, 5) & 4 != 0)
      && (w & 0x00020000 != 0) == (SAt(key, r, 8) & 2 != 0) && (w & 0x00010000 != 0) == (SAt(key, r, 3) & 4 != 0)
      && (w & 0x00008000 != 0) == (SAt(key, r, 1) & 4 != 0) && (w & 0x00004000 != 0) == (SAt(key, r, 2) & 1 != 0)
      && (w & 0x00002000 != 0) == (SAt(key, r, 6) & 1 != 0) && (w & 0x00001000 != 0) == (SAt(key, r, 4) & 4 != 0)
      && (w & 0x00000800 != 0) == (SAt(key, r, 8) & 1 != 0) && (w & 0x00000400 != 0) == (SAt(key, r, 7) & 2 != 0)
      && (w & 0x00000200 != 0) == (SAt(key, r, 1) & 2 != 0) && (w & 0x00000100 != 0) == (SAt(key, r, 3) & 8 != 0)
      && (w & 0x00000080 != 0) == (SAt(key, r, 5) & 2 != 0) && (w & 0x00000040 != 0) == (SAt(key, r, 4) & 8 != 0)
      && (w & 0x00000020 != 0) == (SAt(key, r, 8) & 4 != 0) && (w & 0x00000010 != 0) == (SAt(key, r, 2) & 4 != 0)
      && (w & 0x00000008 != 0) == (SAt(key, r, 6) & 4 != 0) && (w & 0x00000004 != 0) == (SAt(key, r, 3) & 2 != 0)
      && (w & 0x00000002 != 0) == (SAt(key, r, 1) & 1 != 0) && (w & 0x00000001 != 0) == (SAt(key, r, 7) & 8 != 0)
  {
    hide Right1, Summed, Share, SAt, Sum;
    SummedShares(key, r);
    Share1(key, r);
    Share2(key, r);
    Share3(key, r);
    Share4(key, r);
    Share5(key, r);
    Share6(key, r);
    Share7(key, r);
    Share8(key, r);
    NoOverlap(Share(key, r, 1), Share(key, r, 2), Share(key, r, 3), Share(key, r, 4),
              Share(key, r, 5), Share(key, r, 6), Share(key, r, 7), Share(key, r, 8));
  }

  lemma Output1(key: int -> bool, r: Word)
    ensures forall i :: 1 <= i <= 4 ==> Bit(Right1(Summed(Standard(), key, r)), i) == FBit(key, r, i)
  {
    hide Right1, Summed, Bit, S, Input;
    SumBits(key, r);
    Literals(Right1(Summed(Standard(), key, r)));
    Nibble(SAt(key, r, 2));
    Nibble(SAt(key, r, 4));
    Nibble(SAt(key, r, 5));
    Nibble(SAt(key, r, 6));
  }

  lemma Output2(key: int -> bool, r: Word)
    ensures forall i :: 5 <= i <= 8 ==> Bit(Right1(Summed(Standard(), key, r)), i) == FBit(key, r, i)
  {
    hide Right1, Summed, Bit, S, Input;
    SumBits(key, r);
    Literals(Right1(Summed(Standard(), key, r)));
    Nibble(SAt(key, r, 3));
    Nibble(SAt(key, r, 5));
    Nibble(SAt(key, r, 7));
    Nibble(SAt(key, r, 8));
  }

  lemma Output3(key: int -> bool, r: Word)
    ensures forall i :: 9 <= i <= 12 ==> Bit(Right1(Summed(Standard(), key, r)), i) == FBit(key, r, i)
  {
    hide Right1, Summed, Bit, S, Input;
    SumBits(key, r);
    Literals(Right1(Summed(Standard(), key, r)));
    Nibble(SAt(key, r, 1));
    Nibble(SAt(key, r, 4));
    Nibble(SAt(key, r, 6));
    Nibble(SAt(key, r, 7));
  }

  lemma Output4(key: int -> bool, r: Word)
    ensures forall i :: 13 <= i <= 16 ==> Bit(Right1(Summed(Standard(), key, r)), i) == FBit(key, r, i)
  {
    hide Right1, Summed, Bit, S, Input;
    SumBits(key, r);
    Literals(Right1(Summed(Standard(), key, r)));
    Nibble(SAt(key, r, 2));
    Nibble(SAt(key, r, 3));
    Nibble(SAt(key, r, 5));
    Nibble(SAt(key, r, 8));
  }

  lemma Output5(key: int -> bool, r: Word)
    ensures forall i :: 17 <= i <= 20 ==> Bit(Right1(Summed(Standard(), key, r)), i) == FBit(key, r, i)
  {
    hide Right1, Summed, Bit, S, Input;
    SumBits(key, r);
    Literals(Right1(Summed(Standard(), key, r)));
    Nibble(SAt(key, r, 1));
    Nibble(SAt(key, r, 2));
    Nibble(SAt(key, r, 4));
    Nibble(SAt(key, r, 6));
  }

  lemma Output6(key: int -> bool, r: Word)
    ensures forall i :: 21 <= i <= 24 ==> Bit(Right1(Summed(Standard(), key, r)), i) == FBit(key, r, i)
  {
    hide Right1, Summed, Bit, S, Input;
    SumBits(key, r);
    Literals(Right1(Summed(Standard(), key, r)));
    Nibble(SAt(key, r, 1));
    Nibble(SAt(key, r, 3));
    Nibble(SAt(key, r, 7));
    Nibble(SAt(key, r, 8));
  }

  lemma Output7(key: int -> bool, r: Word)
    ensures forall i :: 25 <= i <= 28 ==> Bit(Right1(Summed(Standard(), key, r)), i) == FBit(key, r, i)
  {
    hide Right1, Summed, Bit, S, Input;
    SumBits(key, r);
    Literals(Right1(Summed(Standard(), key, r)));
    Nibble(SAt(key, r, 2));
    Nibble(SAt(key, r, 4));
    Nibble(SAt(key, r, 5));
    Nibble(SAt(key, r, 8));
  }

  lemma Output8(key: int -> bool, r: Word)
    ensures forall i :: 29 <= i <= 32 ==> Bit(Right1(Summed(Standard(), key, r)), i) == FBit(key, r, i)
  {
    hide Right1, Summed, Bit, S, Input;
    SumBits(key, r);
    Literals(Right1(Summed(Standard(), key, r)));
    Nibble(SAt(key, r, 1));
    Nibble(SAt(key, r, 3));
    Nibble(SAt(key, r, 6));
    Nibble(SAt(key, r, 7));
  }

  /** What a round with the tables of the program adds is f, turned by one place. */
  lemma SummedIsF(key: int -> bool, r: Word)
    ensures forall i :: 1 <= i <= 32 ==> Bit(Right1(Summed(Standard(), key, r)), i) == FBit(key, r, i)
  {
    hide Right1, Summed, Bit, FBit;
    Output1(key, r);
    Output2(key, r);
    Output3(key, r);
    Output4(key, r);
    Output5(key, r);
    Output6(key, r);
    Output7(key, r);
    Output8(key, r);
  }
}
