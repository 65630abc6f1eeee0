/** des_crypt of lualib-src/lua-crypt.cpp, with its tables and key schedule, is DES. */
module DesStandard {
  import opened Common
  import opened Des
  import opened DesTables
  import opened Fips46
  import opened DesRounds
  import opened DesKeys

  lemma XorAt(a: Word, b: Word, w: Word, i: int)
    requires w == a ^ b && 1 <= i <= 32
    ensures Bit(w, i) == (Bit(a, i) != Bit(b, i))
  {
    match i
    case 1 => case 2 => case 3 => case 4 => case 5 => case 6 => case 7 => case 8 =>
    case 9 => case 10 => case 11 => case 12 => case 13 => case 14 => case 15 => case 16 =>
    case 17 => case 18 => case 19 => case 20 => case 21 => case 22 => case 23 => case 24 =>
    case 25 => case 26 => case 27 => case 28 => case 29 => case 30 => case 31 => case 32 =>
  }

  lemma XorTurned(a: Word, b: Word)
    ensures Right1(Xor(a, b)) == Xor(Right1(a), Right1(b))
  {
  }

  lemma XorHas(a: Word, b: Word, i: int)
    requires 1 <= i <= 32
    ensures Bit(Xor(a, b), i) == (Bit(a, i) != Bit(b, i))
  {
    hide Bit;
    XorAt(a, b, Xor(a, b), i);
  }

  lemma XorBit(a: Word, b: Word, i: int)
    requires 1 <= i <= 32
    ensures Bit(Right1(Xor(a, b)), i) == (Bit(Right1(a), i) != Bit(Right1(b), i))
  {
    hide Bit, Right1, Xor;
    XorTurned(a, b);
    XorHas(Right1(a), Right1(b), i);
  }

  lemma InputSame(key: int -> bool, key2: int -> bool, r: Word, j: int)
    requires 1 <= j <= 8 && forall q :: 1 <= q <= 48 ==> key(q) == key2(q)
    ensures Input(key, r, j) == Input(key2, r, j)
  {
    hide Six, Bit, E;
  }

  lemma FSame(key: int -> bool, key2: int -> bool, r: Word, i: int)
    requires forall q :: 1 <= q <= 48 ==> key(q) == key2(q)
    ensures FBit(key, r, i) == FBit(key2, r, i)
  {
    hide Bit, S, Input;
    var t := P(i);
    InputSame(key, key2, r, (t - 1) / 4 + 1);
  }

  lemma ScheduleAt(kx: Word, ky: Word, n: nat)
    requires 1 <= n <= 16
    ensures Schedule(kx, ky)[2 * n - 2] == KeyPair(kx, ky, n).0 && Schedule(kx, ky)[2 * n - 1] == KeyPair(kx, ky, n).1
  {
    hide KeyPair;
  }

  /** One DES_ROUND of the program with its own tables and subkeys. */
  lemma RoundIsF(kx: Word, ky: Word, n: nat, a: Word, b: Word)
    requires 1 <= n <= 16
    ensures
      var sk := Schedule(kx, ky);
      forall i :: 1 <= i <= 32 ==>
        Bit(Right1(Xor(a, Mix(Standard(), sk[2 * n - 2], sk[2 * n - 1], b))), i)
        == (Bit(Right1(a), i) != FBit(RoundKey(kx, ky, n), Right1(b), i))
  {
    hide Mix, Xor, Left1, Right1, Bit, FBit, Summed, Schedule, KeyPair, Held, KeyBit;
    var sk, r, key := Schedule(kx, ky), Right1(b), RoundKey(kx, ky, n);
    var held := HeldKey(sk[2 * n - 2], sk[2 * n - 1]);
    ScheduleAt(kx, ky, n);
    KeyLaw(kx, ky, n);
    Rotations(b);
    RoundLaw(Standard(), sk[2 * n - 2], sk[2 * n - 1], r);
    SummedIsF(held, r);
    var mix := Mix(Standard(), sk[2 * n - 2], sk[2 * n - 1], b);
    forall i | 1 <= i <= 32 ensures Bit(Right1(Xor(a, mix)), i) == (Bit(Right1(a), i) != FBit(key, r, i)) {
      XorBit(a, mix, i);
      FSame(held, key, r, i);
    }
  }

  /** The halves of the standard after n rounds of the program. */
  function Halves(kx: Word, ky: Word, x: Word, y: Word, n: nat): (Word, Word)
    requires n <= 16
  {
    var (a, b) := FirstRounds(Standard(), Schedule(kx, ky), n, x, y);
    if n % 2 == 0 then (Right1(a), Right1(b)) else (Right1(b), Right1(a))
  }

  lemma HalvesEnds(kx: Word, ky: Word, x: Word, y: Word)
    ensures Halves(kx, ky, x, y, 0) == (Right1(x), Right1(y))
    ensures var (a, b) := Rounds(Standard(), Schedule(kx, ky), 0, x, y); Halves(kx, ky, x, y, 16) == (Right1(a), Right1(b))
  {
    hide Right1, Standard, Schedule;
    RoundsSplit(Standard(), Schedule(kx, ky), 16, x, y);
  }

  lemma HalvesStep(kx: Word, ky: Word, x: Word, y: Word, n: nat)
    requires 1 <= n <= 16
    ensures
      var (l, r) := Halves(kx, ky, x, y, n - 1);
      var (l2, r2) := Halves(kx, ky, x, y, n);
      IsRound(kx, ky, n, l, r, l2, r2)
  {
    hide Mix, Xor, Right1, Bit, FBit, Schedule, Standard;
    var (a, b) := FirstRounds(Standard(), Schedule(kx, ky), n - 1, x, y);
    if n % 2 == 1 { RoundIsF(kx, ky, n, a, b); } else { RoundIsF(kx, ky, n, b, a); }
  }

  lemma IPAt(row: int, column: int)
    requires 0 <= row < 8 && 0 <= column < 8
    ensures IP(8 * row + column + 1) == (if row < 4 then 58 + 2 * row else 49 + 2 * row) - 8 * column
  {
  }

  lemma InverseOfIP(i: int)
    requires 1 <= i <= 64
    ensures IP(FP(i)) == i
  {
    hide IP;
    var row, column := (i - 1) / 8, (i - 1) % 8;
    IPAt((if column % 2 == 0 then 4 else 0) + column / 2, 7 - row);
  }

  lemma FinalPermutes(p: Word, q: Word, l: Word, r: Word)
    requires IsPermuted(p, q, l, r)
    ensures IsReturned(l, r, p, q)
  {
    hide PairBit, IP, FP;
    forall i | 1 <= i <= 64 ensures PairBit(p, q, i) == PairBit(l, r, FP(i)) { InverseOfIP(i); }
  }

  lemma EncryptRuns(kx: Word, ky: Word, x: Word, y: Word) returns (ls: seq<Word>, rs: seq<Word>)
    ensures var (p, q) := CryptWords(Standard(), Schedule(kx, ky), x, y); IsRun(kx, ky, x, y, p, q, ls, rs)
  {
    hide Initial, Final, Rounds, Halves, Schedule, Standard, Right1, IsPermuted, IsReturned, IsRound;
    var (x1, y1) := Initial(x, y);
    var (x2, y2) := Rounds(Standard(), Schedule(kx, ky), 0, x1, y1);
    var (p, q) := Final(y2, x2);
    ls := seq(17, n requires 0 <= n < 17 => Halves(kx, ky, x1, y1, n).0);
    rs := seq(17, n requires 0 <= n < 17 => Halves(kx, ky, x1, y1, n).1);
    InitialPermutes(x, y);
    InitialPermutes(p, q);
    InitialInvertsFinal(y2, x2);
    HalvesEnds(kx, ky, x1, y1);
    FinalPermutes(p, q, Right1(y2), Right1(x2));
    forall n | 1 <= n <= 16 ensures IsRound(kx, ky, n, ls[n - 1], rs[n - 1], ls[n], rs[n]) {
      HalvesStep(kx, ky, x1, y1, n);
    }
  }

  // ---------- the standard determines the result ----------

  lemma SameMasks(a: Word, b: Word)
    requires (a & 0x80000000 != 0) == (b & 0x80000000 != 0) && (a & 0x40000000 != 0) == (b & 0x40000000 != 0)
      && (a & 0x20000000 != 0) == (b & 0x20000000 != 0) && (a & 0x10000000 != 0) == (b & 0x10000000 != 0)
      && (a & 0x08000000 != 0) == (b & 0x08000000 != 0) && (a & 0x04000000 != 0) == (b & 0x04000000 != 0)
      && (a & 0x02000000 != 0) == (b & 0x02000000 != 0) && (a & 0x01000000 != 0) == (b & 0x01000000 != 0)
      && (a & 0x00800000 != 0) == (b & 0x00800000 != 0) && (a & 0x00400000 != 0) == (b & 0x00400000 != 0)
      && (a & 0x00200000 != 0) == (b & 0x00200000 != 0) && (a & 0x00100000 != 0) == (b & 0x00100000 != 0)
      && (a & 0x00080000 != 0) == (b & 0x00080000 != 0) && (a & 0x00040000 != 0) == (b & 0x00040000 != 0)
      && (a & 0x00020000 != 0) == (b & 0x00020000 != 0) && (a & 0x00010000 != 0) == (b & 0x00010000 != 0)
      && (a & 0x00008000 != 0) == (b & 0x00008000 != 0) && (a & 0x00004000 != 0) == (b & 0x00004000 != 0)
      && (a & 0x00002000 != 0) == (b & 0x00002000 != 0) && (a & 0x00001000 != 0) == (b & 0x00001000 != 0)
      && (a & 0x00000800 != 0) == (b & 0x00000800 != 0) && (a & 0x00000400 != 0) == (b & 0x00000400 != 0)
      && (a & 0x00000200 != 0) == (b & 0x00000200 != 0) && (a & 0x00000100 != 0) == (b & 0x00000100 != 0)
      && (a & 0x00000080 != 0) == (b & 0x00000080 != 0) && (a & 0x00000040 != 0) == (b & 0x00000040 != 0)
      && (a & 0x00000020 != 0) == (b & 0x00000020 != 0) && (a & 0x00000010 != 0) == (b & 0x00000010 != 0)
      && (a & 0x00000008 != 0) == (b & 0x00000008 != 0) && (a & 0x00000004 != 0) == (b & 0x00000004 != 0)
      && (a & 0x00000002 != 0) == (b & 0x00000002 != 0) && (a & 0x00000001 != 0) == (b & 0x00000001 != 0)
    ensures a == b
  {
  }

  lemma SameBits(a: Word, b: Word)
    requires forall i :: 1 <= i <= 32 ==> Bit(a, i) == Bit(b, i)
    ensures a == b
  {
    hide Bit;
    Literals(a);
    Literals(b);
    SameMasks(a, b);
  }

  lemma SamePairs(a: Word, b: Word, c: Word, d: Word)
    requires forall i :: 1 <= i <= 64 ==> PairBit(a, b, i) == PairBit(c, d, i)
    ensures a == c && b == d
  {
    hide Bit;
    forall i | 1 <= i <= 32 ensures Bit(a, i) == Bit(c, i) && Bit(b, i) == Bit(d, i) {
      assert PairBit(a, b, i) == PairBit(c, d, i) && PairBit(a, b, i + 32) == PairBit(c, d, i + 32);
    }
    SameBits(a, c);
    SameBits(b, d);
  }

  lemma SameResult(l: Word, r: Word, p: Word, q: Word, p2: Word, q2: Word)
    requires IsReturned(l, r, p, q) && IsReturned(l, r, p2, q2)
    ensures p == p2 && q == q2
  {
    hide PairBit, FP;
    SamePairs(p, q, p2, q2);
  }

  lemma {:induction false} SameHalves(kx: Word, ky: Word, x: Word, y: Word, p: Word, q: Word, p2: Word, q2: Word,
                                     ls: seq<Word>, rs: seq<Word>, ls2: seq<Word>, rs2: seq<Word>, n: nat)
    requires IsRun(kx, ky, x, y, p, q, ls, rs) && IsRun(kx, ky, x, y, p2, q2, ls2, rs2) && n <= 16
    ensures ls[n] == ls2[n] && rs[n] == rs2[n]
  {
    hide PairBit, IP, FP, Bit, FBit;
    if n == 0 {
      SamePairs(ls[0], rs[0], ls2[0], rs2[0]);
    } else {
      SameHalves(kx, ky, x, y, p, q, p2, q2, ls, rs, ls2, rs2, n - 1);
      assert IsRound(kx, ky, n, ls[n - 1], rs[n - 1], ls[n], rs[n]) && IsRound(kx, ky, n, ls2[n - 1], rs2[n - 1], ls2[n], rs2[n]);
      SameBits(rs[n], rs2[n]);
    }
  }

  /**
   des_crypt with the tables and the key schedule of the program is the DES of FIPS 46-3: for every key
   and every block, what it computes is the block that the standard determines, and no other.
   */
  lemma CryptIsDes(kx: Word, ky: Word, x: Word, y: Word, p: Word, q: Word)
    ensures CryptWords(Standard(), Schedule(kx, ky), x, y) == (p, q) <==> IsDes(kx, ky, x, y, p, q)
  {
    hide CryptWords, Standard, Schedule, IsReturned, IsPermuted, IsRound;
    var ls, rs := EncryptRuns(kx, ky, x, y);
    var (p0, q0) := CryptWords(Standard(), Schedule(kx, ky), x, y);
    forall ls2, rs2 | IsRun(kx, ky, x, y, p, q, ls2, rs2) ensures (p0, q0) == (p, q) {
      SameHalves(kx, ky, x, y, p0, q0, p, q, ls, rs, ls2, rs2, 16);
      SameResult(rs[16], ls[16], p0, q0, p, q);
    }
  }

  // ---------- bytes ----------

  /** Bit i of a byte, the highest first. */
  function OctetBit(b: Octet, i: int): bool
    requires 1 <= i <= 8
  {
    (b >> (8 - i)) & 1 != 0
  }

  lemma WordOfBytes(b: seq<Octet>, at: nat)
    requires at + 4 <= |b|
    ensures
      var w := GetWord(b, at);
      Bit(w, 1) == OctetBit(b[at], 1) && Bit(w, 2) == OctetBit(b[at], 2) && Bit(w, 3) == OctetBit(b[at], 3)
      && Bit(w, 4) == OctetBit(b[at], 4) && Bit(w, 5) == OctetBit(b[at], 5) && Bit(w, 6) == OctetBit(b[at], 6)
      && Bit(w, 7) == OctetBit(b[at], 7) && Bit(w, 8) == OctetBit(b[at], 8) && Bit(w, 9) == OctetBit(b[at + 1], 1)
      && Bit(w, 10) == OctetBit(b[at + 1], 2) && Bit(w, 11) == OctetBit(b[at + 1], 3) && Bit(w, 12) == OctetBit(b[at + 1], 4)
      && Bit(w, 13) == OctetBit(b[at + 1], 5) && Bit(w, 14) == OctetBit(b[at + 1], 6) && Bit(w, 15) == OctetBit(b[at + 1], 7)
      && Bit(w, 16) == OctetBit(b[at + 1], 8) && Bit(w, 17) == OctetBit(b[at + 2], 1) && Bit(w, 18) == OctetBit(b[at + 2], 2)
      && Bit(w, 19) == OctetBit(b[at + 2], 3) && Bit(w, 20) == OctetBit(b[at + 2], 4) && Bit(w, 21) == OctetBit(b[at + 2], 5)
      && Bit(w, 22) == OctetBit(b[at + 2], 6) && Bit(w, 23) == OctetBit(b[at + 2], 7) && Bit(w, 24) == OctetBit(b[at + 2], 8)
      && Bit(w, 25) == OctetBit(b[at + 3], 1) && Bit(w, 26) == OctetBit(b[at + 3], 2) && Bit(w, 27) == OctetBit(b[at + 3], 3)
      && Bit(w, 28) == OctetBit(b[at + 3], 4) && Bit(w, 29) == OctetBit(b[at + 3], 5) && Bit(w, 30) == OctetBit(b[at + 3], 6)
      && Bit(w, 31) == OctetBit(b[at + 3], 7) && Bit(w, 32) == OctetBit(b[at + 3], 8)
  {
  }

  function Number(w: Word): int { w as int }

  function Digit(b: Octet): int { b as int }

  function Push(hi: Word, lo: Octet): Word { (hi << 8) | (lo as Word) }

  lemma Shifted(hi: Word, lo: Octet)
    requires hi < 0x1000000
    ensures ((hi << 8) | (lo as Word)) as int == hi as int * 256 + lo as int
  {
  }

  lemma PushNumber(hi: Word, lo: Octet)
    requires hi < 0x1000000
    ensures Number(Push(hi, lo)) == Number(hi) * 256 + Digit(lo)
  {
    Shifted(hi, lo);
  }

  lemma Pushed(a: Octet, b: Octet, c: Octet)
    ensures (a as Word) < 0x1000000 && Push(a as Word, b) < 0x1000000 && Push(Push(a as Word, b), c) < 0x1000000
    ensures Number(a as Word) == Digit(a)
  {
  }

  lemma WordPushed(b: seq<Octet>, at: nat)
    requires at + 4 <= |b|
    ensures GetWord(b, at) == Push(Push(Push(b[at] as Word, b[at + 1]), b[at + 2]), b[at + 3])
  {
  }

  /** GET_UINT32 reads a number whose digits to the base 256 are the four bytes, the highest first. */
  lemma WordNumber(b: seq<Octet>, at: nat)
    requires at + 4 <= |b|
    ensures Number(GetWord(b, at)) == ((Digit(b[at]) * 256 + Digit(b[at + 1])) * 256 + Digit(b[at + 2])) * 256 + Digit(b[at + 3])
  {
    hide GetWord, Push, Number, Digit;
    WordPushed(b, at);
    Pushed(b[at], b[at + 1], b[at + 2]);
    PushNumber(b[at] as Word, b[at + 1]);
    PushNumber(Push(b[at] as Word, b[at + 1]), b[at + 2]);
    PushNumber(Push(Push(b[at] as Word, b[at + 1]), b[at + 2]), b[at + 3]);
  }

  /** The eight bytes r are the DES encryption of the eight bytes b. */
  ghost predicate IsDesBlock(key: seq<Octet>, b: seq<Octet>, r: seq<Octet>)
    requires |key| == |b| == |r| == 8
  {
    IsDes(GetWord(key, 0), GetWord(key, 4), GetWord(b, 0), GetWord(b, 4), GetWord(r, 0), GetWord(r, 4))
  }

  /** des_main_ks on the bytes of the key. */
  function KeyOf(key: seq<Octet>): (sk: seq<Word>)
    requires |key| == 8
    ensures KeysOk(sk)
  {
    Schedule(GetWord(key, 0), GetWord(key, 4))
  }

  lemma BlockIsDes(key: seq<Octet>, b: seq<Octet>, r: seq<Octet>)
    requires |key| == |b| == |r| == 8
    ensures CryptBlock(Standard(), KeyOf(key), b) == r <==> IsDesBlock(key, b, r)
  {
    hide CryptWords, GetWord, PutWord, Standard, Schedule, IsDes;
    var (x, y) := CryptWords(Standard(), KeyOf(key), GetWord(b, 0), GetWord(b, 4));
    CryptIsDes(GetWord(key, 0), GetWord(key, 4), GetWord(b, 0), GetWord(b, 4), GetWord(r, 0), GetWord(r, 4));
    TwoWords(PutWord(x), PutWord(y));
    TwoWords(r[..4], r[4..]);
    assert r == r[..4] + r[4..];
    GetPut(x);
    GetPut(y);
    PutGet(r[..4]);
    PutGet(r[4..]);
  }

  lemma {:induction false} TextBlock(sb: Tables, sk: seq<Word>, s: seq<Octet>, k: nat)
    requires TablesOk(sb) && KeysOk(sk) && |s| % 8 == 0 && 8 * k < |s|
    ensures CryptText(sb, sk, s)[8 * k..8 * k + 8] == CryptBlock(sb, sk, s[8 * k..8 * k + 8])
    decreases k
  {
    hide CryptBlock;
    if k > 0 {
      TextBlock(sb, sk, s[8..], k - 1);
      assert CryptText(sb, sk, s)[8 * k..8 * k + 8] == CryptText(sb, sk, s[8..])[8 * (k - 1)..8 * (k - 1) + 8];
      assert s[8..][8 * (k - 1)..8 * (k - 1) + 8] == s[8 * k..8 * k + 8];
    } else {
      assert s[8 * k..8 * k + 8] == s[..8];
    }
  }

  /** A cipher text is block by block the DES encryption of the text p. */
  ghost predicate IsDesText(key: seq<Octet>, p: seq<Octet>, cipher: seq<Octet>)
    requires |key| == 8 && |p| % 8 == 0
  {
    |cipher| == |p| && forall k: nat :: 8 * k < |p| ==> IsDesBlock(key, p[8 * k..8 * k + 8], cipher[8 * k..8 * k + 8])
  }

  /** desencode with a key of eight bytes gives the DES encryption of the padded text, and nothing else is that. */
  lemma EncodeIsDes(key: seq<Octet>, text: seq<Octet>, mode: Mode, cipher: seq<Octet>)
    requires |key| == 8
    ensures Encode(Standard(), KeyOf(key), text, mode) == cipher <==> IsDesText(key, Padded(text, mode), cipher)
  {
    hide CryptText, CryptBlock, Padded, Standard, KeyOf, IsDesBlock;
    var p := Padded(text, mode);
    var c := Encode(Standard(), KeyOf(key), text, mode);
    if |cipher| == |p| {
      forall k: nat | 8 * k < |p|
        ensures IsDesBlock(key, p[8 * k..8 * k + 8], cipher[8 * k..8 * k + 8]) <==> c[8 * k..8 * k + 8] == cipher[8 * k..8 * k + 8]
      {
        TextBlock(Standard(), KeyOf(key), p, k);
        BlockIsDes(key, p[8 * k..8 * k + 8], cipher[8 * k..8 * k + 8]);
      }
      if IsDesText(key, p, cipher) { SameBlocks(c, cipher); }
    }
  }

  lemma SameBlocks(c: seq<Octet>, d: seq<Octet>)
    requires |c| == |d| && |c| % 8 == 0 && forall k: nat :: 8 * k < |c| ==> c[8 * k..8 * k + 8] == d[8 * k..8 * k + 8]
    ensures c == d
  {
    forall i | 0 <= i < |c| ensures c[i] == d[i] {
      var k := i / 8;
      assert c[8 * k..8 * k + 8][i - 8 * k] == d[8 * k..8 * k + 8][i - 8 * k];
    }
  }
}
