/** DES as FIPS 46-3 defines it, bit by bit, with the tables of the standard. Bits are numbered from 1, the highest first. */
module Fips46 {
  import opened Common
  import opened Des

  function Bit(w: Word, i: int): bool
    requires 1 <= i <= 32
  {
    (w >> (32 - i)) & 1 != 0
  }

  /** Bit i of the 64 bits of two words. */
  function PairBit(x: Word, y: Word, i: int): bool
    requires 1 <= i <= 64
  {
    if i <= 32 then Bit(x, i) else Bit(y, i - 32)
  }

  /** The initial permutation: where bit i of the permuted input comes from. */
  function IP(i: int): (r: int)
    requires 1 <= i <= 64
    ensures 1 <= r <= 64
  {
    var row, column := (i - 1) / 8, (i - 1) % 8;
    (if row < 4 then 58 + 2 * row else 57 + 2 * (row - 4)) - 8 * column
  }

  /** The expansion E, six bits for each S-box: its four bits of the half and the two beside them. */
  function E(q: int): (r: int)
    requires 1 <= q <= 48
    ensures 1 <= r <= 32
  {
    var i := 4 * ((q - 1) / 6) + (q - 1) % 6;
    if i == 0 then 32 else if i == 33 then 1 else i
  }

  function P(i: int): (r: int)
    ensures 1 <= r <= 32
  {
    match i
    case 1 => 16 case 2 => 7 case 3 => 20 case 4 => 21 case 5 => 29 case 6 => 12 case 7 => 28 case 8 => 17
    case 9 => 1 case 10 => 15 case 11 => 23 case 12 => 26 case 13 => 5 case 14 => 18 case 15 => 31 case 16 => 10
    case 17 => 2 case 18 => 8 case 19 => 24 case 20 => 14 case 21 => 32 case 22 => 27 case 23 => 3 case 24 => 9
    case 25 => 19 case 26 => 13 case 27 => 30 case 28 => 6 case 29 => 22 case 30 => 11 case 31 => 4 case _ => 25
  }

  function PC1(i: int): (r: int)
    ensures 1 <= r <= 64
  {
    match i
    case 1 => 57 case 2 => 49 case 3 => 41 case 4 => 33 case 5 => 25 case 6 => 17 case 7 => 9 case 8 => 1
    case 9 => 58 case 10 => 50 case 11 => 42 case 12 => 34 case 13 => 26 case 14 => 18 case 15 => 10 case 16 => 2
    case 17 => 59 case 18 => 51 case 19 => 43 case 20 => 35 case 21 => 27 case 22 => 19 case 23 => 11 case 24 => 3
    case 25 => 60 case 26 => 52 case 27 => 44 case 28 => 36 case 29 => 63 case 30 => 55 case 31 => 47 case 32 => 39
    case 33 => 31 case 34 => 23 case 35 => 15 case 36 => 7 case 37 => 62 case 38 => 54 case 39 => 46 case 40 => 38
    case 41 => 30 case 42 => 22 case 43 => 14 case 44 => 6 case 45 => 61 case 46 => 53 case 47 => 45 case 48 => 37
    case 49 => 29 case 50 => 21 case 51 => 13 case 52 => 5 case 53 => 28 case 54 => 20 case 55 => 12 case _ => 4
  }

  function PC2(q: int): (r: int)
    ensures 1 <= r <= 56
  {
    match q
    case 1 => 14 case 2 => 17 case 3 => 11 case 4 => 24 case 5 => 1 case 6 => 5 case 7 => 3 case 8 => 28
    case 9 => 15 case 10 => 6 case 11 => 21 case 12 => 10 case 13 => 23 case 14 => 19 case 15 => 12 case 16 => 4
    case 17 => 26 case 18 => 8 case 19 => 16 case 20 => 7 case 21 => 27 case 22 => 20 case 23 => 13 case 24 => 2
    case 25 => 41 case 26 => 52 case 27 => 31 case 28 => 37 case 29 => 47 case 30 => 55 case 31 => 30 case 32 => 40
    case 33 => 51 case 34 => 45 case 35 => 33 case 36 => 48 case 37 => 44 case 38 => 49 case 39 => 39 case 40 => 56
    case 41 => 34 case 42 => 53 case 43 => 46 case 44 => 42 case 45 => 50 case 46 => 36 case 47 => 29 case _ => 32
  }

  /** The sixteen entries of a row of an S-box as hexadecimal digits. */
  function Entry(row: bv64, v: Word): Word { ((row >> (60 - 4 * ((v >> 1) & 15))) & 15) as Word }

  /** An S-box: the outer two of the six bits select the row, the inner four the column. */
  function Rows(v: Word, row0: bv64, row1: bv64, row2: bv64, row3: bv64): Word {
    Entry(if v & 0x20 == 0 then (if v & 1 == 0 then row0 else row1) else if v & 1 == 0 then row2 else row3, v)
  }

  function S1(v: Word): Word { Rows(v, 0xE4D12FB83A6C5907, 0x0F74E2D1A6CB9538, 0x41E8D62BFC973A50, 0xFC8249175B3EA06D) }

  function S2(v: Word): Word { Rows(v, 0xF18E6B34972DC05A, 0x3D47F28EC01A69B5, 0x0E7BA4D158C6932F, 0xD8A13F42B67C05E9) }

  function S3(v: Word): Word { Rows(v, 0xA09E63F51DC7B428, 0xD709346A285ECBF1, 0xD6498F30B12C5AE7, 0x1AD069874FE3B52C) }

  function S4(v: Word): Word { Rows(v, 0x7DE3069A1285BC4F, 0xD8B56F03472C1AE9, 0xA690CB7DF13E5284, 0x3F06A1D8945BC72E) }

  function S5(v: Word): Word { Rows(v, 0x2C417AB6853FD0E9, 0xEB2C47D150FA3986, 0x421BAD78F9C5630E, 0xB8C71E2D6F09A453) }

  function S6(v: Word): Word { Rows(v, 0xC1AF92680D34E75B, 0xAF427C9561DE0B38, 0x9EF528C3704A1DB6, 0x432C95FABE17608D) }

  function S7(v: Word): Word { Rows(v, 0x4B2EF08D3C975A61, 0xD0B7491AE35C2F86, 0x14BDC37EAF680592, 0x6BD814A7950FE23C) }

  function S8(v: Word): Word { Rows(v, 0xD2846FB1A93E50C7, 0x1FD8A374C56B0E92, 0x7B419CE206ADF358, 0x21E74A8DFC90356B) }

  function S(j: int, v: Word): Word {
    match j
    case 1 => S1(v) case 2 => S2(v) case 3 => S3(v) case 4 => S4(v)
    case 5 => S5(v) case 6 => S6(v) case 7 => S7(v) case _ => S8(v)
  }

  /** How far the halves of the key have turned by round n: one place in rounds 1, 2, 9 and 16, else two. */
  function Turns(n: nat): nat { if n == 0 then 0 else Turns(n - 1) + (if n == 1 || n == 2 || n == 9 || n == 16 then 1 else 2) }

  /** Place i of 28 after turning to the left. */
  function Around(i: int, turns: nat): (r: int)
    ensures 1 <= r <= 28
  {
    (i - 1 + turns) % 28 + 1
  }

  /** Bit i of C or D, 28 bits each, in round n: a bit of the key. */
  function HalfBit(kx: Word, ky: Word, n: nat, i: int): bool {
    PairBit(kx, ky, PC1(if i <= 28 then Around(i, Turns(n)) else 28 + Around(i - 28, Turns(n))))
  }

  /** Bit q of the 48 bits of the key of round n. */
  function KeyBit(kx: Word, ky: Word, n: nat, q: int): bool { HalfBit(kx, ky, n, PC2(q)) }

  function Six(b1: bool, b2: bool, b3: bool, b4: bool, b5: bool, b6: bool): Word {
    (if b1 then 32 else 0) | (if b2 then 16 else 0) | (if b3 then 8 else 0)
    | (if b4 then 4 else 0) | (if b5 then 2 else 0) | (if b6 then 1 else 0)
  }

  /** The input of S-box j: its six bits of E(r), each added to its bit of the round key. */
  function Input(key: int -> bool, r: Word, j: int): Word
    requires 1 <= j <= 8
  {
    var q := 6 * (j - 1);
    Six(Bit(r, E(q + 1)) != key(q + 1), Bit(r, E(q + 2)) != key(q + 2), Bit(r, E(q + 3)) != key(q + 3),
        Bit(r, E(q + 4)) != key(q + 4), Bit(r, E(q + 5)) != key(q + 5), Bit(r, E(q + 6)) != key(q + 6))
  }

  /** Bit t of the 32 bits that the eight S-boxes give, four each. */
  function SBit(key: int -> bool, r: Word, t: int): bool
    requires 1 <= t <= 32
  {
    var j := (t - 1) / 4 + 1;
    Bit(S(j, Input(key, r, j)), 29 + (t - 1) % 4)
  }

  /** Bit i of f(r, key). */
  function FBit(key: int -> bool, r: Word, i: int): bool { SBit(key, r, P(i)) }

  /** (l, r) are the halves that IP makes of the block (x, y). */
  predicate IsPermuted(x: Word, y: Word, l: Word, r: Word) {
    forall i :: 1 <= i <= 64 ==> PairBit(l, r, i) == PairBit(x, y, IP(i))
  }

  /** IP inverse, as the standard lists it. */
  function FP(i: int): (r: int)
    requires 1 <= i <= 64
    ensures 1 <= r <= 64
  {
    var row, column := (i - 1) / 8, (i - 1) % 8;
    (if column % 2 == 0 then 40 else 8) + 8 * (column / 2) - row
  }

  /** (p, q) is the block that the inverse of IP makes of (l, r). */
  predicate IsReturned(l: Word, r: Word, p: Word, q: Word) {
    forall i :: 1 <= i <= 64 ==> PairBit(p, q, i) == PairBit(l, r, FP(i))
  }

  function RoundKey(kx: Word, ky: Word, n: nat): int -> bool { q => KeyBit(kx, ky, n, q) }

  /** Round n: L' = R, R' = L + f(R, K). */
  predicate IsRound(kx: Word, ky: Word, n: nat, l: Word, r: Word, l2: Word, r2: Word) {
    l2 == r && forall i :: 1 <= i <= 32 ==> Bit(r2, i) == (Bit(l, i) != FBit(RoundKey(kx, ky, n), r, i))
  }

  /** The halves ls[n], rs[n] of sixteen rounds between the two permutations. */
  predicate IsRun(kx: Word, ky: Word, x: Word, y: Word, p: Word, q: Word, ls: seq<Word>, rs: seq<Word>) {
    |ls| == |rs| == 17
    && IsPermuted(x, y, ls[0], rs[0])
    && (forall n :: 1 <= n <= 16 ==> IsRound(kx, ky, n, ls[n - 1], rs[n - 1], ls[n], rs[n]))
    && IsReturned(rs[16], ls[16], p, q)
  }

  /** (p, q) is the DES encryption of the block (x, y) under the key (kx, ky). */
  ghost predicate IsDes(kx: Word, ky: Word, x: Word, y: Word, p: Word, q: Word) {
    exists ls, rs :: IsRun(kx, ky, x, y, p, q, ls, rs)
  }
}
