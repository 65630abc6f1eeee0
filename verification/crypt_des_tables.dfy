/** The tables and the key schedule of DES as lua-crypt.cpp holds them (lualib-src/lua-crypt.cpp). */
module DesTables {
  import opened Common
  import opened Des

  /** The entry that the low three bits of v select. */
  function Among8(v: Word, a0: Word, a1: Word, a2: Word, a3: Word, a4: Word, a5: Word, a6: Word, a7: Word): Word {
    if v & 4 == 0 then (if v & 2 == 0 then (if v & 1 == 0 then a0 else a1) else if v & 1 == 0 then a2 else a3)
    else if v & 2 == 0 then (if v & 1 == 0 then a4 else a5) else if v & 1 == 0 then a6 else a7
  }

  function SB1(v: Word): Word {
    Among8(v >> 3,
      Among8(v, 0x01010400, 0x00000000, 0x00010000, 0x01010404, 0x01010004, 0x00010404, 0x00000004, 0x00010000),
      Among8(v, 0x00000400, 0x01010400, 0x01010404, 0x00000400, 0x01000404, 0x01010004, 0x01000000, 0x00000004),
      Among8(v, 0x00000404, 0x01000400, 0x01000400, 0x00010400, 0x00010400, 0x01010000, 0x01010000, 0x01000404),
      Among8(v, 0x00010004, 0x01000004, 0x01000004, 0x00010004, 0x00000000, 0x00000404, 0x00010404, 0x01000000),
      Among8(v, 0x00010000, 0x01010404, 0x00000004, 0x01010000, 0x01010400, 0x01000000, 0x01000000, 0x00000400),
      Among8(v, 0x01010004, 0x00010000, 0x00010400, 0x01000004, 0x00000400, 0x00000004, 0x01000404, 0x00010404),
      Among8(v, 0x01010404, 0x00010004, 0x01010000, 0x01000404, 0x01000004, 0x00000404, 0x00010404, 0x01010400),
      Among8(v, 0x00000404, 0x01000400, 0x01000400, 0x00000000, 0x00010004, 0x00010400, 0x00000000, 0x01010004))
  }

  function SB2(v: Word): Word {
    Among8(v >> 3,
      Among8(v, 0x80108020, 0x80008000, 0x00008000, 0x00108020, 0x00100000, 0x00000020, 0x80100020, 0x80008020),
      Among8(v, 0x80000020, 0x80108020, 0x80108000, 0x80000000, 0x80008000, 0x00100000, 0x00000020, 0x80100020),
      Among8(v, 0x00108000, 0x00100020, 0x80008020, 0x00000000, 0x80000000, 0x00008000, 0x00108020, 0x80100000),
      Among8(v, 0x00100020, 0x80000020, 0x00000000, 0x00108000, 0x00008020, 0x80108000, 0x80100000, 0x00008020),
      Among8(v, 0x00000000, 0x00108020, 0x80100020, 0x00100000, 0x80008020, 0x80100000, 0x80108000, 0x00008000),
      Among8(v, 0x80100000, 0x80008000, 0x00000020, 0x80108020, 0x00108020, 0x00000020, 0x00008000, 0x80000000),
      Among8(v, 0x00008020, 0x80108000, 0x00100000, 0x80000020, 0x00100020, 0x80008020, 0x80000020, 0x00100020),
      Among8(v, 0x00108000, 0x00000000, 0x80008000, 0x00008020, 0x80000000, 0x80100020, 0x80108020, 0x00108000))
  }

  function SB3(v: Word): Word {
    Among8(v >> 3,
      Among8(v, 0x00000208, 0x08020200, 0x00000000, 0x08020008, 0x08000200, 0x00000000, 0x00020208, 0x08000200),
      Among8(v, 0x00020008, 0x08000008, 0x08000008, 0x00020000, 0x08020208, 0x00020008, 0x08020000, 0x00000208),
      Among8(v, 0x08000000, 0x00000008, 0x08020200, 0x00000200, 0x00020200, 0x08020000, 0x08020008, 0x00020208),
      Among8(v, 0x08000208, 0x00020200, 0x00020000, 0x08000208, 0x00000008, 0x08020208, 0x00000200, 0x08000000),
      Among8(v, 0x08020200, 0x08000000, 0x00020008, 0x00000208, 0x00020000, 0x08020200, 0x08000200, 0x00000000),
      Among8(v, 0x00000200, 0x00020008, 0x08020208, 0x08000200, 0x08000008, 0x00000200, 0x00000000, 0x08020008),
      Among8(v, 0x08000208, 0x00020000, 0x08000000, 0x08020208, 0x00000008, 0x00020208, 0x00020200, 0x08000008),
      Among8(v, 0x08020000, 0x08000208, 0x00000208, 0x08020000, 0x00020208, 0x00000008, 0x08020008, 0x00020200))
  }

  function SB4(v: Word): Word {
    Among8(v >> 3,
      Among8(v, 0x00802001, 0x00002081, 0x00002081, 0x00000080, 0x00802080, 0x00800081, 0x00800001, 0x00002001),
      Among8(v, 0x00000000, 0x00802000, 0x00802000, 0x00802081, 0x00000081, 0x00000000, 0x00800080, 0x00800001),
      Among8(v, 0x00000001, 0x00002000, 0x00800000, 0x00802001, 0x00000080, 0x00800000, 0x00002001, 0x00002080),
      Among8(v, 0x00800081, 0x00000001, 0x00002080, 0x00800080, 0x00002000, 0x00802080, 0x00802081, 0x00000081),
      Among8(v, 0x00800080, 0x00800001, 0x00802000, 0x00802081, 0x00000081, 0x00000000, 0x00000000, 0x00802000),
      Among8(v, 0x00002080, 0x00800080, 0x00800081, 0x00000001, 0x00802001, 0x00002081, 0x00002081, 0x00000080),
      Among8(v, 0x00802081, 0x00000081, 0x00000001, 0x00002000, 0x00800001, 0x00002001, 0x00802080, 0x00800081),
      Among8(v, 0x00002001, 0x00002080, 0x00800000, 0x00802001, 0x00000080, 0x00800000, 0x00002000, 0x00802080))
  }

  function SB5(v: Word): Word {
    Among8(v >> 3,
      Among8(v, 0x00000100, 0x02080100, 0x02080000, 0x42000100, 0x00080000, 0x00000100, 0x40000000, 0x02080000),
      Among8(v, 0x40080100, 0x00080000, 0x02000100, 0x40080100, 0x42000100, 0x42080000, 0x00080100, 0x40000000),
      Among8(v, 0x02000000, 0x40080000, 0x40080000, 0x00000000, 0x40000100, 0x42080100, 0x42080100, 0x02000100),
      Among8(v, 0x42080000, 0x40000100, 0x00000000, 0x42000000, 0x02080100, 0x02000000, 0x42000000, 0x00080100),
      Among8(v, 0x00080000, 0x42000100, 0x00000100, 0x02000000, 0x40000000, 0x02080000, 0x42000100, 0x40080100),
      Among8(v, 0x02000100, 0x40000000, 0x42080000, 0x02080100, 0x40080100, 0x00000100, 0x02000000, 0x42080000),
      Among8(v, 0x42080100, 0x00080100, 0x42000000, 0x42080100, 0x02080000, 0x00000000, 0x40080000, 0x42000000),
      Among8(v, 0x00080100, 0x02000100, 0x40000100, 0x00080000, 0x00000000, 0x40080000, 0x02080100, 0x40000100))
  }

  function SB6(v: Word): Word {
    Among8(v >> 3,
      Among8(v, 0x20000010, 0x20400000, 0x00004000, 0x20404010, 0x20400000, 0x00000010, 0x20404010, 0x00400000),
      Among8(v, 0x20004000, 0x00404010, 0x00400000, 0x20000010, 0x00400010, 0x20004000, 0x20000000, 0x00004010),
      Among8(v, 0x00000000, 0x00400010, 0x20004010, 0x00004000, 0x00404000, 0x20004010, 0x00000010, 0x20400010),
      Among8(v, 0x20400010, 0x00000000, 0x00404010, 0x20404000, 0x00004010, 0x00404000, 0x20404000, 0x20000000),
      Among8(v, 0x20004000, 0x00000010, 0x20400010, 0x00404000, 0x20404010, 0x00400000, 0x00004010, 0x20000010),
      Among8(v, 0x00400000, 0x20004000, 0x20000000, 0x00004010, 0x20000010, 0x20404010, 0x00404000, 0x20400000),
      Among8(v, 0x00404010, 0x20404000, 0x00000000, 0x20400010, 0x00000010, 0x00004000, 0x20400000, 0x00404010),
      Among8(v, 0x00004000, 0x00400010, 0x20004010, 0x00000000, 0x20404000, 0x20000000, 0x00400010, 0x20004010))
  }

  function SB7(v: Word): Word {
    Among8(v >> 3,
      Among8(v, 0x00200000, 0x04200002, 0x04000802, 0x00000000, 0x00000800, 0x04000802, 0x00200802, 0x04200800),
      Among8(v, 0x04200802, 0x00200000, 0x00000000, 0x04000002, 0x00000002, 0x04000000, 0x04200002, 0x00000802),
      Among8(v, 0x04000800, 0x00200802, 0x00200002, 0x04000800, 0x04000002, 0x04200000, 0x04200800, 0x00200002),
      Among8(v, 0x04200000, 0x00000800, 0x00000802, 0x04200802, 0x00200800, 0x00000002, 0x04000000, 0x00200800),
      Among8(v, 0x04000000, 0x00200800, 0x00200000, 0x04000802, 0x04000802, 0x04200002, 0x04200002, 0x00000002),
      Among8(v, 0x00200002, 0x04000000, 0x04000800, 0x00200000, 0x04200800, 0x00000802, 0x00200802, 0x04200800),
      Among8(v, 0x00000802, 0x04000002, 0x04200802, 0x04200000, 0x00200800, 0x00000000, 0x00000002, 0x04200802),
      Among8(v, 0x00000000, 0x00200802, 0x04200000, 0x00000800, 0x04000002, 0x04000800, 0x00000800, 0x00200002))
  }

  function SB8(v: Word): Word {
    Among8(v >> 3,
      Among8(v, 0x10001040, 0x00001000, 0x00040000, 0x10041040, 0x10000000, 0x10001040, 0x00000040, 0x10000000),
      Among8(v, 0x00040040, 0x10040000, 0x10041040, 0x00041000, 0x10041000, 0x00041040, 0x00001000, 0x00000040),
      Among8(v, 0x10040000, 0x10000040, 0x10001000, 0x00001040, 0x00041000, 0x00040040, 0x10040040, 0x10041000),
      Among8(v, 0x00001040, 0x00000000, 0x00000000, 0x10040040, 0x10000040, 0x10001000, 0x00041040, 0x00040000),
      Among8(v, 0x00041040, 0x00040000, 0x10041000, 0x00001000, 0x00000040, 0x10040040, 0x00001000, 0x00041040),
      Among8(v, 0x10001000, 0x00000040, 0x10000040, 0x10040000, 0x10040040, 0x10000000, 0x00040000, 0x10001040),
      Among8(v, 0x00000000, 0x10041040, 0x00040040, 0x10000040, 0x10040000, 0x10001000, 0x10001040, 0x00000000),
      Among8(v, 0x10041040, 0x00041000, 0x00041000, 0x00001040, 0x00001040, 0x00040040, 0x10000000, 0x10041000))
  }

  /** SB1 to SB8 */
  function Standard(): (sb: Tables)
    ensures TablesOk(sb)
  {
    [v => SB1(v), v => SB2(v), v => SB3(v), v => SB4(v), v => SB5(v), v => SB6(v), v => SB7(v), v => SB8(v)]
  }

  // ---------- the key schedule ----------

  function LHs(v: Word): Word {
    if v & 8 == 0 then
      Among8(v, 0x00000000, 0x00000001, 0x00000100, 0x00000101, 0x00010000, 0x00010001, 0x00010100, 0x00010101)
    else
      Among8(v, 0x01000000, 0x01000001, 0x01000100, 0x01000101, 0x01010000, 0x01010001, 0x01010100, 0x01010101)
  }

  function RHs(v: Word): Word {
    if v & 8 == 0 then
      Among8(v, 0x00000000, 0x01000000, 0x00010000, 0x01010000, 0x00000100, 0x01000100, 0x00010100, 0x01010100)
    else
      Among8(v, 0x00000001, 0x01000001, 0x00010001, 0x01010001, 0x00000101, 0x01000101, 0x00010101, 0x01010101)
  }

  /** The exchanges in front of Permuted Choice 1. */
  function SwapKey(x0: Word, y0: Word): (Word, Word) {
    var t := ((y0 >> 4) ^ x0) & 0x0F0F0F0F;
    var x1, y1 := x0 ^ t, y0 ^ (t << 4);
    var u := (y1 ^ x1) & 0x10101010;
    (x1 ^ u, y1 ^ u)
  }

  /** Eight table entries shifted into each other; 28 bits are kept. */
  function Woven(a: Word, b: Word, c: Word, d: Word, e: Word, f: Word, g: Word, h: Word): Word {
    ((a << 3) | (b << 2) | (c << 1) | d | (e << 7) | (f << 6) | (g << 5) | (h << 4)) & 0x0FFFFFFF
  }

  function LeftHalf(x: Word): Word {
    Woven(LHs(x & 0xF), LHs((x >> 8) & 0xF), LHs((x >> 16) & 0xF), LHs((x >> 24) & 0xF),
          LHs((x >> 5) & 0xF), LHs((x >> 13) & 0xF), LHs((x >> 21) & 0xF), LHs((x >> 29) & 0xF))
  }

  function RightHalf(y: Word): Word {
    Woven(RHs((y >> 1) & 0xF), RHs((y >> 9) & 0xF), RHs((y >> 17) & 0xF), RHs((y >> 25) & 0xF),
          RHs((y >> 4) & 0xF), RHs((y >> 12) & 0xF), RHs((y >> 20) & 0xF), RHs((y >> 28) & 0xF))
  }

  /** Permuted Choice 1 on the two words of the key. */
  function Choice1(x0: Word, y0: Word): (Word, Word) {
    var (x, y) := SwapKey(x0, y0);
    (LeftHalf(x), RightHalf(y))
  }

  function Turn1(x: Word): Word { ((x << 1) | (x >> 27)) & 0x0FFFFFFF }

  function Turn2(x: Word): Word { ((x << 2) | (x >> 26)) & 0x0FFFFFFF }

  /** The first subkey word of a round. */
  function FirstKey(x: Word, y: Word): Word {
    ((x << 4) & 0x24000000) | ((x << 28) & 0x10000000)
    | ((x << 14) & 0x08000000) | ((x << 18) & 0x02080000)
    | ((x << 6) & 0x01000000) | ((x << 9) & 0x00200000)
    | ((x >> 1) & 0x00100000) | ((x << 10) & 0x00040000)
    | ((x << 2) & 0x00020000) | ((x >> 10) & 0x00010000)
    | ((y >> 13) & 0x00002000) | ((y >> 4) & 0x00001000)
    | ((y << 6) & 0x00000800) | ((y >> 1) & 0x00000400)
    | ((y >> 14) & 0x00000200) | (y & 0x00000100)
    | ((y >> 5) & 0x00000020) | ((y >> 10) & 0x00000010)
    | ((y >> 3) & 0x00000008) | ((y >> 18) & 0x00000004)
    | ((y >> 26) & 0x00000002) | ((y >> 24) & 0x00000001)
  }

  /** The second one. */
  function SecondKey(x: Word, y: Word): Word {
    ((x << 15) & 0x20000000) | ((x << 17) & 0x10000000)
    | ((x << 10) & 0x08000000) | ((x << 22) & 0x04000000)
    | ((x >> 2) & 0x02000000) | ((x << 1) & 0x01000000)
    | ((x << 16) & 0x00200000) | ((x << 11) & 0x00100000)
    | ((x << 3) & 0x00080000) | ((x >> 6) & 0x00040000)
    | ((x << 15) & 0x00020000) | ((x >> 4) & 0x00010000)
    | ((y >> 2) & 0x00002000) | ((y << 8) & 0x00001000)
    | ((y >> 14) & 0x00000808) | ((y >> 9) & 0x00000400)
    | (y & 0x00000200) | ((y << 7) & 0x00000100)
    | ((y >> 7) & 0x00000020) | ((y >> 3) & 0x00000011)
    | ((y << 2) & 0x00000004) | ((y >> 21) & 0x00000002)
  }

  /** X and Y of des_main_ks after n turns of its loop. */
  function KeyState(kx: Word, ky: Word, n: nat): (Word, Word) {
    if n == 0 then Choice1(kx, ky)
    else
      var (x, y) := KeyState(kx, ky, n - 1);
      var i := n - 1;
      if i < 2 || i == 8 || i == 15 then (Turn1(x), Turn1(y)) else (Turn2(x), Turn2(y))
  }

  /** The two subkeys of round n, counted from 1. */
  function KeyPair(kx: Word, ky: Word, n: nat): (Word, Word) {
    var (x, y) := KeyState(kx, ky, n);
    (FirstKey(x, y), SecondKey(x, y))
  }

  /** des_main_ks on the two words of the key. */
  function Schedule(kx: Word, ky: Word): (sk: seq<Word>)
    ensures KeysOk(sk)
  {
    seq(32, i requires 0 <= i < 32 => var k := KeyPair(kx, ky, i / 2 + 1); if i % 2 == 0 then k.0 else k.1)
  }
}
