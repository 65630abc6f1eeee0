/** The DES block cipher of FIPS 46-3 and its use on messages with padding (lualib-src/lua-crypt.cpp). */
module Des {
  import opened Common

  type Word = bv32
  type Octet = bv8

  /** The eight S-box tables, indexed by six bits; nothing below depends on what they hold. */
  type Tables = seq<Word -> Word>

  /** One step of the initial and final permutation: exchanges the masked bits of y with those of x shifted down. */
  function Exchange4(x: Word, y: Word): (Word, Word) {
    var t := ((x >> 4) ^ y) & 0x0F0F0F0F; (x ^ (t << 4), y ^ t)
  }

  function Exchange16(x: Word, y: Word): (Word, Word) {
    var t := ((x >> 16) ^ y) & 0x0000FFFF; (x ^ (t << 16), y ^ t)
  }

  function Exchange2(y: Word, x: Word): (Word, Word) {
    var t := ((y >> 2) ^ x) & 0x33333333; (y ^ (t << 2), x ^ t)
  }

  function Exchange8(y: Word, x: Word): (Word, Word) {
    var t := ((y >> 8) ^ x) & 0x00FF00FF; (y ^ (t << 8), x ^ t)
  }

  function ExchangeOdd(x: Word, y: Word): (Word, Word) {
    var t := (x ^ y) & 0xAAAAAAAA; (x ^ t, y ^ t)
  }

  function Left1(x: Word): Word { (x << 1) | (x >> 31) }

  function Right1(x: Word): Word { (x << 31) | (x >> 1) }

  /** DES_IP(X, Y) */
  function Initial(x0: Word, y0: Word): (Word, Word) {
    var (x1, y1) := Exchange4(x0, y0);
    var (x2, y2) := Exchange16(x1, y1);
    var (y3, x3) := Exchange2(y2, x2);
    var (y4, x4) := Exchange8(y3, x3);
    var (x5, y5) := ExchangeOdd(x4, Left1(y4));
    (Left1(x5), y5)
  }

  /** DES_FP(X, Y) */
  function Final(x0: Word, y0: Word): (Word, Word) {
    var (x1, y1) := ExchangeOdd(Right1(x0), y0);
    var (y2, x2) := Exchange8(Right1(y1), x1);
    var (y3, x3) := Exchange2(y2, x2);
    var (x4, y4) := Exchange16(x3, y3);
    Exchange4(x4, y4)
  }

  lemma Involution4(x: Word, y: Word)
    ensures var (a, b) := Exchange4(x, y); Exchange4(a, b) == (x, y)
  {
  }

  lemma Involution16(x: Word, y: Word)
    ensures var (a, b) := Exchange16(x, y); Exchange16(a, b) == (x, y)
  {
  }

  lemma Involution2(y: Word, x: Word)
    ensures var (a, b) := Exchange2(y, x); Exchange2(a, b) == (y, x)
  {
  }

  lemma Involution8(y: Word, x: Word)
    ensures var (a, b) := Exchange8(y, x); Exchange8(a, b) == (y, x)
  {
  }

  lemma InvolutionOdd(x: Word, y: Word)
    ensures var (a, b) := ExchangeOdd(x, y); ExchangeOdd(a, b) == (x, y)
  {
  }

  lemma Rotations(x: Word)
    ensures Right1(Left1(x)) == x && Left1(Right1(x)) == x
  {
  }

  /** The final permutation is the inverse of the initial one, both ways. */
  lemma FinalInvertsInitial(x: Word, y: Word)
    ensures var (a, b) := Initial(x, y); Final(a, b) == (x, y)
  {
    hide Exchange4, Exchange16, Exchange2, Exchange8, ExchangeOdd, Left1, Right1;
    var (x1, y1) := Exchange4(x, y);
    var (x2, y2) := Exchange16(x1, y1);
    var (y3, x3) := Exchange2(y2, x2);
    var (y4, x4) := Exchange8(y3, x3);
    var (x5, y5) := ExchangeOdd(x4, Left1(y4));
    Involution4(x, y);
    Involution16(x1, y1);
    Involution2(y2, x2);
    Involution8(y3, x3);
    InvolutionOdd(x4, Left1(y4));
    Rotations(x5);
    Rotations(y4);
  }

  lemma InitialInvertsFinal(x: Word, y: Word)
    ensures var (a, b) := Final(x, y); Initial(a, b) == (x, y)
  {
    hide Exchange4, Exchange16, Exchange2, Exchange8, ExchangeOdd, Left1, Right1;
    var (x1, y1) := ExchangeOdd(Right1(x), y);
    var (y2, x2) := Exchange8(Right1(y1), x1);
    var (y3, x3) := Exchange2(y2, x2);
    var (x4, y4) := Exchange16(x3, y3);
    InvolutionOdd(Right1(x), y);
    Involution8(Right1(y1), x1);
    Involution2(y2, x2);
    Involution16(x3, y3);
    Involution4(x4, y4);
    Rotations(x);
    Rotations(y1);
  }

  predicate TablesOk(sb: Tables) { |sb| == 8 }

  /** What DES_ROUND(X, Y) adds to Y: two subkeys, and the eight tables SB1..SB8. */
  function Mix(sb: Tables, k1: Word, k2: Word, x: Word): Word
    requires TablesOk(sb)
  {
    var t := k1 ^ x;
    var u := k2 ^ ((x << 28) | (x >> 4));
    sb[7](t & 0x3F) ^ sb[5]((t >> 8) & 0x3F) ^ sb[3]((t >> 16) & 0x3F) ^ sb[1]((t >> 24) & 0x3F)
    ^ sb[6](u & 0x3F) ^ sb[4]((u >> 8) & 0x3F) ^ sb[2]((u >> 16) & 0x3F) ^ sb[0]((u >> 24) & 0x3F)
  }

  function Xor(a: Word, b: Word): Word { a ^ b }

  predicate KeysOk(sk: seq<Word>) { |sk| == 32 }

  /** Rounds n, n + 1, ..., 15 on the pair (x, y), the even ones changing x. */
  function Rounds(sb: Tables, sk: seq<Word>, n: nat, x: Word, y: Word): (Word, Word)
    requires TablesOk(sb) && KeysOk(sk) && n <= 16
    decreases 16 - n
  {
    if n == 16 then (x, y)
    else if n % 2 == 0 then Rounds(sb, sk, n + 1, Xor(x, Mix(sb, sk[2 * n], sk[2 * n + 1], y)), y)
    else Rounds(sb, sk, n + 1, x, Xor(y, Mix(sb, sk[2 * n], sk[2 * n + 1], x)))
  }

  /** des_crypt on two words. */
  function CryptWords(sb: Tables, sk: seq<Word>, x0: Word, y0: Word): (Word, Word)
    requires TablesOk(sb) && KeysOk(sk)
  {
    var (x1, y1) := Initial(x0, y0);
    var (x2, y2) := Rounds(sb, sk, 0, x1, y1);
    Final(y2, x2)
  }

  /** The subkeys of ldesdecode: the pairs in reverse order. */
  function Reversed(sk: seq<Word>): (r: seq<Word>)
    requires KeysOk(sk)
    ensures KeysOk(r)
  {
    seq(32, i requires 0 <= i < 32 => if i % 2 == 0 then sk[30 - i] else sk[32 - i])
  }

  lemma XorTwice(a: Word, b: Word)
    ensures Xor(Xor(a, b), b) == a
  {
  }

  /** The rounds up to n. */
  function FirstRounds(sb: Tables, sk: seq<Word>, n: nat, x: Word, y: Word): (Word, Word)
    requires TablesOk(sb) && KeysOk(sk) && n <= 16
  {
    if n == 0 then (x, y)
    else
      var (a, b) := FirstRounds(sb, sk, n - 1, x, y);
      if n % 2 == 1 then (Xor(a, Mix(sb, sk[2 * n - 2], sk[2 * n - 1], b)), b)
      else (a, Xor(b, Mix(sb, sk[2 * n - 2], sk[2 * n - 1], a)))
  }

  lemma {:induction false} RoundsSplit(sb: Tables, sk: seq<Word>, n: nat, x: Word, y: Word)
    requires TablesOk(sb) && KeysOk(sk) && n <= 16
    ensures var (a, b) := FirstRounds(sb, sk, n, x, y); Rounds(sb, sk, n, a, b) == Rounds(sb, sk, 0, x, y)
  {
    hide Mix, Xor;
    if n > 0 {
      var (a, b) := FirstRounds(sb, sk, n - 1, x, y);
      SplitOne(sb, sk, n, a, b);
      hide Rounds;
      RoundsSplit(sb, sk, n - 1, x, y);
    }
  }

  lemma SplitOne(sb: Tables, sk: seq<Word>, n: nat, a: Word, b: Word)
    requires TablesOk(sb) && KeysOk(sk) && 1 <= n <= 16
    ensures
      var k1, k2 := sk[2 * n - 2], sk[2 * n - 1];
      Rounds(sb, sk, n - 1, a, b)
      == if n % 2 == 1 then Rounds(sb, sk, n, Xor(a, Mix(sb, k1, k2, b)), b) else Rounds(sb, sk, n, a, Xor(b, Mix(sb, k1, k2, a)))
  {
    hide Mix, Xor;
  }

  /** The rounds with reversed subkeys, on the exchanged halves, take the rounds back one by one. */
  lemma {:induction false} RoundsUndo(sb: Tables, sk: seq<Word>, n: nat, x: Word, y: Word)
    requires TablesOk(sb) && KeysOk(sk) && n <= 16
    ensures var (a, b) := FirstRounds(sb, sk, n, x, y);
      Rounds(sb, Reversed(sk), 16 - n, b, a) == (y, x)
    decreases n
  {
    hide Mix, Xor;
    if n > 0 {
      hide Reversed;
      var (a, b) := FirstRounds(sb, sk, n - 1, x, y);
      UndoOne(sb, sk, n, a, b);
      RoundsUndo(sb, sk, n - 1, x, y);
    }
  }

  lemma UndoOne(sb: Tables, sk: seq<Word>, n: nat, a: Word, b: Word)
    requires TablesOk(sb) && KeysOk(sk) && 1 <= n <= 16
    ensures
      var k1, k2, rk := sk[2 * n - 2], sk[2 * n - 1], Reversed(sk);
      if n % 2 == 1 then Rounds(sb, rk, 16 - n, b, Xor(a, Mix(sb, k1, k2, b))) == Rounds(sb, rk, 17 - n, b, a)
      else Rounds(sb, rk, 16 - n, Xor(b, Mix(sb, k1, k2, a)), a) == Rounds(sb, rk, 17 - n, b, a)
  {
    hide Mix, Xor;
    var back, rk := 16 - n, Reversed(sk);
    ReversedAt(sk, n);
    hide Reversed;
    XorTwice(a, Mix(sb, sk[2 * n - 2], sk[2 * n - 1], b));
    XorTwice(b, Mix(sb, sk[2 * n - 2], sk[2 * n - 1], a));
    assert back % 2 == n % 2;
  }

  lemma ReversedAt(sk: seq<Word>, n: nat)
    requires KeysOk(sk) && 1 <= n <= 16
    ensures Reversed(sk)[2 * (16 - n)] == sk[2 * n - 2] && Reversed(sk)[2 * (16 - n) + 1] == sk[2 * n - 1]
  {
  }

  /** des_crypt with reversed subkeys undoes des_crypt, for all tables, all subkeys and all blocks. */
  lemma CryptInverse(sb: Tables, sk: seq<Word>, x: Word, y: Word)
    requires TablesOk(sb) && KeysOk(sk)
    ensures var (a, b) := CryptWords(sb, sk, x, y); CryptWords(sb, Reversed(sk), a, b) == (x, y)
  {
    hide Mix, Initial, Final, Reversed;
    var (x1, y1) := Initial(x, y);
    var (x2, y2) := Rounds(sb, sk, 0, x1, y1);
    RoundsSplit(sb, sk, 16, x1, y1);
    RoundsUndo(sb, sk, 16, x1, y1);
    InitialInvertsFinal(y2, x2);
    FinalInvertsInitial(x, y);
  }

  // ---------- blocks ----------

  /** GET_UINT32 */
  function GetWord(b: seq<Octet>, i: nat): Word
    requires i + 4 <= |b|
  {
    ((b[i] as Word) << 24) | ((b[i + 1] as Word) << 16) | ((b[i + 2] as Word) << 8) | (b[i + 3] as Word)
  }

  /** PUT_UINT32 */
  function PutWord(n: Word): (b: seq<Octet>)
    ensures |b| == 4
  {
    [((n >> 24) & 0xFF) as Octet, ((n >> 16) & 0xFF) as Octet, ((n >> 8) & 0xFF) as Octet, (n & 0xFF) as Octet]
  }

  lemma GetPut(n: Word)
    ensures GetWord(PutWord(n), 0) == n
  {
  }

  lemma PutGet(b: seq<Octet>)
    requires |b| == 4
    ensures PutWord(GetWord(b, 0)) == b
  {
    var p := PutWord(GetWord(b, 0));
    assert p[0] == b[0] && p[1] == b[1] && p[2] == b[2] && p[3] == b[3];
  }

  function CryptBlock(sb: Tables, sk: seq<Word>, b: seq<Octet>): (r: seq<Octet>)
    requires TablesOk(sb) && KeysOk(sk) && |b| == 8
    ensures |r| == 8
  {
    var (x, y) := CryptWords(sb, sk, GetWord(b, 0), GetWord(b, 4));
    PutWord(x) + PutWord(y)
  }

  lemma BlockInverse(sb: Tables, sk: seq<Word>, b: seq<Octet>)
    requires TablesOk(sb) && KeysOk(sk) && |b| == 8
    ensures CryptBlock(sb, Reversed(sk), CryptBlock(sb, sk, b)) == b
  {
    hide CryptWords, PutWord, GetWord, Reversed;
    var r := CryptBlock(sb, sk, b);
    var (x, y) := CryptWords(sb, sk, GetWord(b, 0), GetWord(b, 4));
    CryptInverse(sb, sk, GetWord(b, 0), GetWord(b, 4));
    TwoWords(PutWord(x), PutWord(y));
    TwoWords(b[..4], b[4..]);
    assert b == b[..4] + b[4..];
    GetPut(x);
    GetPut(y);
    PutGet(b[..4]);
    PutGet(b[4..]);
  }

  lemma TwoWords(p: seq<Octet>, q: seq<Octet>)
    requires |p| == |q| == 4
    ensures GetWord(p + q, 0) == GetWord(p, 0) && GetWord(p + q, 4) == GetWord(q, 0)
  {
  }

  lemma ReversedTwice(sk: seq<Word>)
    requires KeysOk(sk)
    ensures Reversed(Reversed(sk)) == sk
  {
  }

  /** Every block of a text, on its own. */
  function CryptText(sb: Tables, sk: seq<Word>, s: seq<Octet>): (r: seq<Octet>)
    requires TablesOk(sb) && KeysOk(sk) && |s| % 8 == 0
    ensures |r| == |s|
    decreases |s|
  {
    if |s| == 0 then [] else CryptBlock(sb, sk, s[..8]) + CryptText(sb, sk, s[8..])
  }

  lemma {:induction false} TextInverse(sb: Tables, sk: seq<Word>, s: seq<Octet>)
    requires TablesOk(sb) && KeysOk(sk) && |s| % 8 == 0
    ensures CryptText(sb, Reversed(sk), CryptText(sb, sk, s)) == s
    decreases |s|
  {
    hide CryptBlock, Reversed;
    if |s| > 0 {
      BlockInverse(sb, sk, s[..8]);
      TextInverse(sb, sk, s[8..]);
      var r := CryptText(sb, sk, s);
      assert r[..8] == CryptBlock(sb, sk, s[..8]) && r[8..] == CryptText(sb, sk, s[8..]);
      assert s == s[..8] + s[8..];
    }
  }

  lemma {:induction false} TextAppend(sb: Tables, sk: seq<Word>, a: seq<Octet>, b: seq<Octet>)
    requires TablesOk(sb) && KeysOk(sk) && |a| % 8 == 0 && |b| % 8 == 0
    ensures CryptText(sb, sk, a + b) == CryptText(sb, sk, a) + CryptText(sb, sk, b)
    decreases |a|
  {
    hide CryptBlock;
    if |a| == 0 {
      assert a + b == b;
    } else {
      assert (a + b)[..8] == a[..8] && (a + b)[8..] == a[8..] + b;
      TextAppend(sb, sk, a[8..], b);
    }
  }

  lemma TextNone(sb: Tables, sk: seq<Word>)
    requires TablesOk(sb) && KeysOk(sk)
    ensures CryptText(sb, sk, []) == []
  {
  }

  /** One more block of a text. */
  lemma TextOneMore(sb: Tables, sk: seq<Word>, text: seq<Octet>, i: nat, b: seq<Octet>, buffer: seq<Octet>)
    requires TablesOk(sb) && KeysOk(sk) && i % 8 == 0 && i + 8 <= |text| && i + 8 <= |buffer| && |b| == 8
    requires b == text[i..i + 8]
    requires buffer[..i] == CryptText(sb, sk, text[..i]) && buffer[i..i + 8] == CryptBlock(sb, sk, b)
    ensures buffer[..i + 8] == CryptText(sb, sk, text[..i + 8])
  {
    hide CryptBlock;
    assert text[..i + 8] == text[..i] + b && buffer[..i + 8] == buffer[..i] + buffer[i..i + 8];
    assert b[..8] == b && b[8..] == [];
    TextAppend(sb, sk, text[..i], b);
  }

  // ---------- padding ----------

  datatype Mode = Iso7816 | Pkcs7

  /** The n bytes of padding, 1 to 8. */
  function Pad(mode: Mode, n: nat): (p: seq<Octet>)
    requires 1 <= n <= 8
    ensures |p| == n
  {
    match mode
    case Iso7816 => [0x80 as Octet] + seq(n - 1, _ => 0 as Octet)
    case Pkcs7 => seq(n, _ => n as Octet)
  }

  function Padded(text: seq<Octet>, mode: Mode): (p: seq<Octet>)
    ensures |p| % 8 == 0 && |p| > 0
  {
    text + Pad(mode, 8 - |text| % 8)
  }

  /** padding_remove_iso7816_4 after i zeros; 0 for invalid. */
  function IsoPadding(s: seq<Octet>, i: nat): int
    requires |s| >= 8 && i <= 8
    decreases 8 - i
  {
    if i == 8 then 0
    else if s[|s| - 1 - i] == 0 then IsoPadding(s, i + 1)
    else if s[|s| - 1 - i] == 0x80 then i + 1
    else 0
  }

  /** padding_remove_pkcs7; a length above 8 is refused by its caller, whatever precedes. */
  function PkcsPadding(s: seq<Octet>): int
    requires |s| >= 8
  {
    var p := s[|s| - 1] as int;
    if p > 8 then p else if forall k :: |s| - p <= k < |s| ==> s[k] as int == p then p else 0
  }

  function PaddingOf(s: seq<Octet>, mode: Mode): int
    requires |s| >= 8
  {
    match mode case Iso7816 => IsoPadding(s, 0) case Pkcs7 => PkcsPadding(s)
  }

  function Encode(sb: Tables, sk: seq<Word>, text: seq<Octet>, mode: Mode): seq<Octet>
    requires TablesOk(sb) && KeysOk(sk)
  {
    CryptText(sb, sk, Padded(text, mode))
  }

  function Decode(sb: Tables, sk: seq<Word>, text: seq<Octet>, mode: Mode): Option<seq<Octet>>
    requires TablesOk(sb) && KeysOk(sk)
  {
    if |text| % 8 != 0 || |text| == 0 then None
    else
      var s := CryptText(sb, Reversed(sk), text);
      var p := PaddingOf(s, mode);
      if p <= 0 || p > 8 then None else Some(s[..|s| - p])
  }

  /** What the scan finds: the place of the mark behind which only zeros follow. */
  lemma {:induction false} IsoFinds(s: seq<Octet>, i: nat, n: nat)
    requires |s| >= 8 && i < n <= 8
    requires forall k :: |s| - n < k < |s| ==> s[k] == 0
    requires s[|s| - n] == 0x80
    ensures IsoPadding(s, i) == n
    decreases 8 - i
  {
    if i + 1 < n { IsoFinds(s, i + 1, n); }
  }

  lemma {:induction false} IsoFound(s: seq<Octet>, i: nat)
    requires |s| >= 8 && i <= 8 && forall k :: |s| - i <= k < |s| ==> s[k] == 0
    ensures var n := IsoPadding(s, i);
      0 <= n <= 8 && (n > 0 ==> n > i && s[|s| - n] == 0x80 && forall k :: |s| - n < k < |s| ==> s[k] == 0)
    decreases 8 - i
  {
    if i < 8 && s[|s| - 1 - i] == 0 { IsoFound(s, i + 1); }
  }

  lemma IsoRemoves(text: seq<Octet>)
    ensures PaddingOf(Padded(text, Iso7816), Iso7816) == 8 - |text| % 8
  {
    var s, n := Padded(text, Iso7816), 8 - |text| % 8;
    assert s[|s| - n] == Pad(Iso7816, n)[0];
    assert forall k :: |s| - n < k < |s| ==> s[k] == Pad(Iso7816, n)[k - (|s| - n)];
    IsoFinds(s, 0, n);
  }

  lemma PkcsRemoves(text: seq<Octet>)
    ensures PaddingOf(Padded(text, Pkcs7), Pkcs7) == 8 - |text| % 8
  {
    var s, n := Padded(text, Pkcs7), 8 - |text| % 8;
    Small(n);
    assert forall k :: |s| - n <= k < |s| ==> s[k] == Pad(Pkcs7, n)[k - (|s| - n)];
  }

  /** What is removed is the padding of what is left. */
  lemma RemovedIsPad(s: seq<Octet>, mode: Mode)
    requires |s| >= 8
    ensures var p := PaddingOf(s, mode); 1 <= p <= 8 ==> s[|s| - p..] == Pad(mode, p)
  {
    var p := PaddingOf(s, mode);
    if 1 <= p <= 8 {
      if mode.Iso7816? { IsoFound(s, 0); } else { Small(p); }
      var tail := s[|s| - p..];
      forall k | 0 <= k < p
        ensures tail[k] == Pad(mode, p)[k]
      {
        assert tail[k] == s[|s| - p + k];
        if mode.Pkcs7? { SmallIs(tail[k], p); }
      }
    }
  }

  lemma SmallIs(b: Octet, n: nat)
    requires b as int == n && n <= 8
    ensures b == n as Octet
  {
  }

  /** Padding is removed exactly where it was added, in both modes. */
  lemma PaddingExact(s: seq<Octet>, text: seq<Octet>, mode: Mode)
    requires |s| % 8 == 0 && |s| > 0
    ensures (1 <= PaddingOf(s, mode) <= 8 && text == s[..|s| - PaddingOf(s, mode)]) <==> s == Padded(text, mode)
  {
    hide PaddingOf, Pad;
    var p := PaddingOf(s, mode);
    if mode.Iso7816? { IsoRemoves(text); } else { PkcsRemoves(text); }
    RemovedIsPad(s, mode);
    if 1 <= p <= 8 {
      Complement(|s|, p);
      assert s == s[..|s| - p] + s[|s| - p..];
    }
  }

  lemma Complement(n: nat, p: nat)
    requires n % 8 == 0 && 1 <= p <= 8 && p <= n
    ensures 8 - (n - p) % 8 == p
  {
  }

  lemma Small(n: nat)
    requires n <= 8
    ensures (n as Octet) as int == n
  {
  }

  /** A text decodes to a message exactly if it is the encoding of that message, for all keys, tables, and both paddings. */
  lemma DecodeExact(sb: Tables, sk: seq<Word>, text: seq<Octet>, message: seq<Octet>, mode: Mode)
    requires TablesOk(sb) && KeysOk(sk)
    ensures Decode(sb, sk, text, mode) == Some(message) <==> text == Encode(sb, sk, message, mode)
  {
    hide PaddingOf, Padded, CryptText, Reversed;
    if |text| % 8 == 0 && |text| > 0 {
      var s := CryptText(sb, Reversed(sk), text);
      PaddingExact(s, message, mode);
      TextInverse(sb, Reversed(sk), text);
      ReversedTwice(sk);
    }
    TextInverse(sb, sk, Padded(message, mode));
  }
}
