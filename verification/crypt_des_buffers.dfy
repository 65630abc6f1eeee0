/** des_crypt, ldesencode and ldesdecode as they work on words and buffers, proved against Des. */
module DesBuffers {
  import opened Common
  import opened Des
  import opened DesTables
  import opened DesStandard

  /** Two DES_ROUND macros: the pair is (X, Y). */
  method TwoRounds(sb: Tables, sk: seq<Word>, n: nat, x0: Word, y0: Word) returns (x: Word, y: Word)
    requires TablesOk(sb) && KeysOk(sk) && n % 2 == 0 && n + 2 <= 16
    ensures Rounds(sb, sk, n + 2, x, y) == Rounds(sb, sk, n, x0, y0)
  {
    hide Mix, Xor;
    x := Xor(x0, Mix(sb, sk[2 * n], sk[2 * n + 1], y0));
    y := Xor(y0, Mix(sb, sk[2 * n + 2], sk[2 * n + 3], x));
    assert Rounds(sb, sk, n, x0, y0) == Rounds(sb, sk, n + 1, x, y0);
    assert Rounds(sb, sk, n + 1, x, y0) == Rounds(sb, sk, n + 2, x, y);
  }

  method DesCrypt(sb: Tables, sk: seq<Word>, input: array<Octet>, at: nat, output: array<Octet>, to: nat)
    requires TablesOk(sb) && KeysOk(sk) && at + 8 <= input.Length && to + 8 <= output.Length
    modifies output
    ensures output[to..to + 8] == CryptBlock(sb, sk, old(input[at..at + 8]))
    ensures forall k :: 0 <= k < output.Length && (k < to || k >= to + 8) ==> output[k] == old(output[k])
  {
    hide GetWord, PutWord, Initial, Final, Mix, Rounds;
    ghost var block := input[at..at + 8];
    var x := GetWord(input[at..at + 8], 0);
    var y := GetWord(input[at..at + 8], 4);
    var pair := Initial(x, y);
    x, y := pair.0, pair.1;
    ghost var result := Rounds(sb, sk, 0, x, y);
    x, y := TwoRounds(sb, sk, 0, x, y);
    x, y := TwoRounds(sb, sk, 2, x, y);
    x, y := TwoRounds(sb, sk, 4, x, y);
    x, y := TwoRounds(sb, sk, 6, x, y);
    x, y := TwoRounds(sb, sk, 8, x, y);
    x, y := TwoRounds(sb, sk, 10, x, y);
    x, y := TwoRounds(sb, sk, 12, x, y);
    x, y := TwoRounds(sb, sk, 14, x, y);
    AllRounds(sb, sk, x, y);
    pair := Final(y, x);
    PutBytes(output, to, PutWord(pair.0) + PutWord(pair.1));
  }

  lemma AllRounds(sb: Tables, sk: seq<Word>, x: Word, y: Word)
    requires TablesOk(sb) && KeysOk(sk)
    ensures Rounds(sb, sk, 16, x, y) == (x, y)
  {
  }

  method PutBytes(output: array<Octet>, to: nat, b: seq<Octet>)
    requires |b| == 8 && to + 8 <= output.Length
    modifies output
    ensures output[to..to + 8] == b
    ensures forall k :: 0 <= k < output.Length && (k < to || k >= to + 8) ==> output[k] == old(output[k])
  {
    forall k | 0 <= k < 8 { output[to + k] := b[k]; }
    forall k | 0 <= k < 8 ensures output[to..to + 8][k] == b[k] { assert output[to + k] == b[k]; }
  }

  /** padding_add_iso7816_4 */
  method AddIso(buf: array<Octet>, offset: nat)
    requires buf.Length == 8 && offset < 8
    modifies buf
    ensures buf[..] == old(buf[..offset]) + Pad(Iso7816, 8 - offset)
  {
    ghost var p := Pad(Iso7816, 8 - offset);
    buf[offset] := 0x80;
    var i := offset + 1;
    while i < 8
      invariant offset < i <= 8 && buf[..offset] == old(buf[..offset]) && buf[offset..i] == p[..i - offset]
    {
      assert p[i - offset] == 0;
      buf[i] := 0;
      i := i + 1;
    }
    assert buf[..] == buf[..offset] + buf[offset..8];
  }

  /** padding_add_pkcs7 */
  method AddPkcs(buf: array<Octet>, offset: nat)
    requires buf.Length == 8 && offset < 8
    modifies buf
    ensures buf[..] == old(buf[..offset]) + Pad(Pkcs7, 8 - offset)
  {
    ghost var p := Pad(Pkcs7, 8 - offset);
    var x, i := (8 - offset) as Octet, offset;
    while i < 8
      invariant offset <= i <= 8 && buf[..offset] == old(buf[..offset]) && buf[offset..i] == p[..i - offset]
    {
      assert p[i - offset] == x;
      buf[i] := x;
      i := i + 1;
    }
    assert buf[..] == buf[..offset] + buf[offset..8];
  }

  /** add_padding: the rest of the message, and the padding that fills the block. */
  method AddPadding(text: array<Octet>, from: nat, mode: Mode) returns (tail: array<Octet>)
    requires from <= text.Length < from + 8 && from % 8 == 0
    ensures fresh(tail) && tail.Length == 8 && tail[..] == text[from..] + Pad(mode, 8 - text.Length % 8)
  {
    hide Pad;
    var offset := text.Length - from;
    tail := new Octet[8](_ => 0);
    var i := 0;
    while i < offset
      invariant 0 <= i <= offset && tail[..i] == text[from..from + i]
    {
      tail[i] := text[from + i];
      i := i + 1;
    }
    assert text[from..from + offset] == text[from..] && text.Length % 8 == offset;
    match mode
    case Iso7816 => AddIso(tail, offset);
    case Pkcs7 => AddPkcs(tail, offset);
  }

  method RemoveIso(buffer: array<Octet>) returns (padding: int)
    requires buffer.Length >= 8
    ensures padding == IsoPadding(buffer[..], 0)
  {
    padding := 1;
    var i, last := 0, buffer.Length - 1;
    while i < 8
      invariant 0 <= i <= 8 && last == buffer.Length - 1 - i && padding == i + 1
      invariant IsoPadding(buffer[..], i) == IsoPadding(buffer[..], 0)
    {
      if buffer[last] == 0 {
        padding := padding + 1;
      } else if buffer[last] == 0x80 {
        return;
      } else {
        break;
      }
      i, last := i + 1, last - 1;
    }
    padding := 0;
  }

  /** Reads at most the whole buffer; with a longer claim the caller refuses whatever is returned. */
  method RemovePkcs(buffer: array<Octet>) returns (padding: int)
    requires buffer.Length >= 8
    ensures 1 <= padding <= 8 || 1 <= PkcsPadding(buffer[..]) <= 8 ==> padding == PkcsPadding(buffer[..])
  {
    var last := buffer.Length - 1;
    padding := buffer[last] as int;
    var i := 1;
    while i < padding && i < buffer.Length
      invariant 1 <= i <= buffer.Length && last == buffer.Length - i && padding == buffer[buffer.Length - 1] as int
      invariant padding >= 1 ==> i <= padding
      invariant forall k :: last <= k < buffer.Length ==> buffer[k] as int == padding || padding == 0
    {
      last := last - 1;
      if buffer[last] as int != padding {
        return 0;
      }
      i := i + 1;
    }
  }

  /** des_main_ks */
  method DesMainKs(key: array<Octet>) returns (sk: array<Word>)
    requires key.Length == 8
    ensures fresh(sk) && sk.Length == 32 && sk[..] == KeyOf(key[..])
  {
    hide GetWord, Choice1, Turn1, Turn2, FirstKey, SecondKey, KeyState, KeyPair, Schedule;
    var kx, ky := GetWord(key[..], 0), GetWord(key[..], 4);
    var pair := Choice1(kx, ky);
    var x, y := pair.0, pair.1;
    assert (x, y) == KeyState(kx, ky, 0) by { StateStart(kx, ky); }
    sk := new Word[32](_ => 0);
    var i := 0;
    while i < 16
      invariant 0 <= i <= 16 && (x, y) == KeyState(kx, ky, i)
      invariant forall k :: 0 <= k < 2 * i ==> sk[k] == Schedule(kx, ky)[k]
    {
      if i < 2 || i == 8 || i == 15 {
        x, y := Turn1(x), Turn1(y);
      } else {
        x, y := Turn2(x), Turn2(y);
      }
      sk[2 * i] := FirstKey(x, y);
      sk[2 * i + 1] := SecondKey(x, y);
      StateStep(kx, ky, i, x, y);
      i := i + 1;
      ScheduleAt(kx, ky, i);
    }
  }

  lemma StateStart(kx: Word, ky: Word)
    ensures KeyState(kx, ky, 0) == Choice1(kx, ky)
  {
  }

  lemma StateStep(kx: Word, ky: Word, i: nat, x: Word, y: Word)
    requires
      var (a, b) := KeyState(kx, ky, i);
      (x, y) == if i < 2 || i == 8 || i == 15 then (Turn1(a), Turn1(b)) else (Turn2(a), Turn2(b))
    ensures KeyState(kx, ky, i + 1) == (x, y) && KeyPair(kx, ky, i + 1) == (FirstKey(x, y), SecondKey(x, y))
  {
    hide Turn1, Turn2, FirstKey, SecondKey;
  }

  /** des_key: None where the source raises an error. */
  method DesKey(key: array<Octet>) returns (sk: Option<seq<Word>>)
    ensures sk == if key.Length == 8 then Some(KeyOf(key[..])) else None
  {
    if key.Length != 8 { return None; }
    var words := DesMainKs(key);
    return Some(words[..]);
  }

  /** ldesencode */
  method DesEncode(sb: Tables, sk: seq<Word>, text: array<Octet>, mode: Mode) returns (buffer: array<Octet>)
    requires TablesOk(sb) && KeysOk(sk)
    ensures fresh(buffer) && buffer[..] == Encode(sb, sk, text[..], mode)
  {
    hide CryptBlock, CryptText, Pad;
    var chunk := (text.Length + 8) / 8 * 8;
    buffer := new Octet[chunk](_ => 0);
    var i := 0;
    TextNone(sb, sk);
    while i < text.Length - 7
      invariant 0 <= i <= text.Length && i % 8 == 0 && i + 8 <= chunk
      invariant buffer[..i] == CryptText(sb, sk, text[..i])
    {
      DesCrypt(sb, sk, text, i, buffer, i);
      TextOneMore(sb, sk, text[..], i, text[i..i + 8], buffer[..]);
      i := i + 8;
    }
    var tail := AddPadding(text, i, mode);
    DesCrypt(sb, sk, tail, 0, buffer, i);
    ghost var padded := Padded(text[..], mode);
    assert text[..] == text[..i] + text[i..];
    assert padded == text[..i] + tail[..];
    assert padded[..i] == text[..i] && padded[i..i + 8] == tail[..] && tail[0..8] == tail[..];
    TextOneMore(sb, sk, padded, i, padded[i..i + 8], buffer[..]);
    assert padded[..i + 8] == padded && buffer[..i + 8] == buffer[..];
  }

  /** ldesdecode: None where the source raises an error. */
  method DesDecode(sb: Tables, esk: seq<Word>, text: array<Octet>, mode: Mode) returns (message: Option<seq<Octet>>)
    requires TablesOk(sb) && KeysOk(esk)
    ensures message == Decode(sb, esk, text[..], mode)
  {
    hide CryptBlock, CryptText, IsoPadding, PkcsPadding;
    var sk := Reversed(esk);
    if text.Length % 8 != 0 || text.Length == 0 { return None; }
    var buffer := new Octet[text.Length](_ => 0);
    var i := 0;
    TextNone(sb, sk);
    while i < text.Length
      invariant 0 <= i <= text.Length && i % 8 == 0
      invariant buffer[..i] == CryptText(sb, sk, text[..i])
    {
      DesCrypt(sb, sk, text, i, buffer, i);
      TextOneMore(sb, sk, text[..], i, text[i..i + 8], buffer[..]);
      i := i + 8;
    }
    assert text[..i] == text[..] && buffer[..i] == buffer[..];
    var padding: int;
    match mode {
      case Iso7816 => padding := RemoveIso(buffer);
      case Pkcs7 => padding := RemovePkcs(buffer);
    }
    if padding <= 0 || padding > 8 { return None; }
    return Some(buffer[..text.Length - padding]);
  }
}
