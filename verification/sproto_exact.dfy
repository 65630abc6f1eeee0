/** Which inputs sproto_decode accepts, and what each field accepts: both directions, for every input and type. */
module SprotoExact {
  import opened Common
  import opened SprotoWire

  // ---------- the layout of a message ----------

  /** The tags that the skip words among ws jump over. */
  function Skips(ws: seq<int>): int {
    if |ws| == 0 then 0 else (if ws[0] % 2 == 1 then ws[0] / 2 else 0) + Skips(ws[1..])
  }

  /** How many of the words ask for a data part. */
  function Zeros(ws: seq<int>): nat {
    if |ws| == 0 then 0 else (if ws[0] == 0 then 1 else 0) + Zeros(ws[1..])
  }

  /** The tag word i is about: one for each word in front of it, and the tags they skip. */
  function TagAt(ws: seq<int>, i: nat): int
    requires i <= |ws|
  {
    i + Skips(ws[..i])
  }

  function BodyAt(ws: seq<int>, parts: seq<seq<Byte>>, i: nat): seq<Byte>
    requires i < |ws|
  {
    var k := Zeros(ws[..i]);
    if ws[i] == 0 && k < |parts| then parts[k] else []
  }

  predicate PartsOk(parts: seq<seq<Byte>>) { forall i :: 0 <= i < |parts| ==> |parts[i]| < TWO32 }

  /** b is the count, the words, one sized part for each zero word, and then the rest. */
  predicate Laid(b: seq<Byte>, ws: seq<int>, parts: seq<seq<Byte>>, rest: seq<Byte>) {
    WordsOk(ws) && |ws| < 0x1_0000 && |parts| == Zeros(ws) && PartsOk(parts)
    && b == Le(|ws|, 2) + Header(ws) + ObjectBody(parts) + rest
  }

  /** Word i is a field word of a field that the type has. */
  predicate Known(st: Schema, ws: seq<int>, i: nat)
    requires i < |ws|
  {
    ws[i] % 2 == 0 && Find(st, TagAt(ws, i)).Some?
  }

  function ReadAt(st: Schema, ws: seq<int>, parts: seq<seq<Byte>>, i: nat): Option<Decoded>
    requires i < |ws| && Known(st, ws, i)
  {
    DecodeField(Find(st, TagAt(ws, i)).value, ws[i], BodyAt(ws, parts, i))
  }

  /** Every word that speaks of a known field, from word i on, suits that field. */
  predicate AllSuit(st: Schema, ws: seq<int>, parts: seq<seq<Byte>>, i: nat) {
    forall j :: i <= j < |ws| && Known(st, ws, j) ==> ReadAt(st, ws, parts, j).Some?
  }

  /** The known fields from word i on, in the order of the words. */
  function Handed(st: Schema, ws: seq<int>, parts: seq<seq<Byte>>, i: nat): seq<(int, Decoded)>
    requires AllSuit(st, ws, parts, i)
    decreases |ws| - i
  {
    if i >= |ws| then []
    else (if Known(st, ws, i) then [(TagAt(ws, i), ReadAt(st, ws, parts, i).value)] else []) + Handed(st, ws, parts, i + 1)
  }

  /** What remains of the data in front of word i. */
  function DataAt(ws: seq<int>, parts: seq<seq<Byte>>, rest: seq<Byte>, i: nat): seq<Byte>
    requires i <= |ws| && Zeros(ws[..i]) <= |parts|
  {
    ObjectBody(parts[Zeros(ws[..i])..]) + rest
  }

  lemma {:induction false} SumsSplit(a: seq<int>, b: seq<int>)
    ensures Skips(a + b) == Skips(a) + Skips(b) && Zeros(a + b) == Zeros(a) + Zeros(b)
  {
    if |a| == 0 {
      assert a + b == b;
    } else {
      SumsSplit(a[1..], b);
      assert (a + b)[1..] == a[1..] + b;
    }
  }

  lemma SumsNext(ws: seq<int>, i: nat)
    requires i < |ws|
    ensures TagAt(ws, i + 1) == TagAt(ws, i) + 1 + (if ws[i] % 2 == 1 then ws[i] / 2 else 0)
    ensures Zeros(ws[..i + 1]) == Zeros(ws[..i]) + (if ws[i] == 0 then 1 else 0)
  {
    assert ws[..i + 1] == ws[..i] + [ws[i]];
    SumsSplit(ws[..i], [ws[i]]);
  }

  lemma ZerosLeft(ws: seq<int>, i: nat)
    requires i <= |ws|
    ensures Zeros(ws) == Zeros(ws[..i]) + Zeros(ws[i..])
  {
    assert ws == ws[..i] + ws[i..];
    SumsSplit(ws[..i], ws[i..]);
  }

  /** What the decoder makes of a laid out message from word i on. */
  function Outcome(st: Schema, ws: seq<int>, parts: seq<seq<Byte>>, rest: seq<Byte>, i: nat): Option<Received> {
    if AllSuit(st, ws, parts, i) then Some(Received(Handed(st, ws, parts, i), rest)) else None
  }

  lemma OutcomeStep(st: Schema, ws: seq<int>, parts: seq<seq<Byte>>, rest: seq<Byte>, i: nat)
    requires i < |ws|
    ensures Outcome(st, ws, parts, rest, i) ==
      var next := Outcome(st, ws, parts, rest, i + 1);
      if !Known(st, ws, i) then next
      else if ReadAt(st, ws, parts, i).None? then None
      else Prepend(TagAt(ws, i), ReadAt(st, ws, parts, i).value, next)
  {
    hide Known, ReadAt, TagAt;
    var own := Known(st, ws, i) ==> ReadAt(st, ws, parts, i).Some?;
    if AllSuit(st, ws, parts, i + 1) && own {
      forall j | i <= j < |ws| && Known(st, ws, j) ensures ReadAt(st, ws, parts, j).Some? {}
      assert AllSuit(st, ws, parts, i);
      if !Known(st, ws, i) { assert [] + Handed(st, ws, parts, i + 1) == Handed(st, ws, parts, i + 1); }
    } else {
      assert !AllSuit(st, ws, parts, i);
    }
  }

  lemma {:induction false} LaidDecodes(st: Schema, ws: seq<int>, parts: seq<seq<Byte>>, rest: seq<Byte>, i: nat)
    requires WordsOk(ws) && PartsOk(parts) && |parts| == Zeros(ws) && i <= |ws|
    ensures Zeros(ws[..i]) <= |parts|
    ensures DecodeWords(st, ws[i..], TagAt(ws, i) - 1, DataAt(ws, parts, rest, i)) == Outcome(st, ws, parts, rest, i)
    decreases |ws| - i
  {
    ZerosLeft(ws, i);
    if i == |ws| {
      assert ws[..i] == ws && parts[Zeros(ws)..] == [];
      assert ObjectBody([]) + rest == rest;
    } else {
      LaidDecodes(st, ws, parts, rest, i + 1);
      OutcomeStep(st, ws, parts, rest, i);
      SumsNext(ws, i);
      WordStep(st, ws, parts, rest, i);
    }
  }

  lemma WordStep(st: Schema, ws: seq<int>, parts: seq<seq<Byte>>, rest: seq<Byte>, i: nat)
    requires WordsOk(ws) && PartsOk(parts) && i < |ws| && Zeros(ws[..i + 1]) <= |parts|
    requires TagAt(ws, i + 1) == TagAt(ws, i) + 1 + (if ws[i] % 2 == 1 then ws[i] / 2 else 0)
    requires Zeros(ws[..i + 1]) == Zeros(ws[..i]) + (if ws[i] == 0 then 1 else 0)
    ensures DecodeWords(st, ws[i..], TagAt(ws, i) - 1, DataAt(ws, parts, rest, i)) ==
      var next := DecodeWords(st, ws[i + 1..], TagAt(ws, i + 1) - 1, DataAt(ws, parts, rest, i + 1));
      if !Known(st, ws, i) then next
      else if ReadAt(st, ws, parts, i).None? then None
      else Prepend(TagAt(ws, i), ReadAt(st, ws, parts, i).value, next)
  {
    hide Zeros, Skips, TagAt, ObjectBody, UnLe, Find, DecodeField, Prepend;
    assert ws[i..][1..] == ws[i + 1..] && ws[i..][0] == ws[i];
    if ws[i] == 0 {
      var k := Zeros(ws[..i]);
      PartHead(parts[k..], rest);
      assert parts[k..][1..] == parts[k + 1..] && parts[k..][0] == parts[k];
    }
  }

  lemma PartHead(parts: seq<seq<Byte>>, rest: seq<Byte>)
    requires |parts| > 0 && |parts[0]| < TWO32
    ensures
      var d, n := ObjectBody(parts) + rest, |parts[0]|;
      |d| >= 4 + n && UnLe(d[..4]) == n && d[4..4 + n] == parts[0] && d[4 + n..] == ObjectBody(parts[1..]) + rest
  {
    hide Le, UnLe;
    SizedRound(parts[0], ObjectBody(parts[1..]) + rest);
    assert ObjectBody(parts) + rest == Sized(parts[0]) + (ObjectBody(parts[1..]) + rest);
  }

  // ---------- every accepted input is laid out ----------

  lemma {:induction false} UnLeRound(b: seq<Byte>)
    ensures UnLe(b) < Pow256(|b|) && Le(UnLe(b), |b|) == b
  {
    if |b| > 0 {
      UnLeRound(b[1..]);
      assert b == [b[0]] + b[1..];
    }
  }

  lemma {:induction false} HeaderOfWords(b: seq<Byte>, n: nat)
    requires |b| >= 2 * n
    ensures |WordsAt(b, n)| == n && WordsOk(WordsAt(b, n)) && Header(WordsAt(b, n)) == b[..2 * n]
  {
    if n > 0 {
      Powers();
      UnLeRound(b[..2]);
      HeaderOfWords(b[2..], n - 1);
      assert b[..2 * n] == b[..2] + b[2..][..2 * (n - 1)];
    }
  }

  /** The parts that the words ask for, cut off the data. */
  function Cut(ws: seq<int>, data: seq<Byte>): Option<(seq<seq<Byte>>, seq<Byte>)> {
    if |ws| == 0 then Some(([], data))
    else if ws[0] != 0 then Cut(ws[1..], data)
    else if |data| < 4 || |data| < 4 + UnLe(data[..4]) then None
    else
      var n := UnLe(data[..4]);
      match Cut(ws[1..], data[4 + n..])
      case None => None
      case Some(c) => Some(([data[4..4 + n]] + c.0, c.1))
  }

  lemma {:induction false} CutJoins(ws: seq<int>, data: seq<Byte>)
    requires Cut(ws, data).Some?
    ensures var (parts, rest) := Cut(ws, data).value;
      |parts| == Zeros(ws) && PartsOk(parts) && data == ObjectBody(parts) + rest
  {
    if |ws| == 0 {
      assert data == ObjectBody([]) + data;
    } else if ws[0] != 0 {
      CutJoins(ws[1..], data);
    } else {
      var n := UnLe(data[..4]);
      CutJoins(ws[1..], data[4 + n..]);
      CutHead(data, Cut(ws[1..], data[4 + n..]).value.0, Cut(ws[1..], data[4 + n..]).value.1);
    }
  }

  lemma CutHead(data: seq<Byte>, parts: seq<seq<Byte>>, rest: seq<Byte>)
    requires |data| >= 4 && |data| >= 4 + UnLe(data[..4])
    requires data[4 + UnLe(data[..4])..] == ObjectBody(parts) + rest && PartsOk(parts)
    ensures
      var all := [data[4..4 + UnLe(data[..4])]] + parts;
      PartsOk(all) && data == ObjectBody(all) + rest
  {
    Powers();
    UnLeRound(data[..4]);
    hide UnLe, Le;
    var n := UnLe(data[..4]);
    var body := data[4..4 + n];
    var all := [body] + parts;
    assert all[1..] == parts;
    assert data == data[..4] + body + data[4 + n..];
  }

  lemma {:induction false} DecodedIsCut(st: Schema, ws: seq<int>, last: int, data: seq<Byte>)
    requires DecodeWords(st, ws, last, data).Some? && WordsOk(ws)
    ensures Cut(ws, data).Some?
    decreases |ws|
  {
    if |ws| > 0 {
      hide Find, DecodeField, UnLe;
      var w, tag := ws[0], last + 1;
      if w % 2 == 1 {
        DecodedIsCut(st, ws[1..], tag + w / 2, data);
      } else if w / 2 - 1 >= 0 {
        DecodedIsCut(st, ws[1..], tag, data);
      } else {
        assert w == 0;
        DecodedIsCut(st, ws[1..], tag, data[4 + UnLe(data[..4])..]);
      }
    }
  }

  /** Decoding a laid out message: every known field from its word and part, or nothing at all. */
  lemma LaidOutcome(st: Schema, b: seq<Byte>, ws: seq<int>, parts: seq<seq<Byte>>, rest: seq<Byte>)
    requires Laid(b, ws, parts, rest)
    ensures Decode(st, b) == Outcome(st, ws, parts, rest, 0)
  {
    hide DecodeWords, Header, ObjectBody, WordsAt, Le, UnLe, Outcome;
    CountRound(ws, ObjectBody(parts), rest);
    LaidDecodes(st, ws, parts, rest, 0);
    assert ws[0..] == ws && ws[..0] == [] && parts[0..] == parts;
  }

  /** The words of an accepted input. */
  function WordsOf(b: seq<Byte>): seq<int>
    requires |b| >= 2 && |b| - 2 >= 2 * UnLe(b[..2])
  {
    WordsAt(b[2..], UnLe(b[..2]))
  }

  lemma AcceptedIsLaid(st: Schema, b: seq<Byte>) returns (ws: seq<int>, parts: seq<seq<Byte>>, rest: seq<Byte>)
    requires Decode(st, b).Some?
    ensures Laid(b, ws, parts, rest)
  {
    Powers();
    UnLeRound(b[..2]);
    hide DecodeWords, WordsAt, Header, ObjectBody, Le, UnLe, Cut;
    var n := UnLe(b[..2]);
    ws := WordsOf(b);
    HeaderOfWords(b[2..], n);
    var data := b[2 + 2 * n..];
    DecodedIsCut(st, ws, -1, data);
    CutJoins(ws, data);
    parts, rest := Cut(ws, data).value.0, Cut(ws, data).value.1;
    assert b == b[..2] + b[2..][..2 * n] + data;
    assert b == Le(|ws|, 2) + Header(ws) + (ObjectBody(parts) + rest);
  }

  /** b is a message laid out by ws and parts whose known fields all suit, and r is what they amount to. */
  predicate Reads(st: Schema, b: seq<Byte>, r: Received, ws: seq<int>, parts: seq<seq<Byte>>) {
    Laid(b, ws, parts, r.rest) && AllSuit(st, ws, parts, 0) && r.fields == Handed(st, ws, parts, 0)
  }

  /**
   sproto_decode succeeds with r exactly when the input is a count, that many words, a sized part for
   each zero word, and the rest; every field word whose tag the type has suits its field; and r holds
   these fields in order. A short header, a short part and a word or part that does not suit fail.
   */
  lemma DecodeExact(st: Schema, b: seq<Byte>, r: Received)
    ensures Decode(st, b) == Some(r) <==> exists ws, parts :: Reads(st, b, r, ws, parts)
  {
    hide Decode, Laid, AllSuit, Handed;
    if Decode(st, b) == Some(r) {
      var ws, parts, rest := AcceptedIsLaid(st, b);
      LaidOutcome(st, b, ws, parts, rest);
      assert Reads(st, b, r, ws, parts);
    }
    forall ws, parts | Reads(st, b, r, ws, parts) ensures Decode(st, b) == Some(r) {
      LaidOutcome(st, b, ws, parts, r.rest);
    }
  }

  // ---------- what one field accepts ----------

  /** The width bytes at position at hold n: in 32 bits, sign-extended, or in 64. */
  ghost predicate HoldsNumber(b: seq<Byte>, at: nat, width: nat, n: int) {
    at + width <= |b|
    && exists e: Number :: NumberOk(e) && n == Meaning(e) && width == (if e.Small? then 4 else 8) && b[at..at + width] == Le(e.u, width)
  }

  /** Where element i starts, for the two widths there are. */
  function Offset(width: int, i: nat): nat { if width == 4 then 4 * i else 8 * i }

  ghost predicate HoldsNumbers(body: seq<Byte>, ns: seq<int>) {
    if |body| <= 1 then ns == []
    else
      var width: int := body[0];
      (width == 4 || width == 8) && |body| == 1 + Offset(width, |ns|)
      && forall i :: 0 <= i < |ns| ==> HoldsNumber(body, 1 + Offset(width, i), width, ns[i])
  }

  predicate HoldsObjects(body: seq<Byte>, os: seq<seq<Byte>>) { PartsOk(os) && body == ObjectBody(os) }

  /** A word, and a body when the word is zero, carry the content d for field f. */
  ghost predicate Carries(f: Field, word: int, body: seq<Byte>, d: Decoded) {
    if word != 0 then !f.many && (f.base.Integer? || f.base.Boolean?) && d == Number64(word / 2 - 1)
    else match f.base
      case Boolean => f.many && d.List? && |d.ns| == |body| && forall i :: 0 <= i < |body| ==> d.ns[i] == body[i] as int
      case String => if f.many then d.Payloads? && HoldsObjects(body, d.items) else d == Payload(body)
      case Struct => if f.many then d.Payloads? && HoldsObjects(body, d.items) else d == Payload(body)
      case _ => if f.many then d.List? && HoldsNumbers(body, d.ns) else d.Number64? && HoldsNumber(body, 0, |body|, d.n)
  }

  lemma {:induction false} ItemsRound(os: seq<seq<Byte>>)
    requires PartsOk(os)
    ensures ItemsOf(ObjectBody(os)) == Some(os)
  {
    if |os| > 0 {
      ItemsRound(os[1..]);
      PartHead(os, []);
      assert ObjectBody(os) + [] == ObjectBody(os) && ObjectBody(os[1..]) + [] == ObjectBody(os[1..]);
      assert os == [os[0]] + os[1..];
    }
  }

  lemma ItemHead(b: seq<Byte>, os: seq<seq<Byte>>)
    requires |b| >= 4 && |b| >= 4 + UnLe(b[..4]) && HoldsObjects(b[4 + UnLe(b[..4])..], os)
    ensures HoldsObjects(b, [b[4..4 + UnLe(b[..4])]] + os)
  {
    hide UnLe, ObjectBody;
    var all := [b[4..4 + UnLe(b[..4])]] + os;
    assert ObjectBody(os) == ObjectBody(os) + [] && ObjectBody(all) == ObjectBody(all) + [];
    CutHead(b, os, []);
  }

  lemma ItemsFirst(b: seq<Byte>)
    requires |b| > 0 && ItemsOf(b).Some?
    ensures |b| >= 4 && |b| >= 4 + UnLe(b[..4])
    ensures
      var n := UnLe(b[..4]);
      ItemsOf(b[4 + n..]).Some? && ItemsOf(b).value == [b[4..4 + n]] + ItemsOf(b[4 + n..]).value
  {
    hide UnLe;
  }

  lemma {:induction false} ItemsJoin(b: seq<Byte>)
    requires ItemsOf(b).Some?
    ensures HoldsObjects(b, ItemsOf(b).value)
    decreases |b|
  {
    if |b| > 0 {
      hide UnLe, HoldsObjects, ItemsOf;
      ItemsFirst(b);
      ItemsJoin(b[4 + UnLe(b[..4])..]);
      ItemHead(b, ItemsOf(b[4 + UnLe(b[..4])..]).value);
    }
  }

  lemma ItemsExact(b: seq<Byte>, os: seq<seq<Byte>>)
    ensures ItemsOf(b) == Some(os) <==> HoldsObjects(b, os)
  {
    if ItemsOf(b).Some? { ItemsJoin(b); }
    if HoldsObjects(b, os) { ItemsRound(os); }
  }

  /** The number in four or eight bytes is the one their little-endian reading gives, and no other. */
  lemma NumberExact(b: seq<Byte>, at: nat, width: nat, n: int)
    requires at + width <= |b|
    ensures HoldsNumber(b, at, width, n)
      <==> (width == 4 && n == Expand64(UnLe(b[at..at + 4]))) || (width == 8 && n == UnLe(b[at..at + 8]))
  {
    Powers();
    var w := b[at..at + width];
    UnLeRound(w);
    hide Le, UnLe;
    if width == 4 {
      assert NumberOk(Small(UnLe(w)));
    } else if width == 8 {
      assert NumberOk(Big(UnLe(w)));
    }
    forall e: Number | NumberOk(e) && width == (if e.Small? then 4 else 8) && w == Le(e.u, width)
      ensures UnLe(w) == e.u
    {
      LeRound(e.u, width);
    }
  }

  function NumberAt(b: seq<Byte>, at: nat, width: nat): int
    requires at + width <= |b|
  {
    var n := UnLe(b[at..at + width]);
    if width == 4 then Expand64(n) else n
  }

  lemma FirstNumber(b: seq<Byte>, width: nat)
    requires |b| >= width && (width == 4 || width == 8)
    ensures NumbersOf(b, width) == [NumberAt(b, 0, width)] + NumbersOf(b[width..], width)
  {
    hide UnLe, Expand64;
    assert b[..width] == b[0..width];
  }

  lemma NumberSlides(b: seq<Byte>, at: nat, width: nat)
    requires width <= at && at + width <= |b|
    ensures NumberAt(b[width..], at - width, width) == NumberAt(b, at, width)
  {
    assert b[width..][at - width..at] == b[at..at + width];
  }

  lemma {:induction false} NumbersAt(b: seq<Byte>, width: nat)
    requires (width == 4 && |b| % 4 == 0) || (width == 8 && |b| % 8 == 0)
    ensures |b| == Offset(width, |NumbersOf(b, width)|)
    ensures forall i :: 0 <= i < |NumbersOf(b, width)| ==> NumbersOf(b, width)[i] == NumberAt(b, Offset(width, i), width)
    decreases |b|
  {
    if |b| > 0 {
      hide NumberAt, NumbersOf;
      assert |b| >= width;
      FirstNumber(b, width);
      NumbersAt(b[width..], width);
      var ns, more := NumbersOf(b, width), NumbersOf(b[width..], width);
      forall i | 0 < i < |ns| ensures ns[i] == NumberAt(b, Offset(width, i), width) {
        var at := Offset(width, i);
        assert ns[i] == more[i - 1] && Offset(width, i - 1) == at - width;
        NumberSlides(b, at, width);
      }
    }
  }

  lemma NumbersExact(base: Base, body: seq<Byte>, ns: seq<int>)
    requires base.Integer? || base.Double?
    ensures DecodeArray(base, body) == Some(List(ns)) <==> HoldsNumbers(body, ns)
  {
    hide NumbersOf, HoldsNumber;
    if |body| > 1 {
      var width, rest := body[0] as int, body[1..];
      if (width == 4 && |rest| % 4 == 0) || (width == 8 && |rest| % 8 == 0) {
        NumbersAt(rest, width);
        NumbersSame(body, width, NumbersOf(rest, width), ns);
      }
    }
  }

  /** n is the one number held there. */
  ghost predicate Only(b: seq<Byte>, at: nat, width: nat, n: int) { forall m :: HoldsNumber(b, at, width, m) <==> m == n }

  lemma OnlyOne(b: seq<Byte>, at: nat, width: nat)
    requires at + width <= |b| && (width == 4 || width == 8)
    ensures Only(b, at, width, NumberAt(b, at, width))
  {
    hide HoldsNumber, UnLe;
    forall m: int {:trigger HoldsNumber(b, at, width, m)} ensures HoldsNumber(b, at, width, m) <==> m == NumberAt(b, at, width) {
      NumberExact(b, at, width, m);
    }
  }

  lemma NumbersSame(body: seq<Byte>, width: nat, got: seq<int>, ns: seq<int>)
    requires |body| > 1 && body[0] as int == width && (width == 4 || width == 8) && |body| == 1 + Offset(width, |got|)
    requires forall i :: 0 <= i < |got| ==> got[i] == NumberAt(body[1..], Offset(width, i), width)
    ensures HoldsNumbers(body, ns) <==> got == ns
  {
    hide UnLe, HoldsNumber;
    forall i | 0 <= i < |got| ensures Only(body, 1 + Offset(width, i), width, got[i]) {
      var at := Offset(width, i);
      OnlyOne(body, 1 + at, width);
      assert body[1..][at..at + width] == body[1 + at..1 + at + width];
    }
  }

  lemma {:induction false} BytesAt(b: seq<Byte>)
    ensures |BytesAsNumbers(b)| == |b| && forall i :: 0 <= i < |b| ==> BytesAsNumbers(b)[i] == b[i] as int
  {
    if |b| > 0 { BytesAt(b[1..]); }
  }

  /**
   A field decodes to d exactly when its word and body carry d: a small number in the word of an integer
   or a boolean and of nothing else; four or eight bytes for a number; never a body for a single boolean;
   for arrays of numbers one width for all elements, for arrays of objects sized items to the last byte.
   */
  lemma FieldExact(f: Field, word: int, body: seq<Byte>, d: Decoded)
    requires word >= 0 && word % 2 == 0
    ensures DecodeField(f, word, body) == Some(d) <==> Carries(f, word, body, d)
  {
    if word == 0 {
      if f.many {
        ArrayExact(f, body, d);
      } else if f.base.Integer? || f.base.Double? {
        hide UnLe;
        if d.Number64? { NumberExact(body, 0, |body|, d.n); }
        if |body| == 4 || |body| == 8 { assert body[0..|body|] == body; }
      }
    }
  }

  lemma ArrayExact(f: Field, body: seq<Byte>, d: Decoded)
    requires f.many
    ensures DecodeArray(f.base, body) == Some(d) <==> Carries(f, 0, body, d)
  {
    match f.base
    case Boolean => BytesAt(body); if d.List? { assert d.ns == BytesAsNumbers(body) <==> Carries(f, 0, body, d); }
    case String => if d.Payloads? { ItemsExact(body, d.items); }
    case Struct => if d.Payloads? { ItemsExact(body, d.items); }
    case _ => if d.List? { NumbersExact(f.base, body, d.ns); }
  }
}
