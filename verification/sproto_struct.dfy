/** The struct encoding of sproto (lualib-src/sproto/sproto.c): tagged header words, then sized data parts. */
module SprotoWire {
  import opened Common

  function Pow256(k: nat): (p: int)
    ensures p > 0
  {
    if k == 0 then 1 else 256 * Pow256(k - 1)
  }

  /** The k low bytes of n, low byte first. */
  function Le(n: int, k: nat): (b: seq<Byte>)
    requires n >= 0
    ensures |b| == k
  {
    if k == 0 then [] else [n % 256] + Le(n / 256, k - 1)
  }

  function UnLe(b: seq<Byte>): (n: int)
    ensures n >= 0
  {
    if |b| == 0 then 0 else var low: int := b[0]; low + 256 * UnLe(b[1..])
  }

  lemma {:induction false} LeRound(n: int, k: nat)
    requires 0 <= n < Pow256(k)
    ensures UnLe(Le(n, k)) == n
  {
    if k > 0 { LeRound(n / 256, k - 1); }
  }

  const TWO31: int := 0x8000_0000
  const TWO32: int := 0x1_0000_0000
  const TWO64: int := 0x1_0000_0000_0000_0000

  lemma Powers()
    ensures Pow256(2) == 0x1_0000 && Pow256(4) == TWO32 && Pow256(8) == TWO64
  {
    assert Pow256(3) == 0x100_0000;
    assert Pow256(6) == TWO32 * 0x1_0000;
  }

  // ---------- types and values ----------

  datatype Base = Integer | Boolean | String | Double | Struct

  datatype Field = Field(tag: int, base: Base, many: bool)

  type Schema = seq<Field>

  /** What import_type demands: ascending tags; a tag comes from a header word, so it is below 0x7fff. */
  predicate Imported(st: Schema) {
    (forall i :: 0 <= i < |st| ==> 0 <= st[i].tag < 0x7fff)
    && forall i, j :: 0 <= i < j < |st| ==> st[i].tag < st[j].tag
  }

  /** maxn as import_type counts it: the fields, and the gaps before them. */
  function MaxN(st: Schema, last: int): nat {
    if |st| == 0 then 0 else (if st[0].tag > last + 1 then 2 else 1) + MaxN(st[1..], st[0].tag)
  }

  /** A number as the callback gives it: in 32 bits, or in 64. */
  datatype Number = Small(u: int) | Big(u: int)

  predicate NumberOk(e: Number) { if e.Small? then 0 <= e.u < TWO32 else 0 <= e.u < TWO64 }

  /** expand64: sign extension of 32 bits to 64. */
  function Expand64(u: int): int { if u >= TWO31 then u + (TWO64 - TWO32) else u }

  function Meaning(e: Number): int { if e.Small? then Expand64(e.u) else e.u }

  /** What the callback supplies for a field that is present; strings and structs as their bytes. */
  datatype Value =
    | Scalar(e: Number)
    | Object(payload: seq<Byte>)
    | Numbers(es: seq<Number>)
    | Booleans(bs: seq<bool>)
    | Objects(os: seq<seq<Byte>>)

  /** What the callback of sproto_decode receives. */
  datatype Decoded =
    | Number64(n: int)
    | Payload(bytes: seq<Byte>)
    | List(ns: seq<int>)
    | Payloads(items: seq<seq<Byte>>)

  predicate AllSmall(es: seq<Number>) { forall i :: 0 <= i < |es| ==> es[i].Small? }

  function Sized(b: seq<Byte>): seq<Byte> { Le(|b|, 4) + b }

  function Wide(es: seq<Number>): seq<Byte>
    requires NumbersOk(es)
  {
    if |es| == 0 then [] else assert NumberOk(es[0]); Le(Meaning(es[0]), 8) + Wide(es[1..])
  }

  function Narrow(es: seq<Number>): seq<Byte>
    requires NumbersOk(es)
  {
    if |es| == 0 then [] else assert NumberOk(es[0]); Le(es[0].u, 4) + Narrow(es[1..])
  }

  predicate NumbersOk(es: seq<Number>) { forall i :: 0 <= i < |es| ==> NumberOk(es[i]) }

  /** The body of an integer array: nothing when empty, else the width and the elements, all of 32 bits or all of 64. */
  function NumberBody(es: seq<Number>): seq<Byte>
    requires NumbersOk(es)
  {
    if |es| == 0 then [] else if AllSmall(es) then [4] + Narrow(es) else [8] + Wide(es)
  }

  function BooleanBody(bs: seq<bool>): seq<Byte> {
    if |bs| == 0 then [] else [if bs[0] then 1 else 0] + BooleanBody(bs[1..])
  }

  function ObjectBody(os: seq<seq<Byte>>): seq<Byte> {
    if |os| == 0 then [] else Sized(os[0]) + ObjectBody(os[1..])
  }

  /** What the callback may supply for a field; sizes are positive C ints. */
  predicate Suits(f: Field, v: Value) {
    match v
    case Scalar(e) =>
      !f.many && NumberOk(e)
      && (f.base.Integer? || (f.base.Double? && e.Big?) || (f.base.Boolean? && e.Small? && e.u <= 1))
    case Object(p) => !f.many && (f.base.String? || f.base.Struct?) && |p| < TWO31
    case Numbers(es) => f.many && (f.base.Integer? || f.base.Double?) && NumbersOk(es) && |NumberBody(es)| < TWO31
    case Booleans(bs) => f.many && f.base.Boolean? && |BooleanBody(bs)| < TWO31
    case Objects(os) => f.many && (f.base.String? || f.base.Struct?) && |ObjectBody(os)| < TWO31
  }

  /** A small number goes into the header word itself. */
  predicate Inline(v: Value) { v.Scalar? && v.e.Small? && v.e.u < 0x7fff }

  function WordOf(v: Value): int { if Inline(v) then (v.e.u + 1) * 2 else 0 }

  function DataOf(f: Field, v: Value): seq<Byte>
    requires Suits(f, v)
  {
    if Inline(v) then []
    else match v
      case Scalar(e) => Sized(if e.Small? then Le(e.u, 4) else Le(e.u, 8))
      case Object(p) => Sized(p)
      case Numbers(es) => Sized(NumberBody(es))
      case Booleans(bs) => Sized(BooleanBody(bs))
      case Objects(os) => Sized(ObjectBody(os))
  }

  function Means(v: Value): Decoded {
    match v
    case Scalar(e) => Number64(Meaning(e))
    case Object(p) => Payload(p)
    case Numbers(es) => List(seq(|es|, i requires 0 <= i < |es| => Meaning(es[i])))
    case Booleans(bs) => List(seq(|bs|, i requires 0 <= i < |bs| => if bs[i] then 1 else 0))
    case Objects(os) => Payloads(os)
  }

  // ---------- encoding ----------

  type Present = seq<Option<Value>>

  predicate Supplied(st: Schema, vs: Present) {
    |vs| == |st| && forall i :: 0 <= i < |st| && vs[i].Some? ==> Suits(st[i], vs[i].value)
  }

  /** The header words of the fields that are present, with a skip word before each gap in the tags. */
  function Words(st: Schema, vs: Present, last: int): seq<int>
    requires |vs| == |st|
  {
    if |st| == 0 then []
    else if vs[0].None? then Words(st[1..], vs[1..], last)
    else
      var gap := st[0].tag - last - 1;
      (if gap > 0 then [(gap - 1) * 2 + 1] else []) + [WordOf(vs[0].value)] + Words(st[1..], vs[1..], st[0].tag)
  }

  function DataPart(st: Schema, vs: Present): seq<Byte>
    requires Supplied(st, vs)
  {
    if |st| == 0 then [] else (if vs[0].None? then [] else DataOf(st[0], vs[0].value)) + DataPart(st[1..], vs[1..])
  }

  predicate WordsOk(ws: seq<int>) { forall i :: 0 <= i < |ws| ==> 0 <= ws[i] < 0x1_0000 }

  function Header(ws: seq<int>): seq<Byte>
    requires WordsOk(ws)
  {
    if |ws| == 0 then [] else Le(ws[0], 2) + Header(ws[1..])
  }

  /** Tags ascend above the last one used. */
  predicate Above(st: Schema, last: int) {
    -1 <= last && (forall i :: 0 <= i < |st| ==> last < st[i].tag < 0x7fff)
    && forall i, j :: 0 <= i < j < |st| ==> st[i].tag < st[j].tag
  }

  lemma {:induction false} WordsFit(st: Schema, vs: Present, last: int)
    requires Supplied(st, vs) && Above(st, last)
    ensures WordsOk(Words(st, vs, last))
  {
    if |st| > 0 {
      assert Above(st[1..], st[0].tag) && Above(st[1..], last);
      WordsFit(st[1..], vs[1..], if vs[0].None? then last else st[0].tag);
    }
  }

  /** Leaving a field out lengthens a later gap by at most the word the field would have used. */
  lemma {:induction false} MaxNLater(st: Schema, last: int, later: int)
    requires Above(st, later) && -1 <= last < later
    ensures MaxN(st, last) <= 1 + MaxN(st, later)
  {
  }

  /** However many fields are absent, the header words never reach the data area, which starts behind maxn words. */
  lemma {:induction false} HeaderFits(st: Schema, vs: Present, last: int)
    requires |vs| == |st| && Above(st, last)
    ensures |Words(st, vs, last)| <= MaxN(st, last)
  {
    if |st| > 0 {
      assert Above(st[1..], st[0].tag) && Above(st[1..], last);
      if vs[0].None? {
        HeaderFits(st[1..], vs[1..], last);
        MaxNLater(st[1..], last, st[0].tag);
      } else {
        HeaderFits(st[1..], vs[1..], st[0].tag);
      }
    }
  }

  /** maxn itself fits a header word. */
  lemma {:induction false} MaxNSmall(st: Schema, last: int)
    requires Above(st, last) && last < 0x7fff
    ensures MaxN(st, last) <= 0x7fff - 1 - last
  {
    if |st| > 0 {
      assert Above(st[1..], st[0].tag);
      MaxNSmall(st[1..], st[0].tag);
    }
  }

  lemma ImportedAbove(st: Schema)
    requires Imported(st)
    ensures Above(st, -1)
  {
  }

  function Encode(st: Schema, vs: Present): seq<Byte>
    requires Imported(st) && Supplied(st, vs)
  {
    ImportedAbove(st);
    WordsFit(st, vs, -1);
    var ws := Words(st, vs, -1);
    Le(|ws|, 2) + Header(ws) + DataPart(st, vs)
  }

  // ---------- decoding ----------

  /** findtag, by its meaning; FindTag below is its search. */
  function Find(st: Schema, tag: int): Option<Field> {
    if |st| == 0 then None else if st[0].tag == tag then Some(st[0]) else Find(st[1..], tag)
  }

  function NumbersOf(b: seq<Byte>, width: nat): seq<int>
    requires width > 0
    decreases |b|
  {
    if |b| < width then [] else [if width == 4 then Expand64(UnLe(b[..4])) else UnLe(b[..width])] + NumbersOf(b[width..], width)
  }

  function BytesAsNumbers(b: seq<Byte>): seq<int> { if |b| == 0 then [] else [b[0] as int] + BytesAsNumbers(b[1..]) }

  function ItemsOf(b: seq<Byte>): Option<seq<seq<Byte>>>
    decreases |b|
  {
    if |b| == 0 then Some([])
    else if |b| < 4 || |b| < 4 + UnLe(b[..4]) then None
    else
      var n := UnLe(b[..4]);
      match ItemsOf(b[4 + n..])
      case None => None
      case Some(rest) => Some([b[4..4 + n]] + rest)
  }

  /** decode_array, on the body of the data part. */
  function DecodeArray(base: Base, body: seq<Byte>): Option<Decoded> {
    if |body| == 0 then Some(if base.String? || base.Struct? then Payloads([]) else List([]))
    else match base
      case Boolean => Some(List(BytesAsNumbers(body)))
      case String => if ItemsOf(body).None? then None else Some(Payloads(ItemsOf(body).value))
      case Struct => if ItemsOf(body).None? then None else Some(Payloads(ItemsOf(body).value))
      case _ =>
        var rest := body[1..];
        if |rest| == 0 then Some(List([]))
        else if body[0] == 4 && |rest| % 4 == 0 then Some(List(NumbersOf(rest, 4)))
        else if body[0] == 8 && |rest| % 8 == 0 then Some(List(NumbersOf(rest, 8)))
        else None
  }

  /** One field from its header word, below zero when there is a data part, and that part's body. */
  function DecodeField(f: Field, word: int, body: seq<Byte>): Option<Decoded> {
    var value := word / 2 - 1;
    if value >= 0 then
      (if f.many || (!f.base.Integer? && !f.base.Boolean?) then None else Some(Number64(value)))
    else if f.many then DecodeArray(f.base, body)
    else match f.base
      case String => Some(Payload(body))
      case Struct => Some(Payload(body))
      case Boolean => None
      case _ =>
        if |body| == 4 then Some(Number64(Expand64(UnLe(body))))
        else if |body| == 8 then Some(Number64(UnLe(body)))
        else None
  }

  /** The fields the callback receives, with their tags, and what is left of the input. */
  datatype Received = Received(fields: seq<(int, Decoded)>, rest: seq<Byte>)

  function Prepend(tag: int, d: Decoded, r: Option<Received>): Option<Received> {
    if r.None? then None else Some(Received([(tag, d)] + r.value.fields, r.value.rest))
  }

  function DecodeWords(st: Schema, ws: seq<int>, last: int, data: seq<Byte>): Option<Received>
    decreases |ws|
  {
    if |ws| == 0 then Some(Received([], data))
    else
      var w, tag := ws[0], last + 1;
      if w % 2 == 1 then DecodeWords(st, ws[1..], tag + w / 2, data)
      else if w / 2 - 1 >= 0 then Take(st, tag, w, [], DecodeWords(st, ws[1..], tag, data))
      else if |data| < 4 || |data| < 4 + UnLe(data[..4]) then None
      else
        var n := UnLe(data[..4]);
        Take(st, tag, w, data[4..4 + n], DecodeWords(st, ws[1..], tag, data[4 + n..]))
  }

  /** A field the type does not know is skipped; one that does not decode fails the whole. */
  function Take(st: Schema, tag: int, w: int, body: seq<Byte>, r: Option<Received>): Option<Received> {
    match Find(st, tag)
    case None => r
    case Some(f) =>
      match DecodeField(f, w, body)
      case None => None
      case Some(d) => Prepend(tag, d, r)
  }

  function WordsAt(b: seq<Byte>, n: nat): seq<int>
    requires |b| >= 2 * n
  {
    if n == 0 then [] else [UnLe(b[..2])] + WordsAt(b[2..], n - 1)
  }

  function Decode(st: Schema, b: seq<Byte>): Option<Received> {
    if |b| < 2 || |b| - 2 < 2 * UnLe(b[..2]) then None
    else
      var n := UnLe(b[..2]);
      DecodeWords(st, WordsAt(b[2..], n), -1, b[2 + 2 * n..])
  }

  /** The present fields, as their callback must see them. */
  function Expected(st: Schema, vs: Present): seq<(int, Decoded)>
    requires |vs| == |st|
  {
    if |st| == 0 then []
    else (if vs[0].None? then [] else [(st[0].tag, Means(vs[0].value))]) + Expected(st[1..], vs[1..])
  }

  // ---------- the round trip ----------

  lemma {:induction false} WordsAtHeader(ws: seq<int>, tail: seq<Byte>)
    requires WordsOk(ws)
    ensures |Header(ws)| == 2 * |ws| && WordsAt(Header(ws) + tail, |ws|) == ws
  {
    if |ws| > 0 {
      Powers();
      LeRound(ws[0], 2);
      WordsAtHeader(ws[1..], tail);
      var b := Header(ws) + tail;
      assert b[..2] == Le(ws[0], 2) && b[2..] == Header(ws[1..]) + tail;
    }
  }

  lemma {:induction false} NarrowRound(es: seq<Number>)
    requires NumbersOk(es) && AllSmall(es)
    ensures |Narrow(es)| == 4 * |es| && NumbersOf(Narrow(es), 4) == seq(|es|, i requires 0 <= i < |es| => Meaning(es[i]))
  {
    if |es| > 0 {
      Powers();
      assert NumberOk(es[0]);
      LeRound(es[0].u, 4);
      NarrowRound(es[1..]);
      var b := Narrow(es);
      assert b[..4] == Le(es[0].u, 4) && b[4..] == Narrow(es[1..]);
    }
  }

  lemma {:induction false} WideRound(es: seq<Number>)
    requires NumbersOk(es)
    ensures |Wide(es)| == 8 * |es| && NumbersOf(Wide(es), 8) == seq(|es|, i requires 0 <= i < |es| => Meaning(es[i]))
  {
    if |es| > 0 {
      Powers();
      assert NumberOk(es[0]);
      LeRound(Meaning(es[0]), 8);
      WideRound(es[1..]);
      var b := Wide(es);
      assert b[..8] == Le(Meaning(es[0]), 8) && b[8..] == Wide(es[1..]);
    }
  }

  lemma {:induction false} BooleansRound(bs: seq<bool>)
    ensures |BooleanBody(bs)| == |bs|
    ensures BytesAsNumbers(BooleanBody(bs)) == seq(|bs|, i requires 0 <= i < |bs| => if bs[i] then 1 else 0)
  {
    if |bs| > 0 {
      BooleansRound(bs[1..]);
      assert BooleanBody(bs)[1..] == BooleanBody(bs[1..]);
    }
  }

  lemma {:induction false} ObjectsRound(os: seq<seq<Byte>>)
    requires |ObjectBody(os)| < TWO31
    ensures ItemsOf(ObjectBody(os)) == Some(os) && (os == [] <==> ObjectBody(os) == [])
  {
    if |os| > 0 {
      Powers();
      LeRound(|os[0]|, 4);
      var b := ObjectBody(os);
      var n := |os[0]|;
      assert b == Le(n, 4) + (os[0] + ObjectBody(os[1..]));
      assert b[..4] == Le(n, 4) && b[4..4 + n] == os[0] && b[4 + n..] == ObjectBody(os[1..]);
      ObjectsRound(os[1..]);
      assert os == [os[0]] + os[1..];
    }
  }

  /** A sized part in front of other data. */
  lemma SizedRound(body: seq<Byte>, tail: seq<Byte>)
    requires |body| < TWO32
    ensures var d := Sized(body) + tail;
      |d| >= 4 && UnLe(d[..4]) == |body| && |d| >= 4 + |body| && d[4..4 + |body|] == body && d[4 + |body|..] == tail
  {
    Powers();
    LeRound(|body|, 4);
    var d := Sized(body) + tail;
    assert d[..4] == Le(|body|, 4);
  }

  function BodyOf(f: Field, v: Value): seq<Byte>
    requires Suits(f, v) && !Inline(v)
  {
    match v
    case Scalar(e) => if e.Small? then Le(e.u, 4) else Le(e.u, 8)
    case Object(p) => p
    case Numbers(es) => NumberBody(es)
    case Booleans(bs) => BooleanBody(bs)
    case Objects(os) => ObjectBody(os)
  }

  lemma NumbersRound(f: Field, es: seq<Number>)
    requires Suits(f, Numbers(es))
    ensures DecodeArray(f.base, NumberBody(es)) == Some(Means(Numbers(es)))
  {
    if |es| > 0 {
      var body := NumberBody(es);
      if AllSmall(es) {
        NarrowRound(es);
        assert body[1..] == Narrow(es);
      } else {
        WideRound(es);
        assert body[1..] == Wide(es);
      }
    }
  }

  /** A field decodes to what its value means: small numbers from the word, 32-bit numbers sign-extended. */
  lemma FieldRound(f: Field, v: Value)
    requires Suits(f, v)
    ensures DecodeField(f, WordOf(v), if Inline(v) then [] else BodyOf(f, v)) == Some(Means(v))
  {
    Powers();
    match v
    case Scalar(e) => if e.Small? { LeRound(e.u, 4); } else { LeRound(e.u, 8); }
    case Object(p) =>
    case Numbers(es) => NumbersRound(f, es);
    case Booleans(bs) => BooleansRound(bs);
    case Objects(os) => ObjectsRound(os);
  }

  lemma {:induction false} FindAt(st: Schema, i: nat)
    requires i < |st| && forall a, b :: 0 <= a < b < |st| ==> st[a].tag < st[b].tag
    ensures Find(st, st[i].tag) == Some(st[i])
  {
    if i > 0 { FindAt(st[1..], i - 1); }
  }

  /** What a reader whose type is st2 makes of the present fields: of each whose tag it knows, what its own field decodes. */
  function ReadAs(st2: Schema, st: Schema, vs: Present): Option<seq<(int, Decoded)>>
    requires Supplied(st, vs)
  {
    if |st| == 0 then Some([])
    else if vs[0].None? then ReadAs(st2, st[1..], vs[1..])
    else
      var tag, v := st[0].tag, vs[0].value;
      match Find(st2, tag)
      case None => ReadAs(st2, st[1..], vs[1..])
      case Some(f2) =>
        match DecodeField(f2, WordOf(v), PartOf(st[0], v))
        case None => None
        case Some(d) => Behind(tag, d, ReadAs(st2, st[1..], vs[1..]))
  }

  function Behind(tag: int, d: Decoded, r: Option<seq<(int, Decoded)>>): Option<seq<(int, Decoded)>> {
    if r.None? then None else Some([(tag, d)] + r.value)
  }

  /** The body of a field's data part, if it has one. */
  function PartOf(f: Field, v: Value): seq<Byte>
    requires Suits(f, v)
  {
    if Inline(v) then [] else BodyOf(f, v)
  }

  function WithRest(r: Option<seq<(int, Decoded)>>, rest: seq<Byte>): Option<Received> {
    if r.None? then None else Some(Received(r.value, rest))
  }

  /** The words and data of the fields from i on decode to what the reader makes of those fields. */
  lemma {:induction false} FieldsRound(st2: Schema, st: Schema, vs: Present, i: nat, last: int, tail: seq<Byte>)
    requires Imported(st) && Supplied(st, vs) && i <= |st| && -1 <= last && (i < |st| ==> last < st[i].tag)
    ensures Supplied(st[i..], vs[i..])
    ensures DecodeWords(st2, Words(st[i..], vs[i..], last), last, DataPart(st[i..], vs[i..]) + tail)
      == WithRest(ReadAs(st2, st[i..], vs[i..]), tail)
    decreases |st| - i
  {
    assert Supplied(st[i..], vs[i..]);
    if i == |st| {
      assert DataPart(st[i..], vs[i..]) + tail == tail;
    } else {
      assert st[i..][1..] == st[i + 1..] && vs[i..][1..] == vs[i + 1..];
      if vs[i].None? {
        FieldsRound(st2, st, vs, i + 1, last, tail);
        AbsentHead(st2, st[i..], vs[i..], last);
      } else {
        FieldsRound(st2, st, vs, i + 1, st[i].tag, tail);
        OneField(st2, st, vs, i, last, tail);
      }
    }
  }

  lemma AbsentHead(st2: Schema, st: Schema, vs: Present, last: int)
    requires |st| > 0 && Supplied(st, vs) && vs[0].None?
    ensures Supplied(st[1..], vs[1..]) && Words(st, vs, last) == Words(st[1..], vs[1..], last)
    ensures DataPart(st, vs) == DataPart(st[1..], vs[1..]) && ReadAs(st2, st, vs) == ReadAs(st2, st[1..], vs[1..])
  {
  }

  lemma PresentHead(st: Schema, vs: Present, last: int)
    requires |st| > 0 && Supplied(st, vs) && vs[0].Some?
    ensures
      var f, v, gap := st[0], vs[0].value, st[0].tag - last - 1;
      Supplied(st[1..], vs[1..])
      && Words(st, vs, last) == (if gap > 0 then [(gap - 1) * 2 + 1] else []) + ([WordOf(v)] + Words(st[1..], vs[1..], f.tag))
      && DataPart(st, vs) == DataOf(f, v) + DataPart(st[1..], vs[1..])
  {
  }

  lemma ReadHead(st2: Schema, st: Schema, vs: Present)
    requires |st| > 0 && Supplied(st, vs) && vs[0].Some? && Supplied(st[1..], vs[1..])
    ensures
      var f, v, r := st[0], vs[0].value, ReadAs(st2, st[1..], vs[1..]);
      ReadAs(st2, st, vs) ==
        match Find(st2, f.tag)
        case None => r
        case Some(f2) =>
          (match DecodeField(f2, WordOf(v), PartOf(f, v))
           case None => None
           case Some(d) => Behind(f.tag, d, r))
  {
  }

  /** One field at the head of words and data, when what follows decodes. */
  lemma OneField(st2: Schema, st: Schema, vs: Present, i: nat, last: int, tail: seq<Byte>)
    requires i < |st| && Imported(st) && Supplied(st, vs) && vs[i].Some? && -1 <= last < st[i].tag
    requires Supplied(st[i..], vs[i..]) && Supplied(st[i + 1..], vs[i + 1..])
    requires DecodeWords(st2, Words(st[i + 1..], vs[i + 1..], st[i].tag), st[i].tag, DataPart(st[i + 1..], vs[i + 1..]) + tail)
      == WithRest(ReadAs(st2, st[i + 1..], vs[i + 1..]), tail)
    ensures DecodeWords(st2, Words(st[i..], vs[i..], last), last, DataPart(st[i..], vs[i..]) + tail)
      == WithRest(ReadAs(st2, st[i..], vs[i..]), tail)
  {
    hide DecodeWords, Suits, DataOf, WordOf, Means, Words, DataPart, ReadAs, DecodeField, Find, PartOf;
    var f, v := st[i], vs[i].value;
    assert Suits(f, v);
    var ws, data := Words(st[i + 1..], vs[i + 1..], f.tag), DataPart(st[i + 1..], vs[i + 1..]) + tail;
    assert st[i..][1..] == st[i + 1..] && vs[i..][1..] == vs[i + 1..];
    PresentHead(st[i..], vs[i..], last);
    ReadHead(st2, st[i..], vs[i..]);
    FieldStep(st2, f, v, ws, data);
    assert DataPart(st[i..], vs[i..]) + tail == DataOf(f, v) + data;
    var gap := f.tag - last - 1;
    if gap > 0 {
      SkipStep(st2, gap, [WordOf(v)] + ws, last, DataOf(f, v) + data);
    } else {
      assert [] + ([WordOf(v)] + ws) == [WordOf(v)] + ws;
    }
  }

  lemma SkipStep(st: Schema, gap: int, ws: seq<int>, last: int, data: seq<Byte>)
    requires gap > 0
    ensures DecodeWords(st, [(gap - 1) * 2 + 1] + ws, last, data) == DecodeWords(st, ws, last + gap, data)
  {
    var all := [(gap - 1) * 2 + 1] + ws;
    assert all[1..] == ws && all[0] / 2 == gap - 1;
  }

  lemma FieldStep(st2: Schema, f: Field, v: Value, ws: seq<int>, data: seq<Byte>)
    requires Suits(f, v)
    ensures DecodeWords(st2, [WordOf(v)] + ws, f.tag - 1, DataOf(f, v) + data)
      == Take(st2, f.tag, WordOf(v), PartOf(f, v), DecodeWords(st2, ws, f.tag, data))
  {
    hide DecodeField, Find;
    var all := [WordOf(v)] + ws;
    assert all[1..] == ws && all[0] == WordOf(v);
    if Inline(v) {
      assert DataOf(f, v) + data == data;
    } else {
      BodySmall(f, v);
      SizedRound(BodyOf(f, v), data);
    }
  }

  lemma BodySmall(f: Field, v: Value)
    requires Suits(f, v) && !Inline(v)
    ensures |BodyOf(f, v)| < TWO32 && DataOf(f, v) == Sized(BodyOf(f, v))
  {
  }

  /**
   What any reader makes of an encoding: fields it has no tag for are skipped, of the others it gets
   what its own type says their word and body are, and one that does not suit fails the whole.
   */
  lemma AcrossTypes(st2: Schema, st: Schema, vs: Present, tail: seq<Byte>)
    requires Imported(st) && Supplied(st, vs)
    ensures Decode(st2, Encode(st, vs) + tail) == WithRest(ReadAs(st2, st, vs), tail)
  {
    hide DecodeWords, Words, DataPart, ReadAs, Suits;
    ImportedAbove(st);
    WordsFit(st, vs, -1);
    var ws := Words(st, vs, -1);
    HeaderFits(st, vs, -1);
    MaxNSmall(st, -1);
    FieldsRound(st2, st, vs, 0, -1, tail);
    assert st[0..] == st && vs[0..] == vs;
    CountRound(ws, DataPart(st, vs), tail);
  }

  /** Where both types have a tag it is for the same kind of field. */
  predicate Agree(st: Schema, st2: Schema) {
    forall i, j :: 0 <= i < |st| && 0 <= j < |st2| && st[i].tag == st2[j].tag ==> st[i] == st2[j]
  }

  /** The present fields of st that st2 has as well, with what they mean, in their order. */
  function Shared(st2: Schema, st: Schema, vs: Present): seq<(int, Decoded)>
    requires |vs| == |st|
  {
    if |st| == 0 then []
    else (if vs[0].Some? && Find(st2, st[0].tag).Some? then [(st[0].tag, Means(vs[0].value))] else [])
         + Shared(st2, st[1..], vs[1..])
  }

  lemma {:induction false} FindMember(st: Schema, tag: int)
    ensures match Find(st, tag)
      case None => forall i :: 0 <= i < |st| ==> st[i].tag != tag
      case Some(f) => f.tag == tag && f in st
  {
    if |st| > 0 && st[0].tag != tag { FindMember(st[1..], tag); }
  }

  /** Where the types agree, the reader's field makes of a value what it means. */
  lemma SharedField(st2: Schema, st: Schema, vs: Present)
    requires |st| > 0 && Supplied(st, vs) && vs[0].Some? && Agree(st, st2)
    ensures Suits(st[0], vs[0].value)
    ensures match Find(st2, st[0].tag)
      case None => true
      case Some(f2) => DecodeField(f2, WordOf(vs[0].value), PartOf(st[0], vs[0].value)) == Some(Means(vs[0].value))
  {
    hide DecodeField, Suits, Find, Means, WordOf, Inline, BodyOf;
    var f, v := st[0], vs[0].value;
    assert Suits(f, v);
    FieldRound(f, v);
    FindMember(st2, f.tag);
    if Find(st2, f.tag).Some? {
      var j :| 0 <= j < |st2| && st2[j] == Find(st2, f.tag).value;
      assert st2[j].tag == f.tag && st[0] == st2[j];
    }
  }

  lemma SharedHead(st2: Schema, st: Schema, vs: Present)
    requires |st| > 0 && |st| == |vs|
    ensures Shared(st2, st, vs)
      == if vs[0].Some? && Find(st2, st[0].tag).Some? then [(st[0].tag, Means(vs[0].value))] + Shared(st2, st[1..], vs[1..])
         else Shared(st2, st[1..], vs[1..])
  {
  }

  lemma {:induction false} ReadShared(st2: Schema, st: Schema, vs: Present)
    requires Supplied(st, vs) && Agree(st, st2)
    ensures ReadAs(st2, st, vs) == Some(Shared(st2, st, vs))
  {
    if |st| > 0 {
      hide DecodeField, Suits, Find, PartOf, Means, WordOf, Shared, ReadAs;
      assert Agree(st[1..], st2);
      assert Supplied(st[1..], vs[1..]) by {
        forall i | 0 <= i < |st[1..]| && vs[1..][i].Some? ensures Suits(st[1..][i], vs[1..][i].value) {
          assert Suits(st[i + 1], vs[i + 1].value);
        }
      }
      ReadShared(st2, st[1..], vs[1..]);
      SharedHead(st2, st, vs);
      if vs[0].Some? {
        SharedField(st2, st, vs);
        ReadHead(st2, st, vs);
      } else {
        AbsentHead(st2, st, vs, -1);
      }
    }
  }

  /**
   A round trip between two versions of a type: decoding with st2 what was encoded with st hands
   back the present fields that st2 knows, in order and with their meaning, and skips the others.
   */
  lemma VersionsRoundTrip(st2: Schema, st: Schema, vs: Present, tail: seq<Byte>)
    requires Imported(st) && Supplied(st, vs) && Agree(st, st2)
    ensures Decode(st2, Encode(st, vs) + tail) == Some(Received(Shared(st2, st, vs), tail))
  {
    hide Encode, Decode;
    AcrossTypes(st2, st, vs, tail);
    ReadShared(st2, st, vs);
  }

  lemma {:induction false} SharedIsExpected(st2: Schema, st: Schema, vs: Present)
    requires |vs| == |st| && forall i :: 0 <= i < |st| ==> Find(st2, st[i].tag).Some?
    ensures Shared(st2, st, vs) == Expected(st, vs)
  {
    hide Find, Means;
    if |st| > 0 {
      assert Find(st2, st[0].tag).Some?;
      assert forall i :: 0 <= i < |st[1..]| ==> st[1..][i] == st[i + 1];
      SharedIsExpected(st2, st[1..], vs[1..]);
    }
  }

  /**
   Decoding what was encoded hands back exactly the fields that were present, each under its tag and
   with its value, and leaves what follows the encoding alone, for every type and every choice of fields.
   */
  lemma StructRoundTrip(st: Schema, vs: Present, tail: seq<Byte>)
    requires Imported(st) && Supplied(st, vs)
    ensures Decode(st, Encode(st, vs) + tail) == Some(Received(Expected(st, vs), tail))
  {
    VersionsRoundTrip(st, st, vs, tail);
    forall i | 0 <= i < |st| ensures Find(st, st[i].tag).Some? { FindAt(st, i); }
    SharedIsExpected(st, st, vs);
  }

  /** The count of header words, and where the data starts. */
  lemma CountRound(ws: seq<int>, data: seq<Byte>, tail: seq<Byte>)
    requires WordsOk(ws) && |ws| < 0x1_0000
    ensures
      var b := Le(|ws|, 2) + Header(ws) + data + tail;
      |b| >= 2 + 2 * |ws| && UnLe(b[..2]) == |ws| && WordsAt(b[2..], |ws|) == ws && b[2 + 2 * |ws|..] == data + tail
  {
    hide Le, UnLe, Header, WordsAt;
    var count, header, rest := Le(|ws|, 2), Header(ws), data + tail;
    assert UnLe(count) == |ws| by { CountFits(|ws|); }
    WordsAtHeader(ws, rest);
    InFour(count, header, data, tail);
  }

  lemma CountFits(n: nat)
    requires n < 0x1_0000
    ensures UnLe(Le(n, 2)) == n
  {
    Powers();
    LeRound(n, 2);
  }

  lemma InFour(a: seq<Byte>, b: seq<Byte>, c: seq<Byte>, d: seq<Byte>)
    ensures var s := a + b + c + d; s[..|a|] == a && s[|a|..] == b + (c + d) && s[|a| + |b|..] == c + d
  {
  }
}
