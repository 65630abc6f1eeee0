/** No input that decodes to the same fields is shorter than what sproto_encode writes. */
module SprotoShortest {
  import opened Common
  import opened SprotoWire
  import opened SprotoExact

  /** The callback gives 64 bits only for a number that 32 do not hold. */
  predicate TightNumber(e: Number) { e.Big? ==> TWO31 <= e.u < TWO64 - TWO31 }

  predicate Tight(v: Value) {
    match v
    case Scalar(e) => TightNumber(e)
    case Numbers(es) => forall i :: 0 <= i < |es| ==> TightNumber(es[i])
    case _ => true
  }

  predicate AllTight(vs: Present) { forall i :: 0 <= i < |vs| && vs[i].Some? ==> Tight(vs[i].value) }

  // ---------- one field ----------

  lemma SmallMeaning(e: Number, u: int)
    requires NumberOk(e) && TightNumber(e) && 0 <= u < TWO32 && Meaning(e) == Expand64(u)
    ensures e == Small(u)
  {
  }

  lemma {:induction false} BodyLengths(es: seq<Number>)
    requires NumbersOk(es)
    ensures |Wide(es)| == 8 * |es| && (AllSmall(es) ==> |Narrow(es)| == 4 * |es|)
  {
    if |es| > 0 { BodyLengths(es[1..]); }
  }

  /** An array whose elements stand in 32 bits has only small elements. */
  lemma NarrowIsSmall(b: seq<Byte>, es: seq<Number>)
    requires NumbersOk(es) && (forall i :: 0 <= i < |es| ==> TightNumber(es[i])) && |b| % 4 == 0
    requires |NumbersOf(b, 4)| == |es| && forall i :: 0 <= i < |es| ==> NumbersOf(b, 4)[i] == Meaning(es[i])
    ensures AllSmall(es)
  {
    NumbersAt(b, 4);
    forall i | 0 <= i < |es| ensures es[i].Small? {
      hide UnLe, Expand64, Meaning, NumbersOf;
      var at := Offset(4, i);
      Powers();
      UnLeRound(b[at..at + 4]);
      assert NumberAt(b, at, 4) == Meaning(es[i]);
      SmallMeaning(es[i], UnLe(b[at..at + 4]));
    }
  }

  lemma NumbersShortest(body: seq<Byte>, es: seq<Number>, base: Base)
    requires NumbersOk(es) && (forall i :: 0 <= i < |es| ==> TightNumber(es[i])) && (base.Integer? || base.Double?)
    requires DecodeArray(base, body) == Some(Means(Numbers(es)))
    ensures |NumberBody(es)| <= |body|
  {
    if |es| > 0 {
      hide NumbersOf, Narrow, Wide, Meaning;
      BodyLengths(es);
      var rest := body[1..];
      assert |rest| > 0;
      var ns := Means(Numbers(es)).ns;
      if body[0] == 4 {
        NumbersAt(rest, 4);
        NarrowIsSmall(rest, es);
      } else {
        NumbersAt(rest, 8);
      }
    }
  }

  lemma ScalarShortest(f: Field, e: Number, body: seq<Byte>)
    requires Suits(f, Scalar(e)) && Tight(Scalar(e)) && DecodeField(f, 0, body) == Some(Means(Scalar(e)))
    ensures |DataOf(f, Scalar(e))| <= 4 + |body|
  {
    Powers();
    UnLeRound(body);
    hide UnLe, Le;
    if |body| == 4 { SmallMeaning(e, UnLe(body)); }
  }

  /** The data part of a value is no longer than any part that decodes to the same. */
  lemma FieldShortest(f: Field, v: Value, word: int, body: seq<Byte>)
    requires Suits(f, v) && Tight(v) && 0 <= word < 0x1_0000 && word % 2 == 0
    requires DecodeField(f, word, body) == Some(Means(v))
    ensures |DataOf(f, v)| <= if word == 0 then 4 + |body| else 0
  {
    if word != 0 {
      SmallMeaning(v.e, word / 2 - 1);
    } else {
      match v
      case Scalar(e) => ScalarShortest(f, e, body);
      case Object(p) =>
      case Numbers(es) => NumbersShortest(body, es, f.base);
      case Booleans(bs) => BytesAt(body); BooleansRound(bs);
      case Objects(os) => if |body| > 0 { ItemsExact(body, os); } else { assert os == []; }
    }
  }

  // ---------- the whole message ----------

  /** The bytes of the fields from i on, when last is the tag in front of them. */
  function Cost(st: Schema, vs: Present, i: nat, last: int): nat
    requires Supplied(st, vs) && i <= |st|
    decreases |st| - i
  {
    if i == |st| then 0
    else if vs[i].None? then Cost(st, vs, i + 1, last)
    else (if st[i].tag > last + 1 then 4 else 2) + |DataOf(st[i], vs[i].value)| + Cost(st, vs, i + 1, st[i].tag)
  }

  lemma {:induction false} CostIsLength(st: Schema, vs: Present, i: nat, last: int)
    requires Supplied(st, vs) && i <= |st|
    ensures Supplied(st[i..], vs[i..])
    ensures Cost(st, vs, i, last) == 2 * |Words(st[i..], vs[i..], last)| + |DataPart(st[i..], vs[i..])|
    decreases |st| - i
  {
    hide DataOf, WordOf, Suits;
    SuppliedFrom(st, vs, i);
    if i < |st| {
      assert st[i..][1..] == st[i + 1..] && vs[i..][1..] == vs[i + 1..];
      CostIsLength(st, vs, i + 1, if vs[i].None? then last else st[i].tag);
      if vs[i].None? {
        AbsentHead(st, st[i..], vs[i..], last);
      } else {
        PresentHead(st[i..], vs[i..], last);
      }
    }
  }

  lemma SuppliedFrom(st: Schema, vs: Present, i: nat)
    requires Supplied(st, vs) && i <= |st|
    ensures Supplied(st[i..], vs[i..])
  {
  }

  /** A later tag in front saves one word at most. */
  lemma {:induction false} CostLater(st: Schema, vs: Present, i: nat, last: int, later: int)
    requires Supplied(st, vs) && i <= |st| && last <= later
    ensures Cost(st, vs, i, last) <= 2 + Cost(st, vs, i, later)
    decreases |st| - i
  {
    if i < |st| && vs[i].None? { CostLater(st, vs, i + 1, last, later); }
  }

  /** The first present field from i on. */
  function FirstPresent(vs: Present, i: nat): (j: nat)
    requires i <= |vs|
    ensures i <= j <= |vs| && (j < |vs| ==> vs[j].Some?)
    decreases |vs| - i
  {
    if i == |vs| || vs[i].Some? then i else FirstPresent(vs, i + 1)
  }

  /** What the callback must see from field i on. */
  function ExpectedFrom(st: Schema, vs: Present, i: nat): seq<(int, Decoded)>
    requires |vs| == |st| && i <= |st|
  {
    Expected(st[i..], vs[i..])
  }

  lemma {:induction false} FromFirst(st: Schema, vs: Present, i: nat, last: int)
    requires Supplied(st, vs) && i <= |st|
    ensures
      var j := FirstPresent(vs, i);
      if j == |st| then ExpectedFrom(st, vs, i) == [] && Cost(st, vs, i, last) == 0
      else
        ExpectedFrom(st, vs, i) == [(st[j].tag, Means(vs[j].value))] + ExpectedFrom(st, vs, j + 1)
        && Cost(st, vs, i, last)
          == (if st[j].tag > last + 1 then 4 else 2) + |DataOf(st[j], vs[j].value)| + Cost(st, vs, j + 1, st[j].tag)
    decreases |st| - i
  {
    hide Means, DataOf, Suits;
    if i < |st| {
      assert st[i..][1..] == st[i + 1..] && vs[i..][1..] == vs[i + 1..];
      if vs[i].None? {
        FromFirst(st, vs, i + 1, last);
        assert [] + ExpectedFrom(st, vs, i + 1) == ExpectedFrom(st, vs, i + 1);
      }
    }
  }

  lemma FoundIsField(st: Schema, j: nat)
    requires Imported(st) && j < |st|
    ensures Find(st, st[j].tag) == Some(st[j])
  {
    FindAt(st, j);
  }

  /** A known field at the head of an accepted input is the first present one. */
  lemma KnownHead(st: Schema, vs: Present, i: nat, d: Decoded, tail: Option<Received>, tag: int, rest: seq<Byte>)
    requires Imported(st) && Supplied(st, vs) && AllTight(vs) && i <= |st|
    requires Prepend(tag, d, tail) == Some(Received(ExpectedFrom(st, vs, i), rest))
    ensures
      var j := FirstPresent(vs, i);
      j < |st| && st[j].tag == tag && d == Means(vs[j].value) && Find(st, tag) == Some(st[j])
      && tail == Some(Received(ExpectedFrom(st, vs, j + 1), rest))
      && Cost(st, vs, i, tag - 1) == 2 + |DataOf(st[j], vs[j].value)| + Cost(st, vs, j + 1, tag)
  {
    hide Means, DataOf, Suits, ExpectedFrom, Cost, Find;
    FromFirst(st, vs, i, tag - 1);
    var j := FirstPresent(vs, i);
    var all := [(tag, d)] + tail.value.fields;
    assert all == ExpectedFrom(st, vs, i);
    assert all[0] == (tag, d) && all[1..] == tail.value.fields;
    assert j < |st|;
    var same := [(st[j].tag, Means(vs[j].value))] + ExpectedFrom(st, vs, j + 1);
    assert same[1..] == ExpectedFrom(st, vs, j + 1) && same[0] == (tag, d);
    FoundIsField(st, j);
  }

  /** What decodes to the fields from i on is no shorter than their own words and parts. */
  lemma {:induction false} WordsShortest(st: Schema, vs: Present, i: nat, ws: seq<int>, last: int, data: seq<Byte>, rest: seq<Byte>)
    requires Imported(st) && Supplied(st, vs) && AllTight(vs) && i <= |st| && WordsOk(ws)
    requires DecodeWords(st, ws, last, data) == Some(Received(ExpectedFrom(st, vs, i), rest))
    ensures Cost(st, vs, i, last) + |rest| <= 2 * |ws| + |data|
    decreases |ws|, 1
  {
    hide Means, DataOf, Suits, ExpectedFrom, Cost, Find, DecodeField, UnLe, Prepend;
    if |ws| == 0 {
      FromFirst(st, vs, i, last);
    } else {
      var w, tag := ws[0], last + 1;
      if w % 2 == 1 {
        WordsShortest(st, vs, i, ws[1..], tag + w / 2, data, rest);
        CostLater(st, vs, i, last, tag + w / 2);
      } else {
        var n := if w == 0 then UnLe(data[..4]) else 0;
        var body := if w == 0 then data[4..4 + n] else [];
        var left := if w == 0 then data[4 + n..] else data;
        var next := DecodeWords(st, ws[1..], tag, left);
        assert Take(st, tag, w, body, next) == Some(Received(ExpectedFrom(st, vs, i), rest));
        FieldHead(st, vs, i, ws, tag, body, left, rest);
      }
    }
  }

  /** The same, when a field word is in front: its tag may be known or not. */
  lemma {:induction false} FieldHead(
    st: Schema, vs: Present, i: nat, ws: seq<int>, tag: int, body: seq<Byte>, left: seq<Byte>, rest: seq<Byte>)
    requires Imported(st) && Supplied(st, vs) && AllTight(vs) && i <= |st| && WordsOk(ws) && |ws| > 0 && ws[0] % 2 == 0
    requires Take(st, tag, ws[0], body, DecodeWords(st, ws[1..], tag, left)) == Some(Received(ExpectedFrom(st, vs, i), rest))
    ensures Cost(st, vs, i, tag - 1) + |rest| <= 2 * |ws| + |left| + (if ws[0] == 0 then 4 + |body| else 0)
    decreases |ws|, 0
  {
    hide Means, DataOf, Suits, ExpectedFrom, Cost, Find, DecodeField, DecodeWords, Prepend;
    var next := DecodeWords(st, ws[1..], tag, left);
    if Find(st, tag).None? {
      WordsShortest(st, vs, i, ws[1..], tag, left, rest);
      CostLater(st, vs, i, tag - 1, tag);
    } else {
      var d := DecodeField(Find(st, tag).value, ws[0], body).value;
      KnownHead(st, vs, i, d, next, tag, rest);
      var j := FirstPresent(vs, i);
      WordsShortest(st, vs, j + 1, ws[1..], tag, left, rest);
      FieldShortest(st[j], vs[j].value, ws[0], body);
    }
  }

  /**
   Of all inputs that decode to the present fields, the encoding is a shortest one, provided the
   callback gives 32 bits for every number they hold: gaps, small numbers and arrays cost no byte more
   than they must.
   */
  lemma EncodingShortest(st: Schema, vs: Present, b: seq<Byte>, rest: seq<Byte>)
    requires Imported(st) && Supplied(st, vs) && AllTight(vs)
    requires Decode(st, b) == Some(Received(Expected(st, vs), rest))
    ensures |Encode(st, vs)| + |rest| <= |b|
  {
    hide DecodeWords, Words, DataPart, UnLe, Expected, Suits, WordsAt, Header, Cost;
    var n := UnLe(b[..2]);
    var data := b[2 + 2 * n..];
    assert st[0..] == st && vs[0..] == vs;
    HeaderOfWords(b[2..], n);
    WordsShortest(st, vs, 0, WordsAt(b[2..], n), -1, data, rest);
    CostIsLength(st, vs, 0, -1);
    ImportedAbove(st);
    WordsFit(st, vs, -1);
    WordsAtHeader(Words(st, vs, -1), []);
  }
}
