/**
 Stream-linked verification receipts. A receipt is a JSON object; its id is a
 hash of its canonical text, and a link compares canonical texts and the
 predecessor's id. Only the fields the link reads are validated here.
 */
module ReceiptStream {
  import opened Wrappers
  import opened JsonText
  import opened CanonicalJson

  /** The domain-separated hash of canonical text, as a hex string. */
  type Hash = Text -> Text

  function Ascii(s: string): Text
    requires forall i :: 0 <= i < |s| ==> s[i] < 128 as char
  {
    seq(|s|, i requires 0 <= i < |s| => s[i] as int)
  }

  const CONTEXT: Text := Ascii("context")
  const SUBJECT: Text := Ascii("subject")
  const PROFILE: Text := Ascii("profile")
  const ISSUER: Text := Ascii("issuer")
  const EVENT: Text := Ascii("event")
  const STREAM: Text := Ascii("stream")
  const ID: Text := Ascii("id")
  const SEQUENCE: Text := Ascii("sequence")
  const PREVIOUS_RECEIPT_ID: Text := Ascii("previousReceiptId")

  function Member(ms: seq<(Text, Json)>, key: Text): Option<Json> {
    if ms == [] then None
    else if ms[0].0 == key then Some(ms[0].1)
    else Member(ms[1..], key)
  }

  function Field(v: Json, key: Text): Option<Json> {
    if v.Obj? then Member(v.members, key) else None
  }

  function Shared(): seq<Text> {
    [CONTEXT, SUBJECT, PROFILE, ISSUER]
  }

  datatype Stream = Stream(id: Json, sequence: Json, previous: Json)

  /** event.stream with its three fields. */
  function StreamOf(r: Json): Option<Stream> {
    match Field(r, EVENT)
    case None => None
    case Some(event) =>
      match Field(event, STREAM)
      case None => None
      case Some(s) =>
        var id, sequence, previous := Field(s, ID), Field(s, SEQUENCE), Field(s, PREVIOUS_RECEIPT_ID);
        if id.Some? && sequence.Some? && previous.Some? then Some(Stream(id.value, sequence.value, previous.value)) else None
  }

  /** 0, or up to 78 digits without a leading zero. */
  predicate IsDecimal(v: Json) {
    && v.Str? && 1 <= |v.s| <= 78 && (forall i :: 0 <= i < |v.s| ==> IsDigit(v.s[i]))
    && (v.s[0] == ZERO ==> |v.s| == 1)
  }

  /** The sequence and predecessor rule. */
  predicate ValidStream(s: Stream) {
    && IsDecimal(s.sequence) && s.id.Str?
    && (if s.sequence.s == [ZERO] then s.previous == Null else s.previous.Str?)
  }

  predicate ValidReceipt(r: Json) {
    && WellFormed(r)
    && (forall k :: k in Shared() ==> Field(r, k).Some?)
    && (StreamOf(r).Some? ==> ValidStream(StreamOf(r).value))
  }

  function ReceiptId(h: Hash, r: Json): Json {
    Str(h(Canonicalize(r)))
  }

  predicate SharedField(a: Json, b: Json, key: Text) {
    Field(a, key).Some? && Field(b, key).Some? && Canonicalize(Field(a, key).value) == Canonicalize(Field(b, key).value)
  }

  /** verifyStreamLink. Addresses are strings, so comparing the issuers' canonical texts is comparing the issuers. */
  predicate Linked(h: Hash, previous: Json, current: Json) {
    && ValidReceipt(previous) && ValidReceipt(current)
    && StreamOf(previous).Some? && StreamOf(current).Some?
    && (forall k :: k in Shared() ==> SharedField(previous, current, k))
    && (var a, b := StreamOf(previous).value, StreamOf(current).value;
        && a.id == b.id
        && Value(b.sequence.s) == Value(a.sequence.s) + 1
        && b.previous == ReceiptId(h, previous))
  }

  /** A stream from its first receipt on, every neighbour pair linked. */
  predicate History(h: Hash, rs: seq<Json>) {
    && rs != []
    && ValidReceipt(rs[0]) && StreamOf(rs[0]).Some? && Value(StreamOf(rs[0]).value.sequence.s) == 0
    && forall i :: 0 <= i < |rs| - 1 ==> Linked(h, rs[i], rs[i + 1])
  }

  ghost predicate CollisionFree(h: Hash, texts: set<Text>) {
    forall x, y :: x in texts && y in texts && h(x) == h(y) ==> x == y
  }

  // -------------------------------------------------------------------------
  // Fields of values that are the same up to key order
  // -------------------------------------------------------------------------

  lemma {:induction false} MemberAt(ms: seq<(Text, Json)>, i: nat)
    requires i < |ms| && DistinctKeys(ms)
    ensures Member(ms, ms[i].0) == Some(ms[i].1)
    decreases |ms|
  {
    if i > 0 {
      MemberAt(ms[1..], i - 1);
    }
  }

  lemma {:induction false} MemberFound(ms: seq<(Text, Json)>, key: Text) returns (i: nat)
    requires Member(ms, key).Some?
    ensures i < |ms| && ms[i] == (key, Member(ms, key).value)
    decreases |ms|
  {
    if ms[0].0 == key {
      i := 0;
    } else {
      var j := MemberFound(ms[1..], key);
      i := j + 1;
    }
  }

  lemma FieldSame(a: Json, b: Json, key: Text)
    requires WellFormed(a) && WellFormed(b) && Same(a, b) && Field(a, key).Some?
    ensures Field(b, key).Some? && Same(Field(a, key).value, Field(b, key).value)
    ensures WellFormed(Field(a, key).value) && WellFormed(Field(b, key).value)
  {
    var ms, ns := a.members, b.members;
    var i := MemberFound(ms, key);
    var j :| 0 <= j < |ns| && ns[j].0 == ms[i].0 && Same(ms[i].1, ns[j].1);
    MemberAt(ns, j);
  }

  /** Receipts that are the same up to key order carry the same sequence and predecessor. */
  lemma StreamSame(a: Json, b: Json)
    requires ValidReceipt(a) && ValidReceipt(b) && Same(a, b) && StreamOf(a).Some?
    ensures StreamOf(b).Some?
    ensures StreamOf(a).value.sequence == StreamOf(b).value.sequence
    ensures StreamOf(a).value.previous == StreamOf(b).value.previous
  {
    hide Same, WellFormed, Field;
    FieldSame(a, b, EVENT);
    var ea, eb := Field(a, EVENT).value, Field(b, EVENT).value;
    FieldSame(ea, eb, STREAM);
    var sa, sb := Field(ea, STREAM).value, Field(eb, STREAM).value;
    FieldSame(sa, sb, ID);
    FieldSame(sa, sb, SEQUENCE);
    FieldSame(sa, sb, PREVIOUS_RECEIPT_ID);
    SameLeaf(Field(sa, SEQUENCE).value, Field(sb, SEQUENCE).value);
    SameLeaf(Field(sa, PREVIOUS_RECEIPT_ID).value, Field(sb, PREVIOUS_RECEIPT_ID).value);
  }

  lemma SameLeaf(a: Json, b: Json)
    requires Same(a, b)
    ensures a.Str? || a.Null? ==> a == b
  {
  }

  // -------------------------------------------------------------------------
  // One stream
  // -------------------------------------------------------------------------

  /** The receipt at position i has sequence i. */
  lemma {:induction false} SequenceIsPosition(h: Hash, rs: seq<Json>, i: nat)
    requires History(h, rs) && i < |rs|
    ensures ValidReceipt(rs[i]) && StreamOf(rs[i]).Some? && Value(StreamOf(rs[i]).value.sequence.s) == i
    decreases i
  {
    if i > 0 {
      SequenceIsPosition(h, rs, i - 1);
      assert Linked(h, rs[i - 1], rs[i - 1 + 1]);
    }
  }

  /** A history ending at sequence n has exactly n + 1 receipts. */
  lemma HistoryLength(h: Hash, rs: seq<Json>)
    requires History(h, rs)
    ensures ValidReceipt(rs[|rs| - 1]) && StreamOf(rs[|rs| - 1]).Some?
    ensures |rs| == Value(StreamOf(rs[|rs| - 1]).value.sequence.s) + 1
  {
    SequenceIsPosition(h, rs, |rs| - 1);
  }

  /** All receipts of a history share issuer, context, subject, profile and stream id. */
  lemma {:induction false} HistoryShares(h: Hash, rs: seq<Json>, i: nat)
    requires History(h, rs) && i < |rs|
    ensures forall k :: k in Shared() ==> SharedField(rs[0], rs[i], k)
    ensures StreamOf(rs[0]).Some? && StreamOf(rs[i]).Some? && StreamOf(rs[0]).value.id == StreamOf(rs[i]).value.id
    decreases i
  {
    if i > 0 {
      HistoryShares(h, rs, i - 1);
      assert Linked(h, rs[i - 1], rs[i - 1 + 1]);
      forall k | k in Shared() ensures SharedField(rs[0], rs[i], k) {
        assert SharedField(rs[0], rs[i - 1], k) && SharedField(rs[i - 1], rs[i], k);
      }
    }
  }

  // -------------------------------------------------------------------------
  // A receipt determines its history
  // -------------------------------------------------------------------------

  function CanonicalTexts(rs: seq<Json>): set<Text> {
    set i | 0 <= i < |rs| :: Canonicalize(rs[i])
  }

  lemma PredecessorsSame(h: Hash, a: seq<Json>, b: seq<Json>, i: nat, texts: set<Text>)
    requires History(h, a) && History(h, b) && i + 1 < |a| && i + 1 < |b|
    requires CollisionFree(h, texts) && CanonicalTexts(a) <= texts && CanonicalTexts(b) <= texts
    requires Same(a[i + 1], b[i + 1])
    ensures Same(a[i], b[i])
  {
    hide Same, StreamOf, CanonicalJson.Canonicalize, Shared;
    assert Linked(h, a[i], a[i + 1]) && Linked(h, b[i], b[i + 1]);
    StreamSame(a[i + 1], b[i + 1]);
    assert Canonicalize(a[i]) in CanonicalTexts(a);
    assert Canonicalize(b[i]) in CanonicalTexts(b);
    CanonicalIdentifies(a[i], b[i]);
  }

  lemma {:induction false} SameBackwards(h: Hash, a: seq<Json>, b: seq<Json>, i: nat, texts: set<Text>)
    requires History(h, a) && History(h, b) && |a| == |b| && i < |a|
    requires CollisionFree(h, texts) && CanonicalTexts(a) <= texts && CanonicalTexts(b) <= texts
    requires Same(a[|a| - 1], b[|b| - 1])
    ensures Same(a[i], b[i])
    decreases |a| - i
  {
    if i < |a| - 1 {
      SameBackwards(h, a, b, i + 1, texts);
      PredecessorsSame(h, a, b, i, texts);
    }
  }

  /** Two histories that end in the same receipt are the same, receipt by receipt. */
  lemma HistoryUnique(h: Hash, a: seq<Json>, b: seq<Json>, texts: set<Text>)
    requires History(h, a) && History(h, b)
    requires CollisionFree(h, texts) && CanonicalTexts(a) <= texts && CanonicalTexts(b) <= texts
    requires ReceiptId(h, a[|a| - 1]) == ReceiptId(h, b[|b| - 1])
    ensures |a| == |b| && forall i :: 0 <= i < |a| ==> Same(a[i], b[i])
  {
    hide Same, StreamOf, CanonicalJson.Canonicalize, Shared;
    var m, n := |a| - 1, |b| - 1;
    assert Canonicalize(a[m]) in CanonicalTexts(a) && Canonicalize(b[n]) in CanonicalTexts(b);
    SequenceIsPosition(h, a, m);
    SequenceIsPosition(h, b, n);
    CanonicalIdentifies(a[m], b[n]);
    StreamSame(a[m], b[n]);
    forall i | 0 <= i < |a| ensures Same(a[i], b[i]) {
      SameBackwards(h, a, b, i, texts);
    }
  }

  /** Without a collision, ids are equal exactly for receipts equal up to key order. */
  lemma IdIdentifies(h: Hash, a: Json, b: Json)
    requires WellFormed(a) && WellFormed(b) && CollisionFree(h, {Canonicalize(a), Canonicalize(b)})
    ensures ReceiptId(h, a) == ReceiptId(h, b) <==> Same(a, b)
  {
    CanonicalIdentifies(a, b);
  }

  /** The parsed copy that creation returns has the id of the receipt it was made from. */
  lemma CreatedCopyKeepsId(h: Hash, r: Json)
    requires WellFormed(r)
    ensures Parse(Canonicalize(r)).Some? && ReceiptId(h, Parse(Canonicalize(r)).value) == ReceiptId(h, r)
  {
    CanonicalFixpoint(r);
  }
}
