/**
 The canonical JSON printer: objects by sorted key, no white space. A parser for
 compact JSON undoes it, so canonical text identifies a value up to key order.
 */
module CanonicalJson {
  import opened Wrappers
  import opened JsonText
  import opened JsonNumber

  /** Members are in insertion order; JavaScript objects have distinct keys (WellFormed). */
  datatype Json =
    | Null
    | Bool(b: bool)
    | Num(n: Number)
    | Str(s: Text)
    | Arr(elems: seq<Json>)
    | Obj(members: seq<(Text, Json)>)

  predicate DistinctKeys<T>(ms: seq<(Text, T)>) {
    forall i, j :: 0 <= i < j < |ms| ==> ms[i].0 != ms[j].0
  }

  predicate WellFormed(v: Json) {
    match v
    case Arr(es) => forall i :: 0 <= i < |es| ==> WellFormed(es[i])
    case Obj(ms) => DistinctKeys(ms) && forall i :: 0 <= i < |ms| ==> WellFormed(ms[i].1)
    case _ => true
  }

  /** Equal up to the order of object members. */
  ghost predicate Same(a: Json, b: Json)
    decreases a
  {
    match a
    case Arr(es) => b.Arr? && |es| == |b.elems| && forall i :: 0 <= i < |es| ==> Same(es[i], b.elems[i])
    case Obj(ms) =>
      && b.Obj? && |ms| == |b.members|
      && forall i :: 0 <= i < |ms| ==>
           exists j :: 0 <= j < |b.members| && b.members[j].0 == ms[i].0 && Same(ms[i].1, b.members[j].1)
    case _ => a == b
  }

  // -------------------------------------------------------------------------
  // The source's printer
  // -------------------------------------------------------------------------

  function Insert<T>(e: (Text, T), es: seq<(Text, T)>): seq<(Text, T)> {
    if es == [] || Less(e.0, es[0].0) then [e] + es else [es[0]] + Insert(e, es[1..])
  }

  function SortByKey<T>(es: seq<(Text, T)>): seq<(Text, T)> {
    if es == [] then [] else Insert(es[0], SortByKey(es[1..]))
  }

  function Join(ts: seq<Text>): Text {
    if ts == [] then [] else if |ts| == 1 then ts[0] else ts[0] + ([COMMA] + Join(ts[1..]))
  }

  function Keyword(v: Json): Text
    requires v.Null? || v.Bool?
  {
    if v.Null? then [110, 117, 108, 108]
    else if v.b then [116, 114, 117, 101]
    else [102, 97, 108, 115, 101]
  }

  /** The literal names of section 3 of RFC 8259. */
  lemma KeywordsSpelled()
    ensures Spells(Keyword(Null), "null") && Spells(Keyword(Bool(true)), "true") && Spells(Keyword(Bool(false)), "false")
  {
  }

  function Canonicalize(v: Json): Text
    decreases v
  {
    match v
    case Arr(es) => [OPEN_BRACKET] + Join(Texts(es)) + [CLOSE_BRACKET]
    case Obj(ms) => [OPEN_BRACE] + Join(Entries(SortByKey(KeyedTexts(ms)))) + [CLOSE_BRACE]
    case Num(n) => NumberText(n)
    case Str(s) => Quote(s)
    case _ => Keyword(v)
  }

  function Texts(es: seq<Json>): (ts: seq<Text>)
    ensures |ts| == |es|
    decreases es
  {
    if es == [] then [] else [Canonicalize(es[0])] + Texts(es[1..])
  }

  function KeyedTexts(ms: seq<(Text, Json)>): (es: seq<(Text, Text)>)
    ensures |es| == |ms|
    decreases ms
  {
    if ms == [] then []
    else
      assert ms[0].1 < ms[0];
      [(ms[0].0, Canonicalize(ms[0].1))] + KeyedTexts(ms[1..])
  }

  function Entries(es: seq<(Text, Text)>): (ts: seq<Text>)
    ensures |ts| == |es|
  {
    if es == [] then [] else [Quote(es[0].0) + [COLON] + es[0].1] + Entries(es[1..])
  }

  // -------------------------------------------------------------------------
  // Normal form: members sorted at every level
  // -------------------------------------------------------------------------

  function Normal(v: Json): Json
    decreases v
  {
    match v
    case Arr(es) => Arr(NormalAll(es))
    case Obj(ms) => Obj(SortByKey(NormalMembers(ms)))
    case _ => v
  }

  function NormalAll(es: seq<Json>): (r: seq<Json>)
    ensures |r| == |es| && forall i :: 0 <= i < |es| ==> r[i] == Normal(es[i])
    decreases es
  {
    if es == [] then [] else [Normal(es[0])] + NormalAll(es[1..])
  }

  function NormalMembers(ms: seq<(Text, Json)>): (r: seq<(Text, Json)>)
    ensures |r| == |ms|
    decreases ms
  {
    if ms == [] then []
    else
      assert ms[0].1 < ms[0];
      [(ms[0].0, Normal(ms[0].1))] + NormalMembers(ms[1..])
  }

  lemma {:induction false} NormalMembersAt(ms: seq<(Text, Json)>)
    ensures forall i :: 0 <= i < |ms| ==> NormalMembers(ms)[i] == (ms[i].0, Normal(ms[i].1))
    decreases |ms|
  {
    if ms != [] {
      NormalMembersAt(ms[1..]);
    }
  }

  predicate Sorted<T>(es: seq<(Text, T)>) {
    forall i, j :: 0 <= i < j < |es| ==> Less(es[i].0, es[j].0)
  }

  lemma {:induction false} InsertElements<T>(e: (Text, T), es: seq<(Text, T)>)
    ensures |Insert(e, es)| == |es| + 1
    ensures forall x :: x in Insert(e, es) <==> x == e || x in es
    decreases |es|
  {
    if es != [] && !Less(e.0, es[0].0) {
      InsertElements(e, es[1..]);
      assert forall x :: x in es <==> x == es[0] || x in es[1..];
    }
  }

  lemma {:induction false} SortElements<T>(es: seq<(Text, T)>)
    ensures |SortByKey(es)| == |es|
    ensures forall x :: x in SortByKey(es) <==> x in es
    decreases |es|
  {
    if es != [] {
      SortElements(es[1..]);
      InsertElements(es[0], SortByKey(es[1..]));
      assert forall x :: x in es <==> x == es[0] || x in es[1..];
    }
  }

  lemma InsertMember<T>(e: (Text, T), es: seq<(Text, T)>, x: (Text, T))
    requires x in Insert(e, es)
    ensures x == e || x in es
  {
    InsertElements(e, es);
  }

  lemma SortMember<T>(es: seq<(Text, T)>, x: (Text, T))
    requires x in SortByKey(es)
    ensures x in es
  {
    SortElements(es);
  }

  lemma {:induction false} InsertSorted<T>(e: (Text, T), es: seq<(Text, T)>)
    requires Sorted(es) && forall x :: x in es ==> x.0 != e.0
    ensures Sorted(Insert(e, es))
    decreases |es|
  {
    if es == [] {
    } else if Less(e.0, es[0].0) {
      forall i | 0 <= i < |es| ensures Less(e.0, es[i].0) {
        if i > 0 { LessTransitive(e.0, es[0].0, es[i].0); }
      }
    } else {
      assert es[0] in es;
      LessTotal(es[0].0, e.0);
      assert forall x :: x in es[1..] ==> x in es;
      InsertSorted(e, es[1..]);
      InsertElements(e, es[1..]);
      var r := Insert(e, es[1..]);
      forall i | 0 <= i < |r| ensures Less(es[0].0, r[i].0) {
        var x := r[i];
        assert x in r;
        if x != e {
          InsertMember(e, es[1..], x);
          var j :| 0 <= j < |es[1..]| && es[1..][j] == x;
          assert es[j + 1] == x;
        }
      }
    }
  }

  lemma {:induction false} SortSorted<T>(es: seq<(Text, T)>)
    requires DistinctKeys(es)
    ensures Sorted(SortByKey(es))
    decreases |es|
  {
    if es != [] {
      SortSorted(es[1..]);
      SortElements(es[1..]);
      var sorted := SortByKey(es[1..]);
      forall x | x in sorted ensures x.0 != es[0].0 {
        SortMember(es[1..], x);
        var j :| 0 <= j < |es[1..]| && es[1..][j] == x;
        assert es[j + 1] == x;
      }
      InsertSorted(es[0], sorted);
    }
  }

  lemma SameLeast<T>(a: seq<(Text, T)>, b: seq<(Text, T)>)
    requires a != [] && b != [] && Sorted(a) && Sorted(b) && forall x :: x in a <==> x in b
    ensures a[0] == b[0]
  {
    assert a[0] in a && b[0] in b;
    var j :| 0 <= j < |b| && b[j] == a[0];
    var i :| 0 <= i < |a| && a[i] == b[0];
    if i > 0 && j > 0 {
      LessTransitive(a[0].0, a[i].0, a[0].0);
      LessIrreflexive(a[0].0);
    }
  }

  /** A strictly sorted list is determined by its elements. */
  lemma {:induction false} SortedUnique<T>(a: seq<(Text, T)>, b: seq<(Text, T)>)
    requires Sorted(a) && Sorted(b) && forall x :: x in a <==> x in b
    ensures a == b
    decreases |a|
  {
    if b != [] {
      assert b[0] in a;
    }
    if a != [] {
      assert a[0] in b;
      SameLeast(a, b);
      SortedTail(a, b);
      SortedTail(b, a);
      assert Sorted(a[1..]) && Sorted(b[1..]);
      SortedUnique(a[1..], b[1..]);
      assert a == [a[0]] + a[1..] && b == [b[0]] + b[1..];
    }
  }

  lemma SortedTail<T>(a: seq<(Text, T)>, b: seq<(Text, T)>)
    requires a != [] && b != [] && a[0] == b[0] && Sorted(a) && forall x :: x in a ==> x in b
    ensures forall x :: x in a[1..] ==> x in b[1..]
  {
    forall x | x in a[1..] ensures x in b[1..] {
      var i :| 0 <= i < |a[1..]| && a[1..][i] == x;
      assert a[i + 1] == x && x in a;
      LessIrreflexive(x.0);
      var j :| 0 <= j < |b| && b[j] == x;
      assert b[1..][j - 1] == x;
    }
  }

  lemma {:induction false} SortOfSorted<T>(es: seq<(Text, T)>)
    requires Sorted(es)
    ensures SortByKey(es) == es
    decreases |es|
  {
    if |es| > 1 {
      SortOfSorted(es[1..]);
      assert Less(es[0].0, es[1..][0].0);
      assert es == [es[0]] + es[1..];
    } else if |es| == 1 {
      assert SortByKey(es[1..]) == [];
      assert es == [es[0]] + [];
    }
  }

  // -------------------------------------------------------------------------
  // Printing a normal form
  // -------------------------------------------------------------------------

  /** Members printed in the order given; lists carry their closing bracket. */
  function Print(v: Json): Text
    decreases v
  {
    match v
    case Arr(es) => [OPEN_BRACKET] + PrintElements(es)
    case Obj(ms) => [OPEN_BRACE] + PrintMembers(ms)
    case Num(n) => NumberText(n)
    case Str(s) => Quote(s)
    case _ => Keyword(v)
  }

  function PrintElements(es: seq<Json>): Text
    decreases es
  {
    if es == [] then [CLOSE_BRACKET]
    else Print(es[0]) + (if |es| == 1 then [CLOSE_BRACKET] else [COMMA] + PrintElements(es[1..]))
  }

  function PrintMembers(ms: seq<(Text, Json)>): Text
    decreases ms
  {
    if ms == [] then [CLOSE_BRACE]
    else
      assert ms[0].1 < ms[0];
      Quote(ms[0].0) + ([COLON] + (Print(ms[0].1) + (if |ms| == 1 then [CLOSE_BRACE] else [COMMA] + PrintMembers(ms[1..]))))
  }

  function Printed(ms: seq<(Text, Json)>): (es: seq<(Text, Text)>)
    ensures |es| == |ms|
    ensures forall i :: 0 <= i < |ms| ==> es[i] == (ms[i].0, Print(ms[i].1))
  {
    if ms == [] then [] else [(ms[0].0, Print(ms[0].1))] + Printed(ms[1..])
  }

  lemma {:induction false} InsertPrinted(e: (Text, Json), ms: seq<(Text, Json)>)
    ensures Printed(Insert(e, ms)) == Insert((e.0, Print(e.1)), Printed(ms))
    decreases |ms|
  {
    if ms != [] && !Less(e.0, ms[0].0) {
      InsertPrinted(e, ms[1..]);
    }
  }

  lemma {:induction false} SortPrinted(ms: seq<(Text, Json)>)
    ensures Printed(SortByKey(ms)) == SortByKey(Printed(ms))
    decreases |ms|
  {
    if ms != [] {
      SortPrinted(ms[1..]);
      InsertPrinted(ms[0], SortByKey(ms[1..]));
    }
  }

  lemma {:induction false} JoinElements(es: seq<Json>, ts: seq<Text>)
    requires |ts| == |es| && forall i :: 0 <= i < |es| ==> ts[i] == Print(es[i])
    ensures Join(ts) + [CLOSE_BRACKET] == PrintElements(es)
    decreases |es|
  {
    if |es| > 1 {
      JoinElements(es[1..], ts[1..]);
      assert Join(ts) + [CLOSE_BRACKET] == ts[0] + ([COMMA] + (Join(ts[1..]) + [CLOSE_BRACKET]));
    }
  }

  lemma MemberText(k: Text, p: Text, more: Text)
    ensures (k + [COLON] + p) + [CLOSE_BRACE] == k + ([COLON] + (p + [CLOSE_BRACE]))
    ensures (k + [COLON] + p + ([COMMA] + more)) + [CLOSE_BRACE] == k + ([COLON] + (p + ([COMMA] + (more + [CLOSE_BRACE]))))
  {
  }

  lemma {:induction false} JoinMembers(ms: seq<(Text, Json)>)
    ensures Join(Entries(Printed(ms))) + [CLOSE_BRACE] == PrintMembers(ms)
    decreases |ms|
  {
    if |ms| > 0 {
      hide Print, Quote;
      JoinMembers(ms[1..]);
      var ts := Entries(Printed(ms));
      assert ts[0] == Quote(ms[0].0) + [COLON] + Print(ms[0].1);
      assert ts[1..] == Entries(Printed(ms[1..]));
      MemberText(Quote(ms[0].0), Print(ms[0].1), Join(ts[1..]));
    }
  }

  /** Canonical text is the normal form printed in order. */
  lemma {:induction false} CanonicalIsPrint(v: Json)
    ensures Canonicalize(v) == Print(Normal(v))
    decreases v
  {
    match v
    case Arr(es) =>
      TextsPrinted(es);
      JoinElements(NormalAll(es), Texts(es));
      assert [OPEN_BRACKET] + Join(Texts(es)) + [CLOSE_BRACKET] == [OPEN_BRACKET] + (Join(Texts(es)) + [CLOSE_BRACKET]);
    case Obj(ms) =>
      KeyedPrinted(ms);
      SortPrinted(NormalMembers(ms));
      JoinMembers(SortByKey(NormalMembers(ms)));
      var body := Join(Entries(SortByKey(KeyedTexts(ms))));
      assert [OPEN_BRACE] + body + [CLOSE_BRACE] == [OPEN_BRACE] + (body + [CLOSE_BRACE]);
    case _ =>
  }

  lemma {:induction false} TextsPrinted(es: seq<Json>)
    ensures forall i :: 0 <= i < |es| ==> Texts(es)[i] == Print(NormalAll(es)[i])
    decreases es
  {
    if es != [] {
      CanonicalIsPrint(es[0]);
      TextsPrinted(es[1..]);
    }
  }

  lemma {:induction false} KeyedPrinted(ms: seq<(Text, Json)>)
    ensures KeyedTexts(ms) == Printed(NormalMembers(ms))
    decreases ms
  {
    if ms != [] {
      assert ms[0].1 < ms[0];
      CanonicalIsPrint(ms[0].1);
      KeyedPrinted(ms[1..]);
    }
  }

  // -------------------------------------------------------------------------
  // Parsing compact JSON
  // -------------------------------------------------------------------------

  function ParseString(t: Text): (r: Option<(Text, Text)>)
    ensures r.Some? ==> |r.value.1| < |t|
  {
    if t != [] && t[0] == QUOTE then ParseBody(t[1..]) else None
  }

  function ParseKeyword(t: Text, v: Json): (r: Option<(Json, Text)>)
    requires v.Null? || v.Bool?
    ensures r.Some? ==> |r.value.1| < |t|
  {
    if Keyword(v) <= t then Some((v, t[|Keyword(v)|..])) else None
  }

  function ParseValue(t: Text): (r: Option<(Json, Text)>)
    ensures r.Some? ==> |r.value.1| < |t|
    decreases |t|, 1
  {
    if t == [] then None
    else if t[0] == OPEN_BRACKET then
      if |t| > 1 && t[1] == CLOSE_BRACKET then Some((Arr([]), t[2..]))
      else match ParseElements(t[1..])
        case None => None
        case Some((es, rest)) => Some((Arr(es), rest))
    else if t[0] == OPEN_BRACE then
      if |t| > 1 && t[1] == CLOSE_BRACE then Some((Obj([]), t[2..]))
      else match ParseMembers(t[1..])
        case None => None
        case Some((ms, rest)) => Some((Obj(ms), rest))
    else if t[0] == QUOTE then
      match ParseString(t)
      case None => None
      case Some((s, rest)) => Some((Str(s), rest))
    else if t[0] == 110 then ParseKeyword(t, Null)
    else if t[0] == 116 then ParseKeyword(t, Bool(true))
    else if t[0] == 102 then ParseKeyword(t, Bool(false))
    else match ParseNumber(t)
      case None => None
      case Some((n, rest)) => Some((Num(n), rest))
  }

  function ParseElements(t: Text): (r: Option<(seq<Json>, Text)>)
    ensures r.Some? ==> |r.value.1| < |t|
    decreases |t|, 2
  {
    match ParseValue(t)
    case None => None
    case Some((v, rest)) =>
      if rest == [] then None
      else if rest[0] == CLOSE_BRACKET then Some(([v], rest[1..]))
      else if rest[0] == COMMA then
        match ParseElements(rest[1..])
        case None => None
        case Some((vs, after)) => Some(([v] + vs, after))
      else None
  }

  function ParseMembers(t: Text): (r: Option<(seq<(Text, Json)>, Text)>)
    ensures r.Some? ==> |r.value.1| < |t|
    decreases |t|, 2
  {
    match ParseString(t)
    case None => None
    case Some((k, rest)) =>
      if rest == [] || rest[0] != COLON then None
      else match ParseValue(rest[1..])
        case None => None
        case Some((v, more)) =>
          if more == [] then None
          else if more[0] == CLOSE_BRACE then Some(([(k, v)], more[1..]))
          else if more[0] == COMMA then
            match ParseMembers(more[1..])
            case None => None
            case Some((ms, after)) => Some(([(k, v)] + ms, after))
          else None
  }

  /** JSON.parse of a compact text: one value and nothing after it. */
  function Parse(t: Text): Option<Json> {
    match ParseValue(t)
    case None => None
    case Some((v, rest)) => if rest == [] then Some(v) else None
  }

  // -------------------------------------------------------------------------
  // The parser undoes the printer
  // -------------------------------------------------------------------------

  lemma StringRoundTrip(s: Text, rest: Text)
    ensures ParseString(Quote(s) + rest) == Some((s, rest))
    ensures Quote(s)[0] == QUOTE
  {
    var t := Quote(s) + rest;
    assert t[1..] == Escape(s) + ([QUOTE] + rest);
    BodyRoundTrip(s, rest);
  }

  lemma KeywordRoundTrip(v: Json, rest: Text)
    requires v.Null? || v.Bool?
    ensures ParseKeyword(Keyword(v) + rest, v) == Some((v, rest))
  {
    assert (Keyword(v) + rest)[|Keyword(v)|..] == rest;
  }

  /** What can follow a value: nothing, a comma or a closing bracket. */
  predicate Delimited(rest: Text) {
    rest == [] || rest[0] == COMMA || rest[0] == CLOSE_BRACKET || rest[0] == CLOSE_BRACE
  }

  lemma PrintStart(v: Json)
    ensures Print(v) != [] && Print(v)[0] != CLOSE_BRACKET
  {
    if v.Num? {
      NumberRoundTrip(v.n, []);
    }
  }

  lemma {:induction false} ValueRoundTrip(v: Json, rest: Text)
    requires Delimited(rest)
    ensures ParseValue(Print(v) + rest) == Some((v, rest))
    decreases v, 1
  {
    hide ParseString, ParseNumber, ParseElements, ParseMembers, ParseKeyword, Quote, NumberText, Keyword;
    var t := Print(v) + rest;
    match v
    case Arr(es) => ArrayRoundTrip(es, rest);
    case Obj(ms) => ObjectRoundTrip(ms, rest);
    case Num(n) =>
      NumberRoundTrip(n, rest);
      assert t[0] == NumberText(n)[0];
    case Str(s) =>
      StringRoundTrip(s, rest);
      assert t[0] == QUOTE;
    case Null => ScalarRoundTrip(v, rest);
    case Bool(_) => ScalarRoundTrip(v, rest);
  }

  lemma ScalarRoundTrip(v: Json, rest: Text)
    requires v.Null? || v.Bool?
    ensures ParseValue(Keyword(v) + rest) == Some((v, rest))
  {
    KeywordRoundTrip(v, rest);
    assert (Keyword(v) + rest)[0] == Keyword(v)[0];
  }

  lemma {:induction false} ArrayRoundTrip(es: seq<Json>, rest: Text)
    ensures ParseValue([OPEN_BRACKET] + PrintElements(es) + rest) == Some((Arr(es), rest))
    decreases es, 1
  {
    hide ParseElements;
    var t := [OPEN_BRACKET] + PrintElements(es) + rest;
    if es == [] {
      assert t[2..] == rest;
    } else {
      ElementsRoundTrip(es, rest);
      PrintStart(es[0]);
      assert t[1..] == PrintElements(es) + rest;
      assert t[1] == Print(es[0])[0];
    }
  }

  lemma {:induction false} ElementsRoundTrip(es: seq<Json>, rest: Text)
    requires es != []
    ensures ParseElements(PrintElements(es) + rest) == Some((es, rest))
    decreases es, 0
  {
    hide ParseValue, Print;
    if |es| == 1 {
      var tail := [CLOSE_BRACKET] + rest;
      ValueRoundTrip(es[0], tail);
      assert PrintElements(es) + rest == Print(es[0]) + tail;
      assert tail[1..] == rest;
      assert es == [es[0]];
    } else {
      var tail := [COMMA] + (PrintElements(es[1..]) + rest);
      ValueRoundTrip(es[0], tail);
      ElementsRoundTrip(es[1..], rest);
      assert PrintElements(es) + rest == Print(es[0]) + tail;
      assert tail[1..] == PrintElements(es[1..]) + rest;
      assert es == [es[0]] + es[1..];
    }
  }

  lemma {:induction false} ObjectRoundTrip(ms: seq<(Text, Json)>, rest: Text)
    ensures ParseValue([OPEN_BRACE] + PrintMembers(ms) + rest) == Some((Obj(ms), rest))
    decreases ms, 1
  {
    hide ParseMembers;
    var t := [OPEN_BRACE] + PrintMembers(ms) + rest;
    if ms == [] {
      assert t[2..] == rest;
    } else {
      MembersRoundTrip(ms, rest);
      assert t[1..] == PrintMembers(ms) + rest;
      assert t[1] == QUOTE;
    }
  }

  lemma MemberStep(k: Text, v: Json, tail: Text)
    requires ParseValue(Print(v) + tail) == Some((v, tail)) && tail != []
    ensures var t := Quote(k) + ([COLON] + (Print(v) + tail));
            && (tail[0] == CLOSE_BRACE ==> ParseMembers(t) == Some(([(k, v)], tail[1..])))
            && (tail[0] == COMMA && ParseMembers(tail[1..]).Some? ==>
                  ParseMembers(t) == Some(([(k, v)] + ParseMembers(tail[1..]).value.0, ParseMembers(tail[1..]).value.1)))
  {
    hide ParseValue, Print, ParseString, Quote;
    var after := [COLON] + (Print(v) + tail);
    StringRoundTrip(k, after);
    assert after[1..] == Print(v) + tail;
  }

  lemma TextAssoc(k: Text, p: Text, x: Text, rest: Text)
    ensures k + ([COLON] + (p + x)) + rest == k + ([COLON] + (p + (x + rest)))
  {
  }

  /** What follows a member's value inside its object. */
  function MemberTail(ms: seq<(Text, Json)>): Text
    requires ms != []
  {
    if |ms| == 1 then [CLOSE_BRACE] else [COMMA] + PrintMembers(ms[1..])
  }

  lemma MembersText(ms: seq<(Text, Json)>, rest: Text)
    requires ms != []
    ensures PrintMembers(ms) + rest == Quote(ms[0].0) + ([COLON] + (Print(ms[0].1) + (MemberTail(ms) + rest)))
  {
    hide Quote, Print;
    TextAssoc(Quote(ms[0].0), Print(ms[0].1), MemberTail(ms), rest);
  }

  lemma {:induction false} MembersRoundTrip(ms: seq<(Text, Json)>, rest: Text)
    requires ms != []
    ensures ParseMembers(PrintMembers(ms) + rest) == Some((ms, rest))
    decreases ms, 0
  {
    hide ParseValue, Print, ParseMembers, Quote, PrintMembers;
    var k, v := ms[0].0, ms[0].1;
    assert ms[0].1 < ms[0];
    MembersText(ms, rest);
    var tail := MemberTail(ms) + rest;
    ValueRoundTrip(v, tail);
    MemberStep(k, v, tail);
    if |ms| == 1 {
      assert tail[1..] == rest;
      assert ms == [(k, v)];
    } else {
      MembersRoundTrip(ms[1..], rest);
      assert tail[1..] == PrintMembers(ms[1..]) + rest;
      assert ms == [(k, v)] + ms[1..];
    }
  }

  // -------------------------------------------------------------------------
  // Main results
  // -------------------------------------------------------------------------

  /** Parsing canonical text gives the value with its members sorted. */
  lemma ParseCanonical(v: Json)
    ensures Parse(Canonicalize(v)) == Some(Normal(v))
  {
    CanonicalIsPrint(v);
    ValueRoundTrip(Normal(v), []);
    assert Print(Normal(v)) + [] == Print(Normal(v));
  }

  lemma {:induction false} NormalSame(a: Json, b: Json)
    requires WellFormed(a) && WellFormed(b) && Same(a, b)
    ensures Normal(a) == Normal(b)
    decreases a
  {
    match a
    case Arr(es) =>
      forall i | 0 <= i < |es| ensures Normal(es[i]) == Normal(b.elems[i]) {
        NormalSame(es[i], b.elems[i]);
      }
      assert NormalAll(es) == NormalAll(b.elems);
    case Obj(ms) =>
      var ns := b.members;
      NormalMembersAt(ns);
      forall i | 0 <= i < |ms| ensures (ms[i].0, Normal(ms[i].1)) in NormalMembers(ns) {
        var j :| 0 <= j < |ns| && ns[j].0 == ms[i].0 && Same(ms[i].1, ns[j].1);
        NormalSame(ms[i].1, ns[j].1);
        assert NormalMembers(ns)[j] == (ms[i].0, Normal(ms[i].1));
      }
      SameMembersSort(ms, ns);
    case _ =>
  }

  /** Injective and included at equal length means the same elements. */
  lemma {:induction false} IncludedIsAll<T>(a: seq<(Text, T)>, b: seq<(Text, T)>)
    requires DistinctKeys(a) && DistinctKeys(b) && |a| == |b| && forall x :: x in a ==> x in b
    ensures forall x :: x in b ==> x in a
    decreases |a|
  {
    if a != [] {
      assert a[0] in a;
      var j :| 0 <= j < |b| && b[j] == a[0];
      var b' := b[..j] + b[j + 1..];
      assert forall x :: x in b ==> x == a[0] || x in b';
      forall x | x in a[1..] ensures x in b' {
        var i :| 0 <= i < |a[1..]| && a[1..][i] == x;
        assert a[i + 1] == x && x in a && x.0 != a[0].0;
        assert x in b;
      }
      IncludedIsAll(a[1..], b');
      assert forall x :: x in a <==> x == a[0] || x in a[1..];
    }
  }

  lemma SameMembersSort(ms: seq<(Text, Json)>, ns: seq<(Text, Json)>)
    requires DistinctKeys(ms) && DistinctKeys(ns) && |ms| == |ns|
    requires forall i :: 0 <= i < |ms| ==> (ms[i].0, Normal(ms[i].1)) in NormalMembers(ns)
    ensures SortByKey(NormalMembers(ms)) == SortByKey(NormalMembers(ns))
  {
    var a, b := NormalMembers(ms), NormalMembers(ns);
    NormalMembersAt(ms);
    NormalMembersAt(ns);
    assert DistinctKeys(a) && DistinctKeys(b);
    forall x | x in a ensures x in b {
      var i :| 0 <= i < |a| && a[i] == x;
    }
    IncludedIsAll(a, b);
    SortElements(a);
    SortElements(b);
    SortSorted(a);
    SortSorted(b);
    SortedUnique(SortByKey(a), SortByKey(b));
  }

  lemma {:induction false} SameFromNormal(a: Json, b: Json)
    requires Normal(a) == Normal(b)
    ensures Same(a, b)
    decreases a
  {
    match a
    case Arr(es) =>
      assert NormalAll(es) == NormalAll(b.elems);
      forall i | 0 <= i < |es| ensures Same(es[i], b.elems[i]) {
        SameFromNormal(es[i], b.elems[i]);
      }
    case Obj(ms) =>
      var ns := b.members;
      SortElements(NormalMembers(ms));
      SortElements(NormalMembers(ns));
      NormalMembersAt(ms);
      NormalMembersAt(ns);
      forall i | 0 <= i < |ms|
        ensures exists j :: 0 <= j < |ns| && ns[j].0 == ms[i].0 && Same(ms[i].1, ns[j].1)
      {
        var x := NormalMembers(ms)[i];
        assert x in NormalMembers(ms);
        assert x in SortByKey(NormalMembers(ms));
        assert x in NormalMembers(ns);
        var j :| 0 <= j < |ns| && NormalMembers(ns)[j] == x;
        SameFromNormal(ms[i].1, ns[j].1);
      }
    case _ =>
  }

  /** Equal canonical texts are exactly equality up to key order. */
  lemma CanonicalIdentifies(a: Json, b: Json)
    requires WellFormed(a) && WellFormed(b)
    ensures Canonicalize(a) == Canonicalize(b) <==> Same(a, b)
  {
    ParseCanonical(a);
    ParseCanonical(b);
    CanonicalIsPrint(a);
    CanonicalIsPrint(b);
    if Canonicalize(a) == Canonicalize(b) {
      SameFromNormal(a, b);
    }
    if Same(a, b) {
      NormalSame(a, b);
    }
  }

  lemma {:induction false} NormalIdempotent(v: Json)
    requires WellFormed(v)
    ensures Normal(Normal(v)) == Normal(v)
    decreases v
  {
    match v
    case Arr(es) =>
      forall i | 0 <= i < |es| ensures Normal(Normal(es[i])) == Normal(es[i]) {
        NormalIdempotent(es[i]);
      }
      assert NormalAll(NormalAll(es)) == NormalAll(es);
    case Obj(ms) =>
      var a := NormalMembers(ms);
      var s := SortByKey(a);
      SortElements(a);
      NormalMembersAt(ms);
      NormalMembersAt(s);
      assert DistinctKeys(a);
      SortSorted(a);
      forall i | 0 <= i < |s| ensures NormalMembers(s)[i] == s[i] {
        assert s[i] in s;
        assert s[i] in a;
        var j :| 0 <= j < |a| && a[j] == s[i];
        NormalIdempotent(ms[j].1);
      }
      assert NormalMembers(s) == s;
      SortOfSorted(s);
    case _ =>
  }

  /** Canonicalizing the parse of a canonical text gives that text back. */
  lemma CanonicalFixpoint(v: Json)
    requires WellFormed(v)
    ensures Parse(Canonicalize(v)).Some? && Canonicalize(Parse(Canonicalize(v)).value) == Canonicalize(v)
  {
    ParseCanonical(v);
    NormalIdempotent(v);
    CanonicalIsPrint(v);
    CanonicalIsPrint(Normal(v));
  }
}
