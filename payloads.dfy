/**
 * `Requester.Payload`: a request body with its content type, and the two
 * builders the client uses, `plain` and `xWwwFormUrlencoded`.
 */
module Payloads {
  import opened Basics
  import opened Text
  import UrlComponent
  import Utf8

  const X_WWW_FORM_URLENCODED: string := "application/x-www-form-urlencoded"
  const TEXT_PLAIN: string := "text/plain"

  datatype Payload = Payload(contentType: string, body: string)

  /** `Payload.plain(text)`: the text itself, labelled as plain text. */
  function Plain(text: string): (p: Payload)
    ensures p.contentType == TEXT_PLAIN && p.body == text
    ensures p.contentType != X_WWW_FORM_URLENCODED
  {
    Payload(TEXT_PLAIN, text)
  }

  // ---------------------------------------------------------------------------
  // The fields of a form: positional pairs collected into a HashMap
  // ---------------------------------------------------------------------------

  /** The complete pairs of an alternating key/value list; an unpaired last entry has none. */
  function Pairs(entries: seq<string>): (r: seq<(string, string)>)
    ensures |r| == |entries| / 2
    ensures forall j :: 0 <= j < |r| ==> r[j] == (entries[2 * j], entries[2 * j + 1])
  {
    seq(|entries| / 2, j requires 0 <= j < |entries| / 2 => (entries[2 * j], entries[2 * j + 1]))
  }

  /** The map left by `put`ting the pairs in order: a later key overwrites an earlier one. */
  function Collect(ps: seq<(string, string)>): (m: map<string, string>)
    ensures ps != [] ==> ps[|ps| - 1].0 in m
  {
    if ps == [] then map[] else Collect(ps[..|ps| - 1])[ps[|ps| - 1].0 := ps[|ps| - 1].1]
  }

  /** The HashMap `xWwwFormUrlencoded` fills from its arguments. */
  function FormFields(entries: seq<string>): (fields: map<string, string>)
    ensures fields == map[] <==> |entries| < 2
  {
    Collect(Pairs(entries))
  }

  /** The keys of the collected map are exactly the keys of the pairs. */
  lemma {:induction false} CollectKeys(ps: seq<(string, string)>, k: string)
    ensures k in Collect(ps) <==> exists j :: 0 <= j < |ps| && ps[j].0 == k
    decreases |ps|
  {
    if ps != [] {
      var init := ps[..|ps| - 1];
      CollectKeys(init, k);
      if k in Collect(init) {
        var j :| 0 <= j < |init| && init[j].0 == k;
        assert ps[j].0 == k;
      }
      if exists j :: 0 <= j < |ps| && ps[j].0 == k {
        var j :| 0 <= j < |ps| && ps[j].0 == k;
        if j < |ps| - 1 { assert init[j].0 == k; }
      }
    }
  }

  /** A key's value is the value of its last pair. */
  lemma {:induction false} CollectLastWins(ps: seq<(string, string)>, j: int)
    requires 0 <= j < |ps|
    requires forall i :: j < i < |ps| ==> ps[i].0 != ps[j].0
    ensures ps[j].0 in Collect(ps) && Collect(ps)[ps[j].0] == ps[j].1
    decreases |ps|
  {
    if j < |ps| - 1 {
      var init := ps[..|ps| - 1];
      assert forall i :: j < i < |init| ==> init[i].0 != init[j].0 by {
        forall i | j < i < |init| ensures init[i].0 != init[j].0 {
          assert init[i] == ps[i];
        }
      }
      CollectLastWins(init, j);
    }
  }

  /** Every key given in a complete pair is a field, and no other string is. */
  lemma FormFieldsKeys(entries: seq<string>, k: string)
    ensures k in FormFields(entries) <==> exists j :: 0 <= j < |entries| / 2 && Pairs(entries)[j].0 == k
  {
    CollectKeys(Pairs(entries), k);
  }

  /** For a duplicate key the field holds the value given last (`HashMap.put` overwrites). */
  lemma FormFieldsLastWins(entries: seq<string>, j: int)
    requires 0 <= j < |entries| / 2
    requires forall i :: j < i < |entries| / 2 ==> Pairs(entries)[i].0 != entries[2 * j]
    ensures entries[2 * j] in FormFields(entries)
    ensures FormFields(entries)[entries[2 * j]] == entries[2 * j + 1]
  {
    CollectLastWins(Pairs(entries), j);
  }

  /** An odd number of entries drops the last one, which has no partner. */
  lemma OddCountDropsLast(entries: seq<string>)
    requires |entries| % 2 == 1
    ensures FormFields(entries) == FormFields(entries[..|entries| - 1])
  {
    assert Pairs(entries) == Pairs(entries[..|entries| - 1]);
  }

  /** Fewer than two entries give no field at all. */
  lemma NoPairNoFields(entries: seq<string>)
    requires |entries| < 2
    ensures FormFields(entries) == map[]
  {
    assert Pairs(entries) == [];
  }

  // ---------------------------------------------------------------------------
  // The body: one `key=value` segment per field, in HashMap iteration order
  // ---------------------------------------------------------------------------

  /** One field as the body writes it: `encode(key)=encode(value)`. */
  function Segment(key: string, value: string): (r: string)
    ensures '&' !in r && |r| > 0
  {
    UrlComponent.Encode(key) + "=" + UrlComponent.Encode(value)
  }

  /** `keys` lists every key of `m` exactly once; HashMap iteration yields such a list, in an unspecified order. */
  ghost predicate IsOrdering(keys: seq<string>, m: map<string, string>) {
    && (forall i :: 0 <= i < |keys| ==> keys[i] in m)
    && (forall k :: k in m ==> k in keys)
    && (forall i, j :: 0 <= i < j < |keys| ==> keys[i] != keys[j])
  }

  /** The segments of the fields of `m`, taken in the order of `keys`. */
  function Segments(keys: seq<string>, m: map<string, string>): (r: seq<string>)
    requires forall i :: 0 <= i < |keys| ==> keys[i] in m
    ensures |r| == |keys|
  {
    seq(|keys|, i requires 0 <= i < |keys| => Segment(keys[i], m[keys[i]]))
  }

  lemma SegmentsSnoc(keys: seq<string>, k: string, m: map<string, string>)
    requires forall i :: 0 <= i < |keys| ==> keys[i] in m
    requires k in m
    ensures Segments(keys + [k], m) == Segments(keys, m) + [Segment(k, m[k])]
  {
    assert forall i :: 0 <= i < |keys| ==> (keys + [k])[i] == keys[i];
  }

  /** The `&`-join of the segments of `m` in the order of `keys`. */
  function FormBody(keys: seq<string>, m: map<string, string>): string
    requires forall i :: 0 <= i < |keys| ==> keys[i] in m
  {
    Join("&", Segments(keys, m))
  }

  /** `body` is the form body of `m` for some iteration order of its keys. */
  ghost predicate IsFormBody(body: string, m: map<string, string>) {
    exists keys :: IsOrdering(keys, m) && body == FormBody(keys, m)
  }

  /** An ordering has as many entries as the map has keys. */
  lemma {:induction false} OrderingLength(keys: seq<string>, m: map<string, string>)
    requires IsOrdering(keys, m)
    ensures |keys| == |m|
    decreases |keys|
  {
    if keys == [] {
      assert m.Keys == {};
    } else {
      var last := keys[|keys| - 1];
      var init := keys[..|keys| - 1];
      var rest := m - {last};
      assert rest.Keys == m.Keys - {last};
      forall k | k in rest ensures k in init {
        assert k in keys && k != last;
        var i :| 0 <= i < |keys| && keys[i] == k;
        assert i < |keys| - 1 && init[i] == k;
      }
      assert IsOrdering(init, rest);
      OrderingLength(init, rest);
    }
  }

  // ---------------------------------------------------------------------------
  // `xWwwFormUrlencoded` and its two loops
  // ---------------------------------------------------------------------------

  function Min(a: int, b: int): int { if a < b then a else b }

  /** The first loop: `data.put(entries[i], entries[i + 1])` for i = 0, 2, 4, ... */
  method PutPairs(entries: seq<string>) returns (data: map<string, string>)
    ensures data == FormFields(entries)
  {
    data := map[];
    var i := 0;
    while i < |entries|
      invariant 0 <= i <= |entries| + 1 && i % 2 == 0
      invariant data == Collect(Pairs(entries)[..Min(i / 2, |entries| / 2)])
    {
      PutStep(entries, i);
      if i + 1 < |entries| {
        data := data[entries[i] := entries[i + 1]];
      }
      // otherwise `entries[i + 1]` is out of bounds: the exception is caught and the entry ignored
      i := i + 2;
    }
    assert Pairs(entries)[..|entries| / 2] == Pairs(entries);
  }

  /** One iteration of the first loop: a complete pair is put, an unpaired last entry changes nothing. */
  lemma PutStep(entries: seq<string>, i: int)
    requires 0 <= i < |entries| && i % 2 == 0
    ensures i + 1 < |entries| ==>
      Collect(Pairs(entries)[..Min((i + 2) / 2, |entries| / 2)])
        == Collect(Pairs(entries)[..Min(i / 2, |entries| / 2)])[entries[i] := entries[i + 1]]
    ensures i + 1 >= |entries| ==>
      Collect(Pairs(entries)[..Min((i + 2) / 2, |entries| / 2)]) == Collect(Pairs(entries)[..Min(i / 2, |entries| / 2)])
  {
    if i + 1 < |entries| {
      ghost var done := Pairs(entries)[..i / 2 + 1];
      assert done[..|done| - 1] == Pairs(entries)[..i / 2];
      assert done[|done| - 1] == (entries[i], entries[i + 1]);
      assert Min((i + 2) / 2, |entries| / 2) == i / 2 + 1;
    } else {
      assert Min((i + 2) / 2, |entries| / 2) == Min(i / 2, |entries| / 2);
    }
  }

  /**
   * The second loop: append `encode(k)=encode(v)&` for every entry of the map.
   * The HashMap's iteration order is unspecified, so each step takes any key not
   * yet visited; `order` records the order the run happened to take.
   */
  method AppendSegments(data: map<string, string>) returns (builder: string, ghost order: seq<string>)
    ensures IsOrdering(order, data)
    ensures builder == Terminated("&", Segments(order, data))
    ensures builder == "" <==> |data| == 0
    ensures builder != "" ==> builder[|builder| - 1] == '&'
  {
    builder := "";
    order := [];
    var remaining := data.Keys;
    while remaining != {}
      invariant PartlyVisited(order, remaining, data)
      invariant builder == Terminated("&", Segments(order, data))
      decreases remaining
    {
      var k :| k in remaining;
      VisitOne(order, remaining, data, k);
      TerminatedSnoc("&", Segments(order, data), Segment(k, data[k]));
      builder := builder + Segment(k, data[k]) + "&";
      order := order + [k];
      remaining := remaining - {k};
    }
    OrderingLength(order, data);
  }

  /** Midway through iterating `m`: `order` lists the visited keys once each, `remaining` the others. */
  ghost predicate PartlyVisited(order: seq<string>, remaining: set<string>, m: map<string, string>) {
    && remaining <= m.Keys
    && (forall i :: 0 <= i < |order| ==> order[i] in m && order[i] !in remaining)
    && (forall k :: k in m ==> k in order || k in remaining)
    && (forall i, j :: 0 <= i < j < |order| ==> order[i] != order[j])
  }

  /** Visiting one more key keeps the iteration state consistent and adds that key's segment. */
  lemma VisitOne(order: seq<string>, remaining: set<string>, m: map<string, string>, k: string)
    requires PartlyVisited(order, remaining, m) && k in remaining
    ensures PartlyVisited(order + [k], remaining - {k}, m)
    ensures Segments(order + [k], m) == Segments(order, m) + [Segment(k, m[k])]
  {
    SegmentsSnoc(order, k, m);
  }

  /** Raised by `StringBuilder.deleteCharAt` at a position outside the builder. */
  datatype BuildError = StringIndexOutOfBounds(index: int)

  /**
   * `Payload.xWwwFormUrlencoded(entries)` as written. No entries give an empty
   * body. Otherwise the body is the `&`-join of one segment per field, in an
   * unspecified order; the trailing `&` is removed with `deleteCharAt(length - 1)`,
   * which fails on the empty builder that a single entry leaves.
   */
  method XWwwFormUrlencoded(entries: seq<string>) returns (r: Result<Payload, BuildError>)
    ensures r.Failure? <==> |entries| == 1
    ensures r.Failure? ==> r.error == StringIndexOutOfBounds(-1)
    ensures r.Success? ==> r.value.contentType == X_WWW_FORM_URLENCODED
    ensures |entries| == 0 ==> r == Success(Payload(X_WWW_FORM_URLENCODED, ""))
    ensures r.Success? ==> IsFormBody(r.value.body, FormFields(entries))
  {
    if |entries| == 0 {
      assert IsOrdering([], FormFields(entries)) && FormBody([], FormFields(entries)) == "";
      return Success(Payload(X_WWW_FORM_URLENCODED, ""));
    }
    var data := PutPairs(entries);
    var builder, order := AppendSegments(data);
    TerminatedIsJoinPlusSep("&", Segments(order, data));
    if |entries| == 1 {
      assert data == map[] by { NoPairNoFields(entries); }
      assert order == [];
    } else {
      assert |order| > 0 by {
        assert Pairs(entries) != [];
        var k := Pairs(entries)[|Pairs(entries)| - 1].0;
        assert k in data && k in order;
      }
    }
    if |builder| == 0 {
      r := Failure(StringIndexOutOfBounds(|builder| - 1));
    } else {
      var body := builder[..|builder| - 1];
      assert body == FormBody(order, data);
      r := Success(Payload(X_WWW_FORM_URLENCODED, body));
    }
  }

  /** The same builder with the evidently intended guard: an empty builder loses no character. */
  method XWwwFormUrlencodedGuarded(entries: seq<string>) returns (p: Payload)
    ensures p.contentType == X_WWW_FORM_URLENCODED
    ensures |entries| < 2 ==> p.body == ""
    ensures IsFormBody(p.body, FormFields(entries))
  {
    var data := PutPairs(entries);
    var builder, order := AppendSegments(data);
    TerminatedIsJoinPlusSep("&", Segments(order, data));
    if |entries| < 2 {
      assert data == map[] by { NoPairNoFields(entries); }
      assert order == [];
    }
    if |builder| > 0 {
      builder := builder[..|builder| - 1];
    }
    assert builder == FormBody(order, data);
    p := Payload(X_WWW_FORM_URLENCODED, builder);
  }

  // ---------------------------------------------------------------------------
  // Reading a form body back
  // ---------------------------------------------------------------------------

  /** `encodedKey=encodedValue`, decoded to the key's and the value's bytes. */
  function DecodeSegment(segment: string): Option<(seq<Utf8.byte>, seq<Utf8.byte>)> {
    var kv := Split(segment, '=');
    if |kv| != 2 then None
    else match (UrlComponent.Decode(kv[0]), UrlComponent.Decode(kv[1]))
      case (Some(k), Some(v)) => Some((k, v))
      case _ => None
  }

  function DecodeSegments(segments: seq<string>): Option<seq<(seq<Utf8.byte>, seq<Utf8.byte>)>> {
    if segments == [] then Some([])
    else match (DecodeSegment(segments[0]), DecodeSegments(segments[1..]))
      case (Some(p), Some(ps)) => Some([p] + ps)
      case _ => None
  }

  /** Form-decoding of a whole body: split on `&`, then each segment on `=`. The empty body has no fields. */
  function DecodeForm(body: string): Option<seq<(seq<Utf8.byte>, seq<Utf8.byte>)>> {
    if body == "" then Some([]) else DecodeSegments(Split(body, '&'))
  }

  /** The UTF-8 bytes of each key of `m` and of its value, in the order of `keys`. */
  function FieldBytes(keys: seq<string>, m: map<string, string>): (r: seq<(seq<Utf8.byte>, seq<Utf8.byte>)>)
    requires forall i :: 0 <= i < |keys| ==> keys[i] in m
    ensures |r| == |keys|
    ensures forall i :: 0 <= i < |keys| ==> r[i] == (Utf8.Encode(keys[i]), Utf8.Encode(m[keys[i]]))
  {
    if keys == [] then [] else [(Utf8.Encode(keys[0]), Utf8.Encode(m[keys[0]]))] + FieldBytes(keys[1..], m)
  }

  /** A segment decodes to the UTF-8 bytes of its key and of its value. */
  lemma DecodeSegmentOf(key: string, value: string)
    ensures DecodeSegment(Segment(key, value)) == Some((Utf8.Encode(key), Utf8.Encode(value)))
  {
    var ek, ev := UrlComponent.Encode(key), UrlComponent.Encode(value);
    SplitJoin([ek, ev], '=');
    assert Join("=", [ek, ev]) == Segment(key, value);
    UrlComponent.DecodeEncode(key);
    UrlComponent.DecodeEncode(value);
  }

  /** Segments that decode one by one decode together, in order. */
  lemma {:induction false} DecodeEach(segments: seq<string>, fields: seq<(seq<Utf8.byte>, seq<Utf8.byte>)>)
    requires |segments| == |fields|
    requires forall i :: 0 <= i < |segments| ==> DecodeSegment(segments[i]) == Some(fields[i])
    ensures DecodeSegments(segments) == Some(fields)
    decreases |segments|
  {
    if segments != [] {
      DecodeEach(segments[1..], fields[1..]);
      assert [fields[0]] + fields[1..] == fields;
    }
  }

  lemma DecodeSegmentsOf(keys: seq<string>, m: map<string, string>)
    requires forall i :: 0 <= i < |keys| ==> keys[i] in m
    ensures DecodeSegments(Segments(keys, m)) == Some(FieldBytes(keys, m))
  {
    var segs, fields := Segments(keys, m), FieldBytes(keys, m);
    forall i | 0 <= i < |segs| ensures DecodeSegment(segs[i]) == Some(fields[i]) {
      DecodeSegmentOf(keys[i], m[keys[i]]);
    }
    DecodeEach(segs, fields);
  }

  /**
   * Splitting a form body on `&` gives back its segments, and each segment
   * decodes to the bytes of its key and value: the body loses nothing.
   */
  lemma DecodeFormBody(keys: seq<string>, m: map<string, string>)
    requires forall i :: 0 <= i < |keys| ==> keys[i] in m
    ensures keys != [] ==> Split(FormBody(keys, m), '&') == Segments(keys, m)
    ensures DecodeForm(FormBody(keys, m))
         == Some(FieldBytes(keys, m))
  {
    DecodeSegmentsOf(keys, m);
    if keys != [] {
      SplitJoin(Segments(keys, m), '&');
      FormBodyNonEmpty(keys, m);
    }
  }

  lemma FormBodyNonEmpty(keys: seq<string>, m: map<string, string>)
    requires forall i :: 0 <= i < |keys| ==> keys[i] in m
    requires keys != []
    ensures FormBody(keys, m) != ""
  {
    var s := Segments(keys, m);
    if |s| > 1 {
      assert |Join("&", s)| >= |s[0]|;
    }
  }

  /**
   * Whatever order the fields come in, form-decoding a body built from a map
   * yields exactly one pair per entry of the map, holding the UTF-8 bytes of
   * its key and of its value.
   */
  lemma MapRoundTrip(m: map<string, string>, body: string)
    requires IsFormBody(body, m)
    ensures DecodeForm(body).Some?
    ensures |DecodeForm(body).value| == |m|
    ensures forall k :: k in m ==> (Utf8.Encode(k), Utf8.Encode(m[k])) in DecodeForm(body).value
    ensures forall p :: p in DecodeForm(body).value ==>
              exists k :: k in m && p == (Utf8.Encode(k), Utf8.Encode(m[k]))
  {
    var keys :| IsOrdering(keys, m) && body == FormBody(keys, m);
    DecodeFormBody(keys, m);
    FieldBytesCover(keys, m);
  }

  /** The decoded pairs of an ordering: one per key of the map, and nothing else. */
  lemma FieldBytesCover(keys: seq<string>, m: map<string, string>)
    requires IsOrdering(keys, m)
    ensures |FieldBytes(keys, m)| == |m|
    ensures forall k :: k in m ==> (Utf8.Encode(k), Utf8.Encode(m[k])) in FieldBytes(keys, m)
    ensures forall p :: p in FieldBytes(keys, m) ==>
              exists k :: k in m && p == (Utf8.Encode(k), Utf8.Encode(m[k]))
  {
    OrderingLength(keys, m);
    FieldBytesHasEvery(keys, m);
    FieldBytesHasOnly(keys, m);
  }

  lemma FieldBytesHasEvery(keys: seq<string>, m: map<string, string>)
    requires IsOrdering(keys, m)
    ensures forall k :: k in m ==> (Utf8.Encode(k), Utf8.Encode(m[k])) in FieldBytes(keys, m)
  {
    var ps := FieldBytes(keys, m);
    forall k | k in m ensures (Utf8.Encode(k), Utf8.Encode(m[k])) in ps {
      var i :| 0 <= i < |keys| && keys[i] == k;
      assert ps[i] == (Utf8.Encode(k), Utf8.Encode(m[k]));
    }
  }

  lemma FieldBytesHasOnly(keys: seq<string>, m: map<string, string>)
    requires forall i :: 0 <= i < |keys| ==> keys[i] in m
    ensures forall p :: p in FieldBytes(keys, m) ==>
              exists k :: k in m && p == (Utf8.Encode(k), Utf8.Encode(m[k]))
  {
    var ps := FieldBytes(keys, m);
    forall p | p in ps ensures exists k :: k in m && p == (Utf8.Encode(k), Utf8.Encode(m[k])) {
      var i :| 0 <= i < |ps| && ps[i] == p;
      assert keys[i] in m && p == (Utf8.Encode(keys[i]), Utf8.Encode(m[keys[i]]));
    }
  }

  /**
   * The same for the body built from an argument list: one pair per distinct
   * key of the list, with the value given last for it.
   */
  lemma FormRoundTrip(entries: seq<string>, body: string)
    requires IsFormBody(body, FormFields(entries))
    ensures DecodeForm(body).Some?
    ensures |DecodeForm(body).value| == |FormFields(entries)|
    ensures forall k :: k in FormFields(entries) ==>
              (Utf8.Encode(k), Utf8.Encode(FormFields(entries)[k])) in DecodeForm(body).value
    ensures forall p :: p in DecodeForm(body).value ==>
              exists k :: k in FormFields(entries) && p == (Utf8.Encode(k), Utf8.Encode(FormFields(entries)[k]))
  {
    MapRoundTrip(FormFields(entries), body);
  }
}
