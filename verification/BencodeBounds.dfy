/** What the decoder accepts of an encoding: it must be within the decoder's bounds. */
module BencodeBounds {
  import opened ByteStrings
  import opened Bencode
  import opened BencodeRoundTrip

  /** Every dictionary in the value is sorted, as the source's map keeps it. */
  ghost predicate Ordered(v: BValue) {
    match v
    case Int(_) => true
    case Bytes(_) => true
    case List(items) => forall i :: 0 <= i < |items| ==> Ordered(items[i])
    case Dict(es) => Sorted(es) && forall i :: 0 <= i < |es| ==> Ordered(es[i].value)
  }

  /** The decoder accepts the encoding of a value only where the value is within its bounds. */
  lemma {:induction false} AcceptedFits(s: Bytes, pos: nat, v: BValue, depth: nat)
    requires |s| <= USIZE_MAX && depth <= MAX_DEPTH && Ordered(v)
    requires At(s, pos, Encode(v)) && DecodeValue(s, pos, depth).Success?
    ensures Fits(v, MAX_DEPTH - depth)
    decreases v, 0
  {
    hide DecodeItems, DecodeEntries, EncodeItems, EncodeEntries, Sorted;
    match v
    case Int(_) =>
    case Bytes(_) =>
    case List(items) =>
      Bracketed(s, pos, CHAR_L, EncodeItems(items));
      AcceptedItems(s, pos + 1, items, depth + 1, 0);
    case Dict(es) =>
      Bracketed(s, pos, CHAR_D, EncodeEntries(es));
      assert [] + es == es;
      AcceptedEntries(s, pos + 1, [], es, depth + 1);
  }

  lemma {:induction false} AcceptedItems(s: Bytes, pos: nat, items: seq<BValue>, depth: nat, count: nat)
    requires |s| <= USIZE_MAX && depth <= MAX_DEPTH && count <= MAX_ELEMENTS
    requires forall i :: 0 <= i < |items| ==> Ordered(items[i])
    requires At(s, pos, EncodeItems(items)) && DecodeItems(s, pos, depth, count).Success?
    ensures FitsItems(items, MAX_DEPTH - depth) && count + |items| <= MAX_ELEMENTS
    decreases items, 1
  {
    hide DecodeValue, Encode, Ordered, Fits;
    if items != [] {
      var v := items[0];
      AtSplit(s, pos, Encode(v), EncodeItems(items[1..]));
      EncodeHead(v);
      AtIndex(s, pos, Encode(v), 0);
      AcceptedFits(s, pos, v, depth);
      ValueRoundTrip(s, pos, v, depth);
      AcceptedItems(s, pos + |Encode(v)|, items[1..], depth, count + 1);
      assert forall i :: 1 <= i < |items| ==> items[i] == items[1..][i - 1];
    }
  }

  lemma {:induction false} AcceptedEntries(s: Bytes, pos: nat, acc: seq<Entry>, es: seq<Entry>, depth: nat)
    requires |s| <= USIZE_MAX && depth <= MAX_DEPTH && |acc| <= MAX_ELEMENTS && Sorted(acc + es)
    requires forall i :: 0 <= i < |es| ==> Ordered(es[i].value)
    requires At(s, pos, EncodeEntries(es)) && DecodeEntries(s, pos, depth, acc).Success?
    ensures FitsEntries(es, MAX_DEPTH - depth) && |acc| + |es| <= MAX_ELEMENTS
    decreases es, 1
  {
    hide DecodeValue, Encode, EncodeBytes, Insert, Sorted, Ordered, Fits;
    if es != [] {
      var k, v := es[0].key, es[0].value;
      AtSplit(s, pos, EncodeBytes(k) + Encode(v), EncodeEntries(es[1..]));
      AtSplit(s, pos, EncodeBytes(k), Encode(v));
      var mid := pos + |EncodeBytes(k)|;
      KeyRoundTrip(s, pos, k, depth);
      AcceptedFits(s, mid, v, depth);
      ValueRoundTrip(s, mid, v, depth);
      AppendEntry(acc, es);
      AcceptedEntries(s, mid + |Encode(v)|, acc + [es[0]], es[1..], depth);
      assert forall i :: 1 <= i < |es| ==> es[i] == es[1..][i - 1];
    }
  }

  /** An encoding is accepted exactly when its value is within the decoder's bounds. */
  lemma AcceptedIff(v: BValue, tail: Bytes)
    requires Ordered(v) && |Encode(v) + tail| <= USIZE_MAX
    ensures DecodeValue(Encode(v) + tail, 0, 0).Success? <==> Fits(v, MAX_DEPTH)
  {
    if Fits(v, MAX_DEPTH) {
      DecodeAfterEncode(v, tail);
    }
    if DecodeValue(Encode(v) + tail, 0, 0).Success? {
      AcceptedFits(Encode(v) + tail, 0, v, 0);
    }
  }

  lemma {:induction false} FitsOrdered(v: BValue, levels: nat)
    requires Fits(v, levels)
    ensures Ordered(v)
    decreases v
  {
    match v
    case Int(_) =>
    case Bytes(_) =>
    case List(items) =>
      forall i | 0 <= i < |items|
        ensures Ordered(items[i])
      {
        FitsOrdered(items[i], levels - 1);
      }
    case Dict(es) =>
      forall i | 0 <= i < |es|
        ensures Ordered(es[i].value)
      {
        FitsOrdered(es[i].value, levels - 1);
      }
  }
}
