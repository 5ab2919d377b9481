/** The serializer over an output stream, with slots that are reserved first and filled later. */
module BinarySerializers {
  import opened Basics
  import opened PropertyCodec
  import opened ValueCodec

  /** The properties, one after the other. */
  function Stream(params: Params, pieces: seq<Property>): seq<Byte> {
    if pieces == [] then [] else Stream(params, pieces[..|pieces| - 1]) + Encode(params, pieces[|pieces| - 1])
  }

  lemma StreamGrows(params: Params, pieces: seq<Property>, p: Property)
    ensures Stream(params, pieces + [p]) == Stream(params, pieces) + Encode(params, p)
  {
    assert (pieces + [p])[..|pieces|] == pieces;
  }

  /** Where the value of the i-th property starts. */
  function SlotPosition(params: Params, pieces: seq<Property>, i: nat): nat
    requires i < |pieces|
  {
    |Header(params)| + |Stream(params, pieces[..i])| + |Prefix(params, pieces[i])|
  }

  /** The stream with `data` written over it. */
  function Patched(stream: seq<Byte>, position: nat, data: seq<Byte>): seq<Byte>
    requires position + |data| <= |stream|
  {
    stream[..position] + data + stream[position + |data|..]
  }

  lemma SlotOfFront(params: Params, front: seq<Property>, last: Property, i: nat)
    requires i <= |front|
    ensures i < |front| ==> SlotPosition(params, front + [last], i) == SlotPosition(params, front, i)
    ensures i == |front| ==>
              SlotPosition(params, front + [last], i) == |Header(params) + Stream(params, front) + Prefix(params, last)|
  {
    assert (front + [last])[..i] == front[..i];
    assert front[..|front|] == front;
    hide Stream, Prefix, Header;
  }

  /** Filling the last slot. */
  lemma LastFilled(params: Params, front: seq<Property>, last: Property, data: seq<Byte>)
    requires |data| == |last.value|
    ensures var stream := Header(params) + Stream(params, front + [last]);
            var position := |Header(params) + Stream(params, front) + Prefix(params, last)|;
            position + |data| <= |stream|
            && Patched(stream, position, data) == Header(params) + Stream(params, front + [last.(value := data)])
  {
    StreamGrows(params, front, last);
    StreamGrows(params, front, last.(value := data));
    var head, stream, prefix := Header(params), Stream(params, front), Prefix(params, last);
    assert Encode(params, last) == prefix + last.value && Encode(params, last.(value := data)) == prefix + data;
    hide *;
    PatchedAtEnd(head + stream + prefix, last.value, data);
    Joined4(head, stream, prefix, last.value);
    Joined4(head, stream, prefix, data);
  }

  /** Filling an earlier slot leaves what follows alone. */
  lemma EarlierFilled(params: Params, front: seq<Property>, filled: seq<Property>, last: Property, position: nat,
          data: seq<Byte>)
    requires position + |data| <= |Header(params) + Stream(params, front)|
    requires Patched(Header(params) + Stream(params, front), position, data) == Header(params) + Stream(params, filled)
    ensures position + |data| <= |Header(params) + Stream(params, front + [last])|
    ensures Patched(Header(params) + Stream(params, front + [last]), position, data)
         == Header(params) + Stream(params, filled + [last])
  {
    StreamGrows(params, front, last);
    StreamGrows(params, filled, last);
    hide Stream, Header, Encode;
    PatchedInFront(Header(params) + Stream(params, front), Encode(params, last), position, data);
    Joined(Header(params), Stream(params, front), Encode(params, last));
    Joined(Header(params), Stream(params, filled), Encode(params, last));
  }

  /** Filling a slot gives the stream that has the value there from the start. */
  lemma {:induction false} FilledIsWritten(params: Params, pieces: seq<Property>, i: nat, data: seq<Byte>)
    requires i < |pieces| && |data| == |pieces[i].value|
    ensures SlotPosition(params, pieces, i) + |data| <= |Header(params) + Stream(params, pieces)|
    ensures Patched(Header(params) + Stream(params, pieces), SlotPosition(params, pieces, i), data)
         == Header(params) + Stream(params, pieces[i := pieces[i].(value := data)])
    decreases |pieces|
  {
    hide Stream, Header, SlotPosition, Prefix, Patched;
    var front, last := pieces[..|pieces| - 1], pieces[|pieces| - 1];
    assert pieces == front + [last];
    SlotOfFront(params, front, last, i);
    if i < |front| {
      var filled := front[i := front[i].(value := data)];
      assert pieces[i := pieces[i].(value := data)] == filled + [last];
      FilledIsWritten(params, front, i, data);
      EarlierFilled(params, front, filled, last, SlotPosition(params, front, i), data);
    } else {
      assert pieces[i := pieces[i].(value := data)] == front + [last.(value := data)];
      LastFilled(params, front, last, data);
    }
  }

  lemma PatchedInFront(front: seq<Byte>, back: seq<Byte>, position: nat, data: seq<Byte>)
    requires position + |data| <= |front|
    ensures Patched(front + back, position, data) == Patched(front, position, data) + back
  {
  }

  lemma PatchedAtEnd(front: seq<Byte>, before: seq<Byte>, data: seq<Byte>)
    requires |before| == |data|
    ensures Patched(front + before, |front|, data) == front + data
  {
  }

  lemma Joined(a: seq<Byte>, b: seq<Byte>, c: seq<Byte>)
    ensures a + (b + c) == a + b + c
  {
  }

  lemma Joined4(a: seq<Byte>, b: seq<Byte>, c: seq<Byte>, d: seq<Byte>)
    ensures a + (b + (c + d)) == a + b + c + d
  {
  }

  /** Two lists of properties with the same layout: only values of the same length differ. */
  ghost predicate SameLayout(a: seq<Property>, b: seq<Property>) {
    |a| <= |b| && forall i :: 0 <= i < |a| ==> SameShape(a[i], b[i])
  }

  predicate SameShape(p: Property, q: Property) {
    |p.value| == |q.value| && p == q.(value := p.value)
  }

  /** Appending properties and filling slots moves no slot. */
  lemma {:induction false} SlotsStay(params: Params, a: seq<Property>, b: seq<Property>, i: nat)
    requires SameLayout(a, b) && i < |a|
    ensures SlotPosition(params, a, i) == SlotPosition(params, b, i)
  {
    SameLength(params, a[..i], b[..i]);
    assert SameShape(a[i], b[i]);
  }

  lemma {:induction false} SameLength(params: Params, a: seq<Property>, b: seq<Property>)
    requires SameLayout(a, b) && |a| == |b|
    ensures |Stream(params, a)| == |Stream(params, b)|
    decreases |a|
  {
    if a != [] {
      SameLength(params, a[..|a| - 1], b[..|b| - 1]);
      assert SameShape(a[|a| - 1], b[|b| - 1]);
    }
  }

  class BinarySerializer {
    const params: Params
    var output: seq<Byte>
    /** The put position of the output stream. */
    var at: nat
    /** The properties in the stream; a slot that has not been filled holds zeros. */
    ghost var pieces: seq<Property>

    ghost predicate Valid()
      reads this
    {
      output == Header(params) + Stream(params, pieces) && at == |output|
    }

    constructor (params: Params)
      ensures Valid() && this.params == params && output == Header(params) && pieces == []
    {
      this.params := params;
      output, at, pieces := [], 0, [];
      new;
      if params.encodeHeader {
        Write(MAGIC + [VERSION, EncodeParams(params)]);
      }
    }

    /** ostream::write */
    method Write(bytes: seq<Byte>)
      requires at <= |output|
      modifies this`output, this`at
      ensures at == old(at) + |bytes|
      ensures old(at) == |old(output)| ==> output == old(output) + bytes
      ensures old(at) + |bytes| <= |old(output)| ==> output == Patched(old(output), old(at), bytes)
    {
      output := output[..at] + bytes + if at + |bytes| <= |output| then output[at + |bytes|..] else [];
      at := at + |bytes|;
    }

    method WritePrefix(p: Property)
      requires at == |output|
      modifies this`output, this`at
      ensures output == old(output) + Prefix(params, p) && at == |output|
    {
      Write([p.container]);
      Write([p.propertyType]);
      if EncodesCount(params, p.container) {
        Write(ToBytes(p.elements, CountSize(params)));
      }
    }

    method AddProperty(p: Property)
      requires Valid()
      modifies this
      ensures Valid() && pieces == old(pieces) + [p] && output == old(output) + Encode(params, p)
    {
      StreamGrows(params, pieces, p);
      assert Encode(params, p) == Prefix(params, p) + p.value;
      hide Stream, Header, Prefix, Encode;
      WritePrefix(p);
      Write(p.value);
      Joined(old(output), Prefix(params, p), p.value);
      Joined(Header(params), Stream(params, pieces), Encode(params, p));
      pieces := pieces + [p];
    }

    /** Writes zeros for the value, and returns where they are. */
    method ReserveSlot(p: Property) returns (position: nat)
      requires Valid()
      modifies this
      ensures Valid() && pieces == old(pieces) + [p.(value := seq(|p.value|, _ => 0))]
      ensures position == SlotPosition(params, pieces, |old(pieces)|)
    {
      var zeros := seq(|p.value|, _ => 0);
      ghost var slot := p.(value := zeros);
      StreamGrows(params, pieces, slot);
      assert Encode(params, slot) == Prefix(params, p) + zeros && Prefix(params, slot) == Prefix(params, p);
      assert (pieces + [slot])[..|pieces|] == pieces && (pieces + [slot])[|pieces|] == slot;
      assert SlotPosition(params, pieces + [slot], |pieces|)
          == |Header(params)| + |Stream(params, pieces)| + |Prefix(params, p)|;
      hide Stream, Header, Prefix, Encode, SlotPosition;
      WritePrefix(p);
      position := at;
      Write(zeros);
      Joined(old(output), Prefix(params, p), zeros);
      Joined(Header(params), Stream(params, pieces), Encode(params, slot));
      pieces := pieces + [slot];
    }

    /** Fills the i-th property, whose value starts at `position`, and goes back to the end. */
    method WriteAt(position: nat, data: seq<Byte>, ghost i: nat)
      requires Valid() && i < |pieces| && |data| == |pieces[i].value|
      requires position == SlotPosition(params, pieces, i)
      modifies this
      ensures Valid() && pieces == old(pieces)[i := old(pieces)[i].(value := data)]
    {
      FilledIsWritten(params, pieces, i, data);
      hide SlotPosition, Stream;
      var currentPos := at;
      at := position;
      Write(data);
      at := currentPos;
      pieces := pieces[i := pieces[i].(value := data)];
    }

    method AddSize(n: nat)
      requires Valid()
      modifies this
      ensures Valid() && output == old(output) + PutSize(params, n)
      ensures old(pieces) <= pieces
    {
      AddProperty(ScalarProperty(INTEGER64, ToBytes(n, 8)));
    }

    /** add_value, for the shape that the schema names. */
    method AddValue(s: Schema, v: Value)
      requires Valid() && Fits(s, v)
      modifies this
      ensures Valid() && output == old(output) + Put(params, s, v)
      ensures old(pieces) <= pieces
      decreases v, 0
    {
      hide Stream, Encode, Header;
      match s {
        case Scalar(t) => AddProperty(ScalarProperty(t, v.bytes));
        case Text => AddProperty(TextProperty(v.chars));
        case Numbers(t) => AddProperty(NumbersProperty(t, v.bytes));
        case Tuple(t, c, n) => AddProperty(TupleProperty(t, c, n, v.bytes));
        case ListOf(e) => AddVector(e, v.items);
        case MapOf(k, e) => AddMap(k, e, v.entries);
        case Maybe(e) =>
          AddProperty(ScalarProperty(BOOLEAN, [if v.Just? then 1 else 0]));
          if v.Just? {
            AddValue(e, v.value);
          }
        case Record(fs, _) => AddEach(fs, v.items);
      }
    }

    method AddVector(e: Schema, items: seq<Value>)
      requires Valid() && FitAll(e, items)
      modifies this
      ensures Valid() && output == old(output) + (PutSize(params, |items|) + PutAll(params, e, items))
      ensures old(pieces) <= pieces
      decreases items, 1
    {
      hide Stream, Encode, Header, FitAll, PutAll, PutSize;
      AddSize(|items|);
      Joined(old(output), PutSize(params, |items|), PutAll(params, e, items));
      AddAll(e, items);
    }

    method AddMap(k: Schema, e: Schema, entries: seq<Entry>)
      requires Valid() && FitEntries(k, e, entries)
      modifies this
      ensures Valid() && output == old(output) + (PutSize(params, |entries|) + PutEntries(params, k, e, entries))
      ensures old(pieces) <= pieces
      decreases entries, 1
    {
      hide Stream, Encode, Header, FitEntries, PutEntries, PutSize;
      AddSize(|entries|);
      Joined(old(output), PutSize(params, |entries|), PutEntries(params, k, e, entries));
      AddEntries(k, e, entries);
    }

    /** The loop over the elements of a vector. */
    method AddAll(s: Schema, items: seq<Value>)
      requires Valid() && FitAll(s, items)
      modifies this
      ensures Valid() && output == old(output) + PutAll(params, s, items)
      ensures old(pieces) <= pieces
      decreases items, 0
    {
      hide Stream, Encode, Header, Fits, Put;
      var i := 0;
      while i < |items|
        invariant 0 <= i <= |items| && Valid() && old(pieces) <= pieces
        invariant FitAll(s, items[i..])
        invariant output + PutAll(params, s, items[i..]) == old(output) + PutAll(params, s, items)
      {
        assert items[i..][0] == items[i] && items[i..][1..] == items[i + 1..];
        Joined(output, Put(params, s, items[i]), PutAll(params, s, items[i + 1..]));
        AddValue(s, items[i]);
        i := i + 1;
      }
    }

    /** The loop over the pairs of a map. */
    method AddEntries(k: Schema, s: Schema, entries: seq<Entry>)
      requires Valid() && FitEntries(k, s, entries)
      modifies this
      ensures Valid() && output == old(output) + PutEntries(params, k, s, entries)
      ensures old(pieces) <= pieces
      decreases entries, 0
    {
      hide Stream, Encode, Header, FitEntry, PutEntry;
      var i := 0;
      while i < |entries|
        invariant 0 <= i <= |entries| && Valid() && old(pieces) <= pieces
        invariant FitEntries(k, s, entries[i..])
        invariant output + PutEntries(params, k, s, entries[i..]) == old(output) + PutEntries(params, k, s, entries)
      {
        assert entries[i..][0] == entries[i] && entries[i..][1..] == entries[i + 1..];
        Joined(output, PutEntry(params, k, s, entries[i]), PutEntries(params, k, s, entries[i + 1..]));
        AddEntry(k, s, entries[i]);
        i := i + 1;
      }
    }

    method AddEntry(k: Schema, s: Schema, e: Entry)
      requires Valid() && FitEntry(k, s, e)
      modifies this
      ensures Valid() && output == old(output) + PutEntry(params, k, s, e)
      ensures old(pieces) <= pieces
      decreases e, 0
    {
      hide Stream, Encode, Header, Put;
      Joined(output, Put(params, k, e.key), Put(params, s, e.value));
      AddValue(k, e.key);
      AddValue(s, e.value);
    }

    /** The fields of a reflected or custom type, in order. */
    method AddEach(fs: seq<Schema>, items: seq<Value>)
      requires Valid() && |fs| == |items| && FitEach(fs, items)
      modifies this
      ensures Valid() && output == old(output) + PutEach(params, fs, items)
      ensures old(pieces) <= pieces
      decreases items, 0
    {
      hide Stream, Encode, Header, Fits, Put;
      var i := 0;
      while i < |items|
        invariant 0 <= i <= |items| && Valid() && old(pieces) <= pieces
        invariant FitEach(fs[i..], items[i..])
        invariant output + PutEach(params, fs[i..], items[i..]) == old(output) + PutEach(params, fs, items)
      {
        assert items[i..][0] == items[i] && items[i..][1..] == items[i + 1..];
        assert fs[i..][0] == fs[i] && fs[i..][1..] == fs[i + 1..];
        Joined(output, Put(params, fs[i], items[i]), PutEach(params, fs[i + 1..], items[i + 1..]));
        AddValue(fs[i], items[i]);
        i := i + 1;
      }
    }

    /**
     * A number that is not known beforehand: its slot is reserved, any series of values is
     * written, and the slot is filled.  The stream is the one that has the number in front.
     */
    method AddCountLater(n: nat, fs: seq<Schema>, items: seq<Value>)
      requires Valid() && |fs| == |items| && FitEach(fs, items)
      modifies this
      ensures Valid() && output == old(output) + (PutSize(params, n) + PutEach(params, fs, items))
    {
      hide Stream, Encode, Header, SlotPosition, PutEach, FitEach;
      var count := ScalarProperty(INTEGER64, ToBytes(n, 8));
      ghost var before := pieces;
      var position := ReserveSlot(ScalarProperty(INTEGER64, seq(8, _ => 0)));
      ghost var reserved := pieces;
      AddEach(fs, items);
      ghost var more := pieces[|reserved|..];
      assert pieces == reserved + more;
      ItemsBehind(params, reserved, more, PutEach(params, fs, items));
      SlotsStay(params, reserved, pieces, |before|);
      WriteAt(position, count.value, |before|);
      assert pieces == before + [count] + more;
      CountInFront(params, before, count, more);
      Joined(old(output), PutSize(params, n), PutEach(params, fs, items));
    }
  }

  /** A number of elements that is filled in after them makes a vector. */
  lemma CountedIsVector(params: Params, e: Schema, fs: seq<Schema>, items: seq<Value>)
    requires Fits(ListOf(e), Items(items)) && |fs| == |items| && forall i :: 0 <= i < |fs| ==> fs[i] == e
    ensures FitEach(fs, items)
    ensures PutSize(params, |items|) + PutEach(params, fs, items) == Put(params, ListOf(e), Items(items))
  {
    EachIsAll(params, e, fs, items);
    hide PutSize, PutEach, PutAll;
  }

  lemma {:induction false} EachIsAll(params: Params, e: Schema, fs: seq<Schema>, items: seq<Value>)
    requires FitAll(e, items) && |fs| == |items| && forall i :: 0 <= i < |fs| ==> fs[i] == e
    ensures FitEach(fs, items) && PutEach(params, fs, items) == PutAll(params, e, items)
    decreases items
  {
    if items != [] {
      EachIsAll(params, e, fs[1..], items[1..]);
    }
  }

  lemma ItemsBehind(params: Params, front: seq<Property>, more: seq<Property>, bytes: seq<Byte>)
    requires Header(params) + Stream(params, front + more) == Header(params) + Stream(params, front) + bytes
    ensures Stream(params, more) == bytes
  {
    StreamOfBoth(params, front, more);
    hide Stream, Header;
    Joined(Header(params), Stream(params, front), Stream(params, more));
    SameBack(Header(params) + Stream(params, front), Stream(params, more), bytes);
  }

  lemma SameBack(front: seq<Byte>, a: seq<Byte>, b: seq<Byte>)
    requires front + a == front + b
    ensures a == b
  {
    assert (front + a)[|front|..] == a && (front + b)[|front|..] == b;
  }

  lemma CountInFront(params: Params, before: seq<Property>, count: Property, more: seq<Property>)
    ensures Header(params) + Stream(params, before + [count] + more)
         == Header(params) + Stream(params, before) + Encode(params, count) + Stream(params, more)
  {
    StreamOfBoth(params, before + [count], more);
    StreamGrows(params, before, count);
    hide Stream, Header, Encode;
    Joined4(Header(params), Stream(params, before), Encode(params, count), Stream(params, more));
    Joined(Stream(params, before), Encode(params, count), Stream(params, more));
  }

  lemma {:induction false} StreamOfBoth(params: Params, a: seq<Property>, b: seq<Property>)
    ensures Stream(params, a + b) == Stream(params, a) + Stream(params, b)
    decreases |b|
  {
    if b == [] {
      assert a + b == a;
    } else {
      var front, last := b[..|b| - 1], b[|b| - 1];
      StreamOfBoth(params, a, front);
      assert (a + b)[..|a + b| - 1] == a + front;
      Joined(Stream(params, a), Stream(params, front), Encode(params, last));
    }
  }
}
