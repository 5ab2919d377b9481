/** Reading back what was written. */
module ValueRoundTrip {
  import opened Wrappers
  import opened Basics
  import opened PropertyCodec
  import opened ValueCodec

  // ---------------------------------------------------------------- when a value fits the format

  /** Every count in the value fits into the bytes that the parameters provide for it, and every leaf into one read. */
  predicate Sized(params: Params, s: Schema, v: Value)
    requires Fits(s, v)
    decreases v
  {
    match s
    case Scalar(_) => true
    case Text => Readable(params, TextProperty(v.chars))
    case Numbers(t) => Readable(params, NumbersProperty(t, v.bytes))
    case Tuple(t, c, n) => Readable(params, TupleProperty(t, c, n, v.bytes))
    case ListOf(e) => SizedAll(params, e, v.items)
    case MapOf(k, e) => SizedEntries(params, k, e, v.entries)
    case Maybe(e) => v.Nothing? || Sized(params, e, v.value)
    case Record(fs, _) => SizedEach(params, fs, v.items)
  }

  predicate SizedAll(params: Params, s: Schema, items: seq<Value>)
    requires FitAll(s, items)
    decreases items
  {
    items == [] || (Sized(params, s, items[0]) && SizedAll(params, s, items[1..]))
  }

  predicate SizedEntries(params: Params, k: Schema, s: Schema, entries: seq<Entry>)
    requires FitEntries(k, s, entries)
    decreases entries
  {
    entries == [] || (SizedEntry(params, k, s, entries[0]) && SizedEntries(params, k, s, entries[1..]))
  }

  predicate SizedEntry(params: Params, k: Schema, s: Schema, e: Entry)
    requires FitEntry(k, s, e)
    decreases e
  {
    Sized(params, k, e.key) && Sized(params, s, e.value)
  }

  predicate SizedEach(params: Params, fs: seq<Schema>, items: seq<Value>)
    requires |fs| == |items| && FitEach(fs, items)
    decreases items
  {
    items == [] || (Sized(params, fs[0], items[0]) && SizedEach(params, fs[1..], items[1..]))
  }

  // ---------------------------------------------------------------- packed elements

  lemma PackedLeaf(params: Params, p: Property)
    requires Readable(params, p) && ((p.container == VECTOR || p.container == MATRIX) ==> p.elements > 0)
    ensures var plain := params.(packElements := false);
            Readable(plain, p) && Encode(plain, p) == Encode(params, p)
  {
  }

  /** Packing elements makes no difference to a value whose counts fit: it has no vectors or matrices then. */
  lemma {:induction false} PackingIsIgnored(params: Params, s: Schema, v: Value)
    requires Fits(s, v) && Sized(params, s, v)
    ensures var plain := params.(packElements := false);
            Sized(plain, s, v) && Put(plain, s, v) == Put(params, s, v)
    decreases v
  {
    hide Encode, Readable;
    match s
    case Scalar(t) => ScalarPacked(params, ScalarProperty(t, v.bytes));
    case Text => PackedLeaf(params, TextProperty(v.chars));
    case Numbers(t) => PackedLeaf(params, NumbersProperty(t, v.bytes));
    case Tuple(t, c, n) => PackedLeaf(params, TupleProperty(t, c, n, v.bytes));
    case ListOf(e) =>
      ScalarPacked(params, ScalarProperty(INTEGER64, ToBytes(|v.items|, 8)));
      PackingIsIgnoredInAll(params, e, v.items);
    case MapOf(k, e) =>
      ScalarPacked(params, ScalarProperty(INTEGER64, ToBytes(|v.entries|, 8)));
      PackingIsIgnoredInEntries(params, k, e, v.entries);
    case Maybe(e) =>
      ScalarPacked(params, ScalarProperty(BOOLEAN, [0]));
      ScalarPacked(params, ScalarProperty(BOOLEAN, [1]));
      if v.Just? { PackingIsIgnored(params, e, v.value); }
    case Record(fs, _) => PackingIsIgnoredInEach(params, fs, v.items);
  }

  lemma ScalarPacked(params: Params, p: Property)
    requires p.container == SCALAR
    ensures Encode(params.(packElements := false), p) == Encode(params, p)
  {
  }

  lemma {:induction false} PackingIsIgnoredInAll(params: Params, s: Schema, items: seq<Value>)
    requires FitAll(s, items) && SizedAll(params, s, items)
    ensures var plain := params.(packElements := false);
            SizedAll(plain, s, items) && PutAll(plain, s, items) == PutAll(params, s, items)
    decreases items
  {
    if items != [] {
      PackingIsIgnored(params, s, items[0]);
      PackingIsIgnoredInAll(params, s, items[1..]);
    }
  }

  lemma {:induction false} PackingIsIgnoredInEntries(params: Params, k: Schema, s: Schema, entries: seq<Entry>)
    requires FitEntries(k, s, entries) && SizedEntries(params, k, s, entries)
    ensures var plain := params.(packElements := false);
            SizedEntries(plain, k, s, entries) && PutEntries(plain, k, s, entries) == PutEntries(params, k, s, entries)
    decreases entries
  {
    hide PutEntry, SizedEntry, FitEntry;
    if entries != [] {
      PackingIsIgnoredInEntry(params, k, s, entries[0]);
      PackingIsIgnoredInEntries(params, k, s, entries[1..]);
    }
  }

  lemma {:induction false} PackingIsIgnoredInEntry(params: Params, k: Schema, s: Schema, e: Entry)
    requires FitEntry(k, s, e) && SizedEntry(params, k, s, e)
    ensures var plain := params.(packElements := false);
            SizedEntry(plain, k, s, e) && PutEntry(plain, k, s, e) == PutEntry(params, k, s, e)
    decreases e
  {
    PackingIsIgnored(params, k, e.key);
    PackingIsIgnored(params, s, e.value);
    hide Put, Sized, Fits;
  }

  lemma {:induction false} PackingIsIgnoredInEach(params: Params, fs: seq<Schema>, items: seq<Value>)
    requires |fs| == |items| && FitEach(fs, items) && SizedEach(params, fs, items)
    ensures var plain := params.(packElements := false);
            SizedEach(plain, fs, items) && PutEach(plain, fs, items) == PutEach(params, fs, items)
    decreases items
  {
    if items != [] {
      PackingIsIgnored(params, fs[0], items[0]);
      PackingIsIgnoredInEach(params, fs[1..], items[1..]);
    }
  }

  // ---------------------------------------------------------------- what an output holds afterwards

  /** The value after reading `v` into an output that held `out`. */
  function Merge(s: Schema, out: Value, v: Value): Value
    decreases s
  {
    match s
    case ListOf(_) => if v.Items? then Items((if out.Items? then out.items else []) + v.items) else v
    case Record(fs, reflected) =>
      if v.Items? && |v.items| == |fs| then
        var outs := if reflected && out.Items? && |out.items| == |fs| then out.items else Defaults(fs);
        Items(MergeEach(fs, outs, v.items))
      else v
    case _ => v
  }

  function MergeEach(fs: seq<Schema>, outs: seq<Value>, items: seq<Value>): (r: seq<Value>)
    requires |outs| == |fs| == |items|
    ensures |r| == |fs|
    decreases fs
  {
    if fs == [] then [] else [Merge(fs[0], outs[0], items[0])] + MergeEach(fs[1..], outs[1..], items[1..])
  }

  /** No vector of complex elements that is read in place holds anything yet. */
  predicate Blank(s: Schema, out: Value)
    decreases s
  {
    match s
    case ListOf(_) => out.Items? ==> out.items == []
    case Record(fs, reflected) => reflected && out.Items? && |out.items| == |fs| ==> BlankEach(fs, out.items)
    case _ => true
  }

  predicate BlankEach(fs: seq<Schema>, outs: seq<Value>)
    requires |outs| == |fs|
    decreases fs
  {
    fs == [] || (Blank(fs[0], outs[0]) && BlankEach(fs[1..], outs[1..]))
  }

  lemma {:induction false} DefaultIsBlank(s: Schema)
    ensures Blank(s, Default(s))
    decreases s
  {
    if s.Record? {
      DefaultsAreBlank(s.fields);
    }
  }

  lemma {:induction false} DefaultsAreBlank(fs: seq<Schema>)
    ensures BlankEach(fs, Defaults(fs))
    decreases fs
  {
    if fs != [] {
      DefaultIsBlank(fs[0]);
      DefaultsAreBlank(fs[1..]);
      assert Defaults(fs)[1..] == Defaults(fs[1..]);
    }
  }

  /** Reading leaves exactly the value in the output exactly when the output was blank. */
  lemma {:induction false} MergeIsValue(s: Schema, out: Value, v: Value)
    requires Fits(s, v)
    ensures Merge(s, out, v) == v <==> Blank(s, out)
    decreases s
  {
    match s
    case ListOf(_) =>
      if out.Items? {
        assert out.items == [] ==> out.items + v.items == v.items;
        assert |out.items + v.items| == |out.items| + |v.items|;
      } else {
        assert [] + v.items == v.items;
      }
    case Record(fs, reflected) =>
      if reflected && out.Items? && |out.items| == |fs| {
        MergeEachIsValue(fs, out.items, v.items);
      } else {
        DefaultsAreBlank(fs);
        MergeEachIsValue(fs, Defaults(fs), v.items);
      }
    case _ =>
  }

  lemma {:induction false} MergeEachIsValue(fs: seq<Schema>, outs: seq<Value>, items: seq<Value>)
    requires |outs| == |fs| == |items| && FitEach(fs, items)
    ensures MergeEach(fs, outs, items) == items <==> BlankEach(fs, outs)
    decreases fs
  {
    if fs != [] {
      MergeIsValue(fs[0], outs[0], items[0]);
      MergeEachIsValue(fs[1..], outs[1..], items[1..]);
      var merged := MergeEach(fs, outs, items);
      assert merged[1..] == MergeEach(fs[1..], outs[1..], items[1..]);
      assert merged == [merged[0]] + merged[1..] && items == [items[0]] + items[1..];
    }
  }

  // ---------------------------------------------------------------- leaves

  /** A reading finds `expected` and leaves `rest`; or, when a count was too large, does not find it. */
  predicate Outcome<T(==)>(r: Reading<T>, sized: bool, expected: T, rest: seq<Byte>) {
    if sized then r == Some((expected, rest)) else r.Some? ==> r.value.0 != expected
  }

  lemma ScalarBack(params: Params, t: Byte, bytes: seq<Byte>, rest: seq<Byte>)
    requires |bytes| == SizeOf(t)
    ensures GetScalar(params, t, Encode(params, ScalarProperty(t, bytes)) + rest) == Some((bytes, rest))
  {
    PropertyRoundTrip(params, ScalarProperty(t, bytes), rest);
    hide Encode, Decode;
  }

  lemma SizeBack(params: Params, n: nat, rest: seq<Byte>)
    requires n < Power(8)
    ensures GetScalar(params, INTEGER64, PutSize(params, n) + rest) == Some((ToBytes(n, 8), rest))
    ensures FromBytes(ToBytes(n, 8)) == n
  {
    ScalarBack(params, INTEGER64, ToBytes(n, 8), rest);
    BytesBack(n, 8);
  }

  lemma TextBack(params: Params, chars: seq<Byte>, rest: seq<Byte>)
    ensures var p := TextProperty(chars);
            Outcome(GetText(params, Encode(params, p) + rest), Readable(params, p), Str(chars), rest)
  {
    var p := TextProperty(chars);
    PropertyRoundTrip(params, p, rest);
    assert p.value[..p.elements - 1] == chars;
    if !Readable(params, p) {
      Misread(params, p, rest);
    }
    hide Encode, Decode, Readable;
  }

  lemma ExactDivision(n: nat, d: nat)
    requires d > 0 && n % d == 0
    ensures (n / d) * d == n
  {
  }

  lemma NumbersBack(params: Params, t: Byte, bytes: seq<Byte>, rest: seq<Byte>)
    requires SizeOf(t) > 0 && |bytes| % SizeOf(t) == 0
    ensures var p := NumbersProperty(t, bytes);
            Outcome(GetNumbers(params, t, Encode(params, p) + rest), Readable(params, p), Bits(bytes), rest)
  {
    var p := NumbersProperty(t, bytes);
    ExactDivision(|bytes|, SizeOf(t));
    PropertyRoundTrip(params, p, rest);
    if !Readable(params, p) {
      Misread(params, p, rest);
    }
    hide Encode, Decode, Readable, SizeOf;
  }

  lemma TupleBack(params: Params, t: Byte, c: Byte, n: nat, bytes: seq<Byte>, rest: seq<Byte>)
    requires (c == VECTOR || c == MATRIX) && |bytes| == n * SizeOf(t)
    ensures var p := TupleProperty(t, c, n, bytes);
            Outcome(GetTuple(params, t, c, n, Encode(params, p) + rest), Readable(params, p), Bits(bytes), rest)
  {
    var p := TupleProperty(t, c, n, bytes);
    PropertyRoundTrip(params, p, rest);
    if !Readable(params, p) {
      Misread(params, p, rest);
    }
    hide Encode, Decode, Readable;
  }

  // ---------------------------------------------------------------- nested shapes

  /** Reading keeps what a vector held, and adds `n` elements. */
  lemma {:induction false} ItemsExtend(params: Params, s: Schema, n: nat, found: seq<Value>, input: seq<Byte>)
    requires s.ListOf?
    ensures var r := GetItems(params, s, n, found, input);
            r.Some? ==> r.value.0.Items? && |r.value.0.items| == |found| + n && found <= r.value.0.items
    decreases n
  {
    if n > 0 {
      match Get(params, s.element, Default(s.element), input)
      case None =>
      case Some((v, rest)) => ItemsExtend(params, s, n - 1, found + [v], rest);
    }
  }

  lemma {:induction false} InsertGrows(entries: seq<Entry>, e: Entry)
    ensures |entries| <= |InsertOrAssign(entries, e)| <= |entries| + 1
    ensures |InsertOrAssign(entries, e)| == |entries| + 1 ==> InsertOrAssign(entries, e) == entries + [e]
    ensures !HasKey(entries, e.key) ==> InsertOrAssign(entries, e) == entries + [e]
  {
    if entries != [] {
      assert !HasKey(entries, e.key) ==> entries[0].key != e.key;
      InsertGrows(entries[1..], e);
      assert [entries[0]] + (entries[1..] + [e]) == entries + [e];
    }
  }

  /** `n` entries more only when every one read had a new key, and then in the order read. */
  lemma {:induction false} EntriesExtend(params: Params, s: Schema, n: nat, found: seq<Entry>, input: seq<Byte>)
    requires s.MapOf?
    ensures var r := GetEntries(params, s, n, found, input);
            r.Some? ==>
              && r.value.0.Entries? && |r.value.0.entries| <= |found| + n
              && (|r.value.0.entries| == |found| + n ==> found <= r.value.0.entries)
    decreases n
  {
    hide Get, GetEntry, InsertOrAssign;
    if n > 0 {
      GetEntriesStep(params, s, n, found, input);
      hide GetEntries;
      match GetEntry(params, s, input)
      case None =>
      case Some((e, rest)) =>
        InsertGrows(found, e);
        EntriesExtend(params, s, n - 1, InsertOrAssign(found, e), rest);
    }
  }

  /** One step of the readings below: either it is right, or it finds something else or nothing. */
  lemma {:induction false} DefaultBack(params: Params, s: Schema, v: Value, rest: seq<Byte>)
    requires Fits(s, v)
    ensures Outcome(Get(params, s, Default(s), Put(params, s, v) + rest), Sized(params, s, v), v, rest)
    decreases v, 1
  {
    Back(params, s, Default(s), v, rest);
    DefaultIsBlank(s);
    MergeIsValue(s, Default(s), v);
  }

  lemma GetItemsStep(params: Params, s: Schema, n: nat, found: seq<Value>, input: seq<Byte>)
    requires s.ListOf? && n > 0
    ensures GetItems(params, s, n, found, input)
         == match Get(params, s.element, Default(s.element), input)
            case None => None
            case Some((v, rest)) => GetItems(params, s, n - 1, found + [v], rest)
  {
  }

  lemma {:induction false} ItemsBack(params: Params, s: Schema, found: seq<Value>, items: seq<Value>, rest: seq<Byte>)
    requires s.ListOf? && FitAll(s.element, items)
    ensures Outcome(GetItems(params, s, |items|, found, PutAll(params, s.element, items) + rest),
                    SizedAll(params, s.element, items), Items(found + items), rest)
    decreases items, 0
  {
    if items == [] {
      assert found + items == found;
      assert PutAll(params, s.element, items) + rest == rest;
    } else {
      var x, tail := items[0], PutAll(params, s.element, items[1..]) + rest;
      var input := PutAll(params, s.element, items) + rest;
      assert input == Put(params, s.element, x) + tail;
      DefaultBack(params, s.element, x, tail);
      GetItemsStep(params, s, |items|, found, input);
      var first := Get(params, s.element, Default(s.element), input);
      assert SizedAll(params, s.element, items)
          == (Sized(params, s.element, x) && SizedAll(params, s.element, items[1..]));
      hide Get, GetItems, Put, PutAll, Sized, SizedAll, Fits, FitAll;
      if Sized(params, s.element, x) {
        ItemsBack(params, s, found + [x], items[1..], rest);
        assert found + [x] + items[1..] == found + items;
      } else if first.Some? {
        ItemsExtend(params, s, |items| - 1, found + [first.value.0], first.value.1);
        assert (found + items)[|found|] == x;
      }
    }
  }
  lemma {:induction false} Back(params: Params, s: Schema, out: Value, v: Value, rest: seq<Byte>)
    requires Fits(s, v)
    ensures Outcome(Get(params, s, out, Put(params, s, v) + rest), Sized(params, s, v), Merge(s, out, v), rest)
    decreases v, 0
  {
    match s
    case Scalar(t) => ScalarBack(params, t, v.bytes, rest);
    case Text => TextBack(params, v.chars, rest);
    case Numbers(t) => NumbersBack(params, t, v.bytes, rest);
    case Tuple(t, c, n) => TupleBack(params, t, c, n, v.bytes, rest);
    case ListOf(e) => ListBack(params, s, out, v, rest);
    case MapOf(k, e) => MapBack(params, s, out, v, rest);
    case Maybe(e) => MaybeBack(params, s, out, v, rest);
    case Record(fs, reflected) => RecordBack(params, s, out, v, rest);
  }

  lemma {:induction false} ListBack(params: Params, s: Schema, out: Value, v: Value, rest: seq<Byte>)
    requires s.ListOf? && Fits(s, v)
    ensures Outcome(Get(params, s, out, Put(params, s, v) + rest), Sized(params, s, v), Merge(s, out, v), rest)
    decreases v.items, 1
  {
    var found := if out.Items? then out.items else [];
    var tail := PutAll(params, s.element, v.items) + rest;
    assert Put(params, s, v) + rest == PutSize(params, |v.items|) + tail;
    SizeBack(params, |v.items|, tail);
    ItemsBack(params, s, found, v.items, rest);
    hide GetScalar, PutSize, GetItems, PutAll;
  }

  lemma GetEntriesStep(params: Params, s: Schema, n: nat, found: seq<Entry>, input: seq<Byte>)
    requires s.MapOf? && n > 0
    ensures GetEntries(params, s, n, found, input)
         == match GetEntry(params, s, input)
            case None => None
            case Some((e, rest)) => GetEntries(params, s, n - 1, InsertOrAssign(found, e), rest)
  {
  }

  /** One key and its value. */
  function GetEntry(params: Params, s: Schema, input: seq<Byte>): Reading<Entry>
    requires s.MapOf?
  {
    match Get(params, s.key, Default(s.key), input)
    case None => None
    case Some((k, middle)) =>
      match Get(params, s.value, Default(s.value), middle)
      case None => None
      case Some((v, rest)) => Some((Entry(k, v), rest))
  }

  lemma {:induction false} EntryBack(params: Params, s: Schema, e: Entry, rest: seq<Byte>)
    requires s.MapOf? && FitEntry(s.key, s.value, e)
    ensures Outcome(GetEntry(params, s, PutEntry(params, s.key, s.value, e) + rest),
                    SizedEntry(params, s.key, s.value, e), e, rest)
    decreases e, 0
  {
    var tail := Put(params, s.value, e.value) + rest;
    var input := PutEntry(params, s.key, s.value, e) + rest;
    assert input == Put(params, s.key, e.key) + tail;
    DefaultBack(params, s.key, e.key, tail);
    DefaultBack(params, s.value, e.value, rest);
    hide Get, Put, Sized, Fits;
  }

  lemma OtherKeys(found: seq<Entry>, entries: seq<Entry>)
    requires entries != [] && DistinctKeys(found + entries)
    ensures !HasKey(found, entries[0].key)
    ensures DistinctKeys(found + [entries[0]] + entries[1..])
  {
    var all := found + entries;
    assert found + [entries[0]] + entries[1..] == all;
    forall i | 0 <= i < |found| ensures found[i].key != entries[0].key {
      assert all[i] == found[i] && all[|found|] == entries[0];
    }
  }

  lemma {:induction false} EntriesBack(params: Params, s: Schema, found: seq<Entry>, entries: seq<Entry>,
          rest: seq<Byte>)
    requires s.MapOf? && FitEntries(s.key, s.value, entries) && DistinctKeys(found + entries)
    ensures Outcome(GetEntries(params, s, |entries|, found, PutEntries(params, s.key, s.value, entries) + rest),
                    SizedEntries(params, s.key, s.value, entries), Entries(found + entries), rest)
    decreases entries, 0
  {
    hide Get, GetEntry, GetEntries, PutEntry, PutEntries, SizedEntry, SizedEntries, FitEntry, FitEntries, DistinctKeys,
         HasKey, InsertOrAssign;
    if entries == [] {
      NoEntriesBack(params, s, found, rest);
    } else {
      var e := entries[0];
      var tail := EntriesSplit(params, s, entries, rest);
      EntryBack(params, s, e, tail);
      var input := PutEntry(params, s.key, s.value, e) + tail;
      GetEntriesStep(params, s, |entries|, found, input);
      if SizedEntry(params, s.key, s.value, e) {
        OtherKeys(found, entries);
        InsertGrows(found, e);
        EntriesBack(params, s, found + [e], entries[1..], rest);
        assert found + [e] + entries[1..] == found + entries;
      } else {
        var first := GetEntry(params, s, input);
        if first.Some? {
          MisreadEntry(params, s, found, entries, first.value.0, first.value.1);
        }
      }
    }
  }

  lemma NoEntriesBack(params: Params, s: Schema, found: seq<Entry>, rest: seq<Byte>)
    requires s.MapOf? && FitEntries(s.key, s.value, [])
    ensures GetEntries(params, s, 0, found, PutEntries(params, s.key, s.value, []) + rest)
         == Some((Entries(found), rest))
    ensures SizedEntries(params, s.key, s.value, []) && found + [] == found
  {
    assert PutEntries(params, s.key, s.value, []) + rest == rest;
  }

  lemma EntriesSplit(params: Params, s: Schema, entries: seq<Entry>, rest: seq<Byte>) returns (tail: seq<Byte>)
    requires s.MapOf? && FitEntries(s.key, s.value, entries) && entries != []
    ensures FitEntry(s.key, s.value, entries[0]) && FitEntries(s.key, s.value, entries[1..])
    ensures tail == PutEntries(params, s.key, s.value, entries[1..]) + rest
    ensures PutEntries(params, s.key, s.value, entries) + rest
         == PutEntry(params, s.key, s.value, entries[0]) + tail
    ensures SizedEntries(params, s.key, s.value, entries)
         == (SizedEntry(params, s.key, s.value, entries[0]) && SizedEntries(params, s.key, s.value, entries[1..]))
  {
    tail := PutEntries(params, s.key, s.value, entries[1..]) + rest;
    hide PutEntry, SizedEntry, FitEntry;
  }

  /** An entry that is not the one written can never be made up for. */
  lemma MisreadEntry(params: Params, s: Schema, found: seq<Entry>, entries: seq<Entry>, e: Entry, input: seq<Byte>)
    requires s.MapOf? && entries != [] && e != entries[0]
    ensures var r := GetEntries(params, s, |entries| - 1, InsertOrAssign(found, e), input);
            r.Some? ==> r.value.0 != Entries(found + entries)
  {
    InsertGrows(found, e);
    EntriesExtend(params, s, |entries| - 1, InsertOrAssign(found, e), input);
    hide GetEntries, InsertOrAssign;
    assert (found + entries)[|found|] == entries[0];
  }

  lemma {:induction false} MapBack(params: Params, s: Schema, out: Value, v: Value, rest: seq<Byte>)
    requires s.MapOf? && Fits(s, v)
    ensures Outcome(Get(params, s, out, Put(params, s, v) + rest), Sized(params, s, v), Merge(s, out, v), rest)
    decreases v.entries, 1
  {
    var tail := PutEntries(params, s.key, s.value, v.entries) + rest;
    assert Put(params, s, v) + rest == PutSize(params, |v.entries|) + tail;
    SizeBack(params, |v.entries|, tail);
    assert [] + v.entries == v.entries;
    EntriesBack(params, s, [], v.entries, rest);
    hide GetScalar, PutSize, GetEntries, PutEntries, SizedEntries;
  }

  lemma {:induction false} MaybeBack(params: Params, s: Schema, out: Value, v: Value, rest: seq<Byte>)
    requires s.Maybe? && Fits(s, v)
    ensures Outcome(Get(params, s, out, Put(params, s, v) + rest), Sized(params, s, v), Merge(s, out, v), rest)
    decreases v, -1
  {
    if v.Nothing? {
      ScalarBack(params, BOOLEAN, [0], rest);
      hide GetScalar, Encode;
    } else {
      var tail := Put(params, s.element, v.value) + rest;
      assert Put(params, s, v) + rest == PutFlag(params, true) + tail;
      ScalarBack(params, BOOLEAN, [1], tail);
      DefaultBack(params, s.element, v.value, rest);
      hide GetScalar, Encode;
    }
  }

  lemma ConsEqual(a: Value, x: seq<Value>, b: Value, y: seq<Value>)
    ensures [a] + x == [b] + y <==> a == b && x == y
  {
    assert ([a] + x)[1..] == x && ([b] + y)[1..] == y;
    assert ([a] + x)[0] == a && ([b] + y)[0] == b;
  }

  lemma {:induction false} EachBack(params: Params, fs: seq<Schema>, outs: seq<Value>, items: seq<Value>,
          rest: seq<Byte>)
    requires |outs| == |fs| == |items| && FitEach(fs, items)
    ensures Outcome(GetEach(params, fs, outs, PutEach(params, fs, items) + rest),
                    SizedEach(params, fs, items), MergeEach(fs, outs, items), rest)
    decreases items, 0
  {
    if items == [] {
      assert PutEach(params, fs, items) + rest == rest;
    } else {
      var tail := PutEach(params, fs[1..], items[1..]) + rest;
      assert PutEach(params, fs, items) + rest == Put(params, fs[0], items[0]) + tail;
      Back(params, fs[0], outs[0], items[0], tail);
      EachBack(params, fs[1..], outs[1..], items[1..], rest);
      hide Get, Put, Sized, Fits, Merge;
      forall v, vs ensures [v] + vs == MergeEach(fs, outs, items)
                       <==> v == Merge(fs[0], outs[0], items[0]) && vs == MergeEach(fs[1..], outs[1..], items[1..])
      {
        ConsEqual(v, vs, Merge(fs[0], outs[0], items[0]), MergeEach(fs[1..], outs[1..], items[1..]));
      }
    }
  }

  lemma {:induction false} RecordBack(params: Params, s: Schema, out: Value, v: Value, rest: seq<Byte>)
    requires s.Record? && Fits(s, v)
    ensures Outcome(Get(params, s, out, Put(params, s, v) + rest), Sized(params, s, v), Merge(s, out, v), rest)
    decreases v.items, 1
  {
    var outs := if s.reflected && out.Items? && |out.items| == |s.fields| then out.items else Defaults(s.fields);
    EachBack(params, s.fields, outs, v.items, rest);
    hide GetEach, PutEach, SizedEach, MergeEach, Defaults;
  }

  // ---------------------------------------------------------------- the round trip

  /**
   * What has been written is read back into a blank output, with everything after it left
   * untouched, exactly when every count in it fits into the bytes provided for it.
   */
  lemma RoundTrip(params: Params, s: Schema, out: Value, v: Value, rest: seq<Byte>)
    requires Fits(s, v) && Blank(s, out)
    ensures Get(params, s, out, Put(params, s, v) + rest) == Some((v, rest)) <==> Sized(params, s, v)
  {
    Back(params, s, out, v, rest);
    MergeIsValue(s, out, v);
    hide Get, Put, Sized, Fits, Blank, Merge;
  }

  /** A value whose counts fit is read back exactly when the output was blank. */
  lemma RoundTripNeedsBlankOutput(params: Params, s: Schema, out: Value, v: Value, rest: seq<Byte>)
    requires Fits(s, v) && Sized(params, s, v)
    ensures Get(params, s, out, Put(params, s, v) + rest) == Some((v, rest)) <==> Blank(s, out)
  {
    Back(params, s, out, v, rest);
    MergeIsValue(s, out, v);
    hide Get, Put, Sized, Fits, Blank, Merge;
  }
}
