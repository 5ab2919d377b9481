/** The bytes of the format, written out: what other programs that read or write such streams rely on. */
module WireFormats {
  import opened Wrappers
  import opened Basics
  import opened PropertyCodec
  import opened ValueCodec
  import opened ValueRoundTrip

  // ---------------------------------------------------------------- the prefix of a property

  /** Two bytes, the low one first. */
  function Two(n: nat): seq<Byte> {
    [n % 256, n / 256 % 256]
  }

  function Eight(n: nat): seq<Byte> {
    Two(n) + Two(n / 65536) + Two(n / 4294967296) + Two(n / 281474976710656)
  }

  lemma TwoBytes(n: nat)
    ensures ToBytes(n, 2) == Two(n)
  {
    assert ToBytes(n, 2) == [n % 256] + ([n / 256 % 256] + ToBytes(n / 256 / 256, 0));
  }

  lemma {:induction false} SplitBytes(n: nat, k: nat)
    ensures ToBytes(n, k + 2) == Two(n) + ToBytes(n / 65536, k)
  {
    assert n / 256 / 256 == n / 65536;
    assert ToBytes(n, k + 2) == [n % 256] + ([n / 256 % 256] + ToBytes(n / 256 / 256, k));
  }

  lemma EightBytes(n: nat)
    ensures ToBytes(n, 8) == Eight(n)
  {
    SplitBytes(n, 6);
    SplitBytes(n / 65536, 4);
    SplitBytes(n / 65536 / 65536, 2);
    TwoBytes(n / 65536 / 65536 / 65536);
    assert n / 65536 / 65536 == n / 4294967296 && n / 65536 / 65536 / 65536 == n / 281474976710656;
    hide ToBytes, Two;
  }

  /** Counts have two bytes, or eight when large ones are asked for. */
  function CountBytes(params: Params, n: nat): seq<Byte> {
    if params.largeElementSize then Eight(n) else Two(n)
  }

  /**
   * A property goes out as its container, its type, its number of elements, and its value.
   * Scalars (container 1) have no number, and packed vectors (5) and matrices (6) have none.
   */
  lemma PropertyBytes(params: Params, p: Property)
    ensures Encode(params, p)
         == [p.container, p.propertyType]
          + (if p.container == 1 || (params.packElements && (p.container == 5 || p.container == 6)) then []
             else CountBytes(params, p.elements))
          + p.value
  {
    TwoBytes(p.elements);
    EightBytes(p.elements);
    hide ToBytes, Two, Eight;
  }

  /** How many bytes an element of each type has; types above 9 have none. */
  lemma ElementSizes(t: Byte)
    ensures SizeOf(t) == if t == 0 || t == 1 || t == 8 || t == 9 then 1 else if t == 2 then 2
                         else if t == 3 || t == 6 then 4 else if t == 4 || t == 7 then 8
                         else if t == 5 then 16 else 0
  {
  }

  // ---------------------------------------------------------------- values

  lemma ScalarBytes(params: Params, t: Byte, bytes: seq<Byte>)
    requires |bytes| == SizeOf(t)
    ensures Put(params, Scalar(t), Bits(bytes)) == [1, t] + bytes
    ensures |bytes| == if t == 0 || t == 1 || t == 8 || t == 9 then 1 else if t == 2 then 2
                       else if t == 3 || t == 6 then 4 else if t == 4 || t == 7 then 8
                       else if t == 5 then 16 else 0
  {
    PropertyBytes(params, ScalarProperty(t, bytes));
    hide Encode;
    assert [1, t] + [] + bytes == [1, t] + bytes;
  }

  /** A string goes out with a NUL. */
  lemma TextBytes(params: Params, chars: seq<Byte>)
    ensures Put(params, Text, Str(chars)) == [4, 8] + CountBytes(params, |chars| + 1) + (chars + [0])
  {
    PropertyBytes(params, TextProperty(chars));
    hide Encode;
  }

  lemma NumbersBytes(params: Params, t: Byte, n: nat, bytes: seq<Byte>)
    requires SizeOf(t) > 0 && |bytes| == n * SizeOf(t)
    ensures Fits(Numbers(t), Bits(bytes))
    ensures Put(params, Numbers(t), Bits(bytes)) == [2, t] + CountBytes(params, n) + bytes
  {
    DivisionIs(|bytes|, SizeOf(t), n, 0);
    PropertyBytes(params, NumbersProperty(t, bytes));
    hide Encode, SizeOf;
  }

  lemma TupleBytes(params: Params, t: Byte, c: Byte, n: nat, bytes: seq<Byte>)
    requires Fits(Tuple(t, c, n), Bits(bytes))
    ensures c == 5 || c == 6
    ensures Put(params, Tuple(t, c, n), Bits(bytes))
         == [c, t] + (if params.packElements then [] else CountBytes(params, n)) + bytes
  {
    PropertyBytes(params, TupleProperty(t, c, n, bytes));
    hide Encode;
  }

  /** Numbers of elements of nested vectors and maps are 64-bit scalars. */
  lemma SizeBytes(params: Params, n: nat)
    ensures PutSize(params, n) == [1, 4] + Eight(n)
  {
    EightBytes(n);
    PropertyBytes(params, ScalarProperty(INTEGER64, ToBytes(n, 8)));
    hide Encode, ToBytes, Eight;
    assert [1, 4] + [] + ToBytes(n, 8) == [1, 4] + ToBytes(n, 8);
  }

  /** An optional is a flag, 0 or 1, and the value if there is one. */
  lemma MaybeBytes(params: Params, e: Schema, v: Value)
    requires Fits(e, v)
    ensures Put(params, Maybe(e), Nothing) == [1, 9, 0]
    ensures Put(params, Maybe(e), Just(v)) == [1, 9, 1] + Put(params, e, v)
  {
    PropertyBytes(params, ScalarProperty(BOOLEAN, [0]));
    PropertyBytes(params, ScalarProperty(BOOLEAN, [1]));
  }

  /** A nested vector is its number of elements, and its elements in order. */
  lemma {:induction false} ListBytes(params: Params, e: Schema, items: seq<Value>, i: nat)
    requires Fits(ListOf(e), Items(items)) && i < |items|
    ensures FitAll(e, items[..i]) && Fits(e, items[i]) && FitAll(e, items[i + 1..])
    ensures Put(params, ListOf(e), Items(items))
         == [1, 4] + Eight(|items|)
          + (PutAll(params, e, items[..i]) + (Put(params, e, items[i]) + PutAll(params, e, items[i + 1..])))
  {
    SizeBytes(params, |items|);
    AllBytes(params, e, items, i);
    hide PutSize, Eight, PutAll;
  }

  lemma Regroup(a: seq<Byte>, b: seq<Byte>, c: seq<Byte>)
    ensures a + (b + c) == a + b + c
  {
  }

  lemma {:induction false} AllBytes(params: Params, e: Schema, items: seq<Value>, i: nat)
    requires FitAll(e, items) && i < |items|
    ensures FitAll(e, items[..i]) && Fits(e, items[i]) && FitAll(e, items[i + 1..])
    ensures PutAll(params, e, items)
         == PutAll(params, e, items[..i]) + (Put(params, e, items[i]) + PutAll(params, e, items[i + 1..]))
    decreases i
  {
    hide Put, Fits;
    assert items[..i] + items[i..] == items;
    if i == 0 {
      assert items[..0] == [] && PutAll(params, e, items[..0]) == [];
    } else {
      AllBytes(params, e, items[1..], i - 1);
      assert items[1..][..i - 1] == items[..i][1..] && items[..i][0] == items[0];
      assert items[1..][i - 1] == items[i] && items[1..][i..] == items[i + 1..];
      Regroup(Put(params, e, items[0]), PutAll(params, e, items[..i][1..]),
              Put(params, e, items[i]) + PutAll(params, e, items[i + 1..]));
    }
  }

  // ---------------------------------------------------------------- what does not fit

  /** Under the default parameters a string comes back exactly when it has at most 65534 characters. */
  lemma ShortStringsComeBack(out: Value, chars: seq<Byte>, rest: seq<Byte>)
    ensures Get(DEFAULT_PARAMS, Text, out, Put(DEFAULT_PARAMS, Text, Str(chars)) + rest) == Some((Str(chars), rest))
       <==> |chars| + 1 < 65536
  {
    RoundTrip(DEFAULT_PARAMS, Text, out, Str(chars), rest);
    PowersOf256();
    hide Get, Put, Power;
  }

  /** And a vector of fundamental elements exactly when it has fewer than 65536 of them. */
  lemma ShortVectorsComeBack(t: Byte, n: nat, out: Value, bytes: seq<Byte>, rest: seq<Byte>)
    requires SizeOf(t) > 0 && |bytes| == n * SizeOf(t)
    ensures Fits(Numbers(t), Bits(bytes))
    ensures Get(DEFAULT_PARAMS, Numbers(t), out, Put(DEFAULT_PARAMS, Numbers(t), Bits(bytes)) + rest)
         == Some((Bits(bytes), rest))
       <==> n < 65536
  {
    DivisionIs(|bytes|, SizeOf(t), n, 0);
    RoundTrip(DEFAULT_PARAMS, Numbers(t), out, Bits(bytes), rest);
    PowersOf256();
    ElementSizes(t);
    assert n < 65536 ==> n * SizeOf(t) <= 65536 * 16;
    hide Get, Put, Power, SizeOf;
  }

  lemma PowersOf256()
    ensures Power(2) == 65536 && Power(8) == 18446744073709551616
  {
    assert Power(4) == 4294967296;
  }

  // ---------------------------------------------------------------- what is read

  /** How many bytes of a property tell the number of its elements. */
  function CountLength(params: Params, container: Byte): nat {
    if container == 1 || (params.packElements && (container == 5 || container == 6)) then 0
    else if params.largeElementSize then 8 else 2
  }

  /** The number in one, two or eight bytes; a scalar is one element, and packed elements are not counted. */
  function ElementsIn(container: Byte, bytes: seq<Byte>): nat
    requires |bytes| == 0 || |bytes| == 2 || |bytes| == 8
  {
    if |bytes| == 0 then (if container == 1 then 1 else 0)
    else if |bytes| == 2 then Pair(bytes, 0)
    else Pair(bytes, 0) + 65536 * Pair(bytes, 2) + 4294967296 * (Pair(bytes, 4) + 65536 * Pair(bytes, 6))
  }

  function Pair(bytes: seq<Byte>, i: nat): nat
    requires i + 1 < |bytes|
  {
    var low: nat, high: nat := bytes[i], bytes[i + 1];
    low + 256 * high
  }

  lemma TwoBack(bytes: seq<Byte>)
    requires |bytes| == 2
    ensures FromBytes(bytes) == Pair(bytes, 0)
  {
    assert FromBytes(bytes[1..]) == bytes[1];
  }

  lemma PairBack(bytes: seq<Byte>)
    requires |bytes| >= 2
    ensures FromBytes(bytes) == Pair(bytes, 0) + 65536 * FromBytes(bytes[2..])
  {
    assert bytes[1..][1..] == bytes[2..];
  }

  lemma EightBack(bytes: seq<Byte>)
    requires |bytes| == 8
    ensures FromBytes(bytes) == ElementsIn(0, bytes)
  {
    PairBack(bytes);
    PairBack(bytes[2..]);
    PairBack(bytes[4..]);
    TwoBack(bytes[6..]);
    hide FromBytes;
    assert bytes[2..][2..] == bytes[4..] && bytes[4..][2..] == bytes[6..];
  }

  /** What is read with `k` bytes for the number of elements. */
  function ReadAs(params: Params, input: seq<Byte>, k: nat): Option<(Property, seq<Byte>)>
    requires |input| >= 2 && (k == 0 || k == 2 || k == 8)
  {
    if |input| < 2 + k then None
    else (var n := ElementsIn(input[0], input[2..2 + k]);
          var size := (n * SizeOf(input[1])) % 18446744073709551616;
          if size >= 9223372036854775808 || |input| < 2 + k + size then None
          else Some((Property(input[2 + k..2 + k + size], input[1], input[0], n), input[2 + k + size..])))
  }

  /**
   * A property is read back from its container, its type, its number of elements, and as many
   * bytes as those elements have; the number of bytes is computed with 64 bits, and a read of
   * 2^63 bytes or more fails.
   */
  lemma PropertyRead(params: Params, input: seq<Byte>)
    ensures Decode(params, input)
         == if |input| < 2 then None else ReadAs(params, input, CountLength(params, input[0]))
  {
    if |input| >= 2 {
      var k := CountLength(params, input[0]);
      if |input| >= 2 + k {
        var bytes, rest := input[2..2 + k], input[2 + k..];
        assert input[2..][..k] == bytes && input[2..][k..] == rest;
        if k == 2 { TwoBack(bytes); } else if k == 8 { EightBack(bytes); }
        var n := ElementsIn(input[0], bytes);
        assert DecodeCount(params, input[0], input[2..]) == Some((n, rest));
        var size := ByteCount(n, input[1]);
        assert |rest| >= size ==> rest[..size] == input[2 + k..2 + k + size] && rest[size..] == input[2 + k + size..];
        hide DecodeCount, FromBytes, SizeOf, ElementsIn;
      }
    }
  }

  /** A scalar is read from two bytes of prefix and the bytes of its type, and from a scalar of that type only. */
  lemma ScalarRead(params: Params, t: Byte, out: Value, input: seq<Byte>)
    requires SizeOf(t) > 0
    ensures Get(params, Scalar(t), out, input)
         == if |input| >= 2 + SizeOf(t) && input[0] == 1 && input[1] == t
            then Some((Bits(input[2..2 + SizeOf(t)]), input[2 + SizeOf(t)..]))
            else None
  {
    if |input| >= 2 {
      PropertyRead(params, input);
      ElementSizes(input[1]);
      assert input[0] == 1 ==> ElementsIn(1, input[2..2]) == 1;
      hide Decode, SizeOf;
    }
  }

  // ---------------------------------------------------------------- values read from properties

  /** The property comes back, whatever follows it. */
  lemma PropertyBack(params: Params, p: Property, rest: seq<Byte>)
    requires WellFormed(p) && Readable(params, p)
    ensures Decode(params, Encode(params, p) + rest) == Some((p, rest))
  {
    PropertyRoundTrip(params, p, rest);
  }

  /**
   * Text is read from a property of characters (type 8): one that counts a terminating NUL
   * (container 4) or one that does not (3); any other container gives an empty string.
   */
  lemma TextRead(params: Params, p: Property, out: Value, rest: seq<Byte>)
    requires WellFormed(p) && Readable(params, p)
    ensures Get(params, Text, out, Encode(params, p) + rest)
         == if p.propertyType != 8 then None
            else if p.container == 4 then
              if p.elements == 0 then None else Some((Str(p.value[..|p.value| - 1]), rest))
            else if p.container == 3 then Some((Str(p.value), rest))
            else Some((Str([]), rest))
  {
    PropertyBack(params, p, rest);
    ElementSizes(p.propertyType);
    assert p.value[..|p.value|] == p.value;
    hide Encode, Decode, SizeOf;
  }

  /** A vector of fundamental elements is read from an array (2) of its type only. */
  lemma NumbersRead(params: Params, t: Byte, p: Property, out: Value, rest: seq<Byte>)
    requires WellFormed(p) && Readable(params, p)
    ensures Get(params, Numbers(t), out, Encode(params, p) + rest)
         == if p.container == 2 && p.propertyType == t then Some((Bits(p.value), rest)) else None
  {
    PropertyBack(params, p, rest);
    hide Encode, Decode;
  }

  /** A GLM vector or matrix is read from its container, type and number of elements only. */
  lemma TupleRead(params: Params, t: Byte, c: Byte, n: nat, p: Property, out: Value, rest: seq<Byte>)
    requires WellFormed(p) && Readable(params, p)
    ensures Get(params, Tuple(t, c, n), out, Encode(params, p) + rest)
         == if p.container == c && p.propertyType == t && p.elements == n then Some((Bits(p.value), rest)) else None
  {
    PropertyBack(params, p, rest);
    hide Encode, Decode;
  }

  /** The flag of an optional is any byte, and only zero means that there is no value. */
  lemma MaybeRead(params: Params, e: Schema, flag: Byte, out: Value, rest: seq<Byte>)
    ensures Get(params, Maybe(e), out, [1, 9, flag] + rest)
         == if flag == 0 then Some((Nothing, rest))
            else match Get(params, e, Default(e), rest)
                 case None => None
                 case Some((v, end)) => Some((Just(v), end))
  {
    var input := [1, 9, flag] + rest;
    ScalarRead(params, BOOLEAN, Nothing, input);
    ElementSizes(9);
    assert input[2..3] == [flag] && input[3..] == rest;
    hide Decode, SizeOf;
  }

  /** Elements read into a vector that holds some go behind them. */
  lemma ListAppends(params: Params, e: Schema, found: seq<Value>, items: seq<Value>, rest: seq<Byte>)
    requires Fits(ListOf(e), Items(items)) && Sized(params, ListOf(e), Items(items))
    ensures Get(params, ListOf(e), Items(found), Put(params, ListOf(e), Items(items)) + rest)
         == Some((Items(found + items), rest))
  {
    Back(params, ListOf(e), Items(found), Items(items), rest);
    hide Get, Put, Fits, Sized;
  }

  /** The value of a key in a map. */
  function Lookup(entries: seq<Entry>, k: Value): Option<Value> {
    if entries == [] then None
    else if entries[0].key == k then Some(entries[0].value)
    else Lookup(entries[1..], k)
  }

  /** An entry that is read replaces the one that has its key, or is added, and changes no other. */
  lemma {:induction false} LaterEntryWins(entries: seq<Entry>, e: Entry, k: Value)
    ensures Lookup(InsertOrAssign(entries, e), k) == if k == e.key then Some(e.value) else Lookup(entries, k)
    ensures |InsertOrAssign(entries, e)| == |entries| + if HasKey(entries, e.key) then 0 else 1
  {
    if entries != [] {
      LaterEntryWins(entries[1..], e, k);
      assert entries[0].key == e.key ==> HasKey(entries, e.key);
      if HasKey(entries[1..], e.key) {
        var i :| 0 <= i < |entries| - 1 && entries[1..][i].key == e.key;
        assert entries[i + 1].key == e.key;
      }
      if HasKey(entries, e.key) && entries[0].key != e.key {
        var i :| 0 <= i < |entries| && entries[i].key == e.key;
        assert entries[1..][i - 1].key == e.key;
      }
    }
  }

  /** A map is its number of entries, and each key followed by its value. */
  lemma {:induction false} MapBytes(params: Params, k: Schema, s: Schema, entries: seq<Entry>, i: nat)
    requires Fits(MapOf(k, s), Entries(entries)) && i < |entries|
    ensures FitEntries(k, s, entries[..i]) && FitEntry(k, s, entries[i]) && FitEntries(k, s, entries[i + 1..])
    ensures Put(params, MapOf(k, s), Entries(entries))
         == [1, 4] + Eight(|entries|)
          + (PutEntries(params, k, s, entries[..i])
             + (Put(params, k, entries[i].key) + Put(params, s, entries[i].value)
                + PutEntries(params, k, s, entries[i + 1..])))
  {
    SizeBytes(params, |entries|);
    EntriesBytes(params, k, s, entries, i);
    hide PutSize, Eight, PutEntries;
  }

  lemma {:induction false} EntriesBytes(params: Params, k: Schema, s: Schema, entries: seq<Entry>, i: nat)
    requires FitEntries(k, s, entries) && i < |entries|
    ensures FitEntries(k, s, entries[..i]) && FitEntry(k, s, entries[i]) && FitEntries(k, s, entries[i + 1..])
    ensures PutEntries(params, k, s, entries)
         == PutEntries(params, k, s, entries[..i])
          + (Put(params, k, entries[i].key) + Put(params, s, entries[i].value)
             + PutEntries(params, k, s, entries[i + 1..]))
    decreases i
  {
    hide Put, Fits;
    if i == 0 {
      assert entries[..0] == [] && PutEntries(params, k, s, entries[..0]) == [];
    } else {
      EntriesBytes(params, k, s, entries[1..], i - 1);
      assert entries[1..][..i - 1] == entries[..i][1..] && entries[..i][0] == entries[0];
      assert entries[1..][i - 1] == entries[i] && entries[1..][i..] == entries[i + 1..];
      hide PutEntry, FitEntry;
      Regroup(PutEntry(params, k, s, entries[0]), PutEntries(params, k, s, entries[..i][1..]),
              Put(params, k, entries[i].key) + Put(params, s, entries[i].value)
              + PutEntries(params, k, s, entries[i + 1..]));
    }
  }

  /** A record is its fields, in order. */
  lemma {:induction false} RecordBytes(params: Params, fs: seq<Schema>, items: seq<Value>, i: nat)
    requires |fs| == |items| && FitEach(fs, items) && i < |items|
    ensures FitEach(fs[..i], items[..i]) && Fits(fs[i], items[i]) && FitEach(fs[i + 1..], items[i + 1..])
    ensures PutEach(params, fs, items)
         == PutEach(params, fs[..i], items[..i])
          + (Put(params, fs[i], items[i]) + PutEach(params, fs[i + 1..], items[i + 1..]))
    decreases i
  {
    hide Put, Fits;
    if i == 0 {
      assert items[..0] == [] && PutEach(params, fs[..0], items[..0]) == [];
    } else {
      RecordBytes(params, fs[1..], items[1..], i - 1);
      assert items[1..][..i - 1] == items[..i][1..] && items[..i][0] == items[0];
      assert fs[1..][..i - 1] == fs[..i][1..] && fs[..i][0] == fs[0];
      assert items[1..][i - 1] == items[i] && fs[1..][i - 1] == fs[i];
      assert items[1..][i..] == items[i + 1..] && fs[1..][i..] == fs[i + 1..];
      Regroup(Put(params, fs[0], items[0]), PutEach(params, fs[..i][1..], items[..i][1..]),
              Put(params, fs[i], items[i]) + PutEach(params, fs[i + 1..], items[i + 1..]));
    }
  }

  // ---------------------------------------------------------------- the header

  /** 'P', 'S', version 1, and a byte with flag 7 for the header and flag 0 for large counts. */
  lemma HeaderBytes(params: Params)
    ensures Header(params)
         == if !params.encodeHeader then [] else [80, 83, 1, if params.largeElementSize then 129 else 128]
  {
  }

  /** Any four such bytes are a header; only flags 7 and 0 of the last are looked at. */
  lemma HeaderRead(input: seq<Byte>)
    ensures ReadHeader(input)
         == if |input| >= 4 && input[0] == 80 && input[1] == 83 && input[2] == 1
            then Some((Params(input[3] >= 128, input[3] % 2 == 1, false), input[4..]))
            else None
  {
    if |input| >= 2 { assert input[..2] == [input[0], input[1]]; }
  }
}
