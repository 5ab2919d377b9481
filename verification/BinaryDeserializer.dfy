/** The deserializer over an input stream. */
module BinaryDeserializers {
  import opened Wrappers
  import opened Basics
  import opened PropertyCodec
  import opened ValueCodec
  import opened ValueRoundTrip
  import opened BinarySerializers

  class BinaryDeserializer {
    const input: seq<Byte>
    const params: Params
    /** The get position of the input stream. */
    var at: nat
    /** The values read so far fill the buffer, which is as long as the input, up to here. */
    var cursor: nat

    ghost predicate Valid()
      reads this
    {
      cursor <= at <= |input|
    }

    ghost function Rest(): seq<Byte>
      requires at <= |input|
      reads this
    {
      input[at..]
    }

    /** Reads the header when told to; it does not look for one when it is given parameters. */
    constructor (input: seq<Byte>, readHeader: bool)
      requires readHeader ==> ReadHeader(input).Some?
      ensures Valid() && this.input == input
      ensures if readHeader then ReadHeader(input) == Some((params, Rest()))
              else params == DEFAULT_PARAMS && Rest() == input
    {
      this.input, cursor := input, 0;
      at := if readHeader then 4 else 0;
      params := if readHeader then DecodeParams(input[3]) else DEFAULT_PARAMS;
    }

    constructor WithParams(input: seq<Byte>, params: Params)
      ensures Valid() && this.input == input && this.params == params && Rest() == input
    {
      this.input, this.params, at, cursor := input, params, 0, 0;
    }

    /** istream::read, which fails when the stream ends first. */
    method Read(n: nat) returns (bytes: Option<seq<Byte>>)
      requires Valid()
      modifies this`at
      ensures Valid() && cursor <= old(at)
      ensures |old(Rest())| < n ==> bytes == None && at == old(at)
      ensures |old(Rest())| >= n ==> bytes == Some(old(Rest())[..n]) && Rest() == old(Rest())[n..] && at == old(at) + n
    {
      if |input| - at < n {
        return None;
      }
      assert input[at..][..n] == input[at..at + n] && input[at..][n..] == input[at + n..];
      bytes := Some(input[at..at + n]);
      at := at + n;
    }

    /** How many elements the property has. */
    method ReadCount(container: Byte) returns (elements: Option<nat>)
      requires Valid()
      modifies this`at
      ensures Valid()
      ensures match DecodeCount(params, container, old(Rest()))
              case None => elements == None
              case Some((n, rest)) => elements == Some(n) && Rest() == rest
    {
      if container == SCALAR {
        return Some(1);
      }
      if !EncodesCount(params, container) {
        return Some(0);
      }
      var bytes := Read(CountSize(params));
      if bytes.None? {
        return None;
      }
      return Some(FromBytes(bytes.value));
    }

    /** The next property, or None when the stream ends first; its value always fits into the buffer. */
    method GetProperty() returns (property: Option<Property>)
      requires Valid()
      modifies this
      ensures Valid()
      ensures match Decode(params, old(Rest()))
              case None => property == None
              case Some((p, rest)) =>
                property == Some(p) && Rest() == rest && cursor == old(cursor) + |p.value| <= |input|
    {
      hide DecodeCount, SizeOf;
      var tags := Read(2);
      if tags.None? {
        return None;
      }
      var container, propertyType := tags.value[0], tags.value[1];
      var elements := ReadCount(container);
      if elements.None? {
        return None;
      }
      var size := ByteCount(elements.value, propertyType);
      if size >= MAX_READ {
        return None;
      }
      var value := Read(size);
      if value.None? {
        return None;
      }
      cursor := cursor + size;
      return Some(Property(value.value, propertyType, container, elements.value));
    }

    method GetScalarValue(t: Byte) returns (bytes: Option<seq<Byte>>)
      requires Valid()
      modifies this
      ensures Valid()
      ensures match GetScalar(params, t, old(Rest()))
              case None => bytes == None
              case Some((b, rest)) => bytes == Some(b) && Rest() == rest
    {
      hide Decode;
      var p := GetProperty();
      if p.None? || p.value.container != SCALAR || p.value.propertyType != t || |p.value.value| != SizeOf(t) {
        return None;
      }
      return Some(p.value.value);
    }

    method GetLeaf(s: Schema) returns (v: Option<Value>)
      requires Valid() && (s.Scalar? || s.Text? || s.Numbers? || s.Tuple?)
      modifies this
      ensures Valid()
      ensures match Get(params, s, Default(s), old(Rest()))
              case None => v == None
              case Some((w, rest)) => v == Some(w) && Rest() == rest
    {
      hide Decode, SizeOf;
      var found := GetProperty();
      if found.None? {
        return None;
      }
      var p := found.value;
      match s {
        case Scalar(t) =>
          return if p.container == SCALAR && p.propertyType == t && |p.value|
                  == SizeOf(t) then Some(Bits(p.value)) else None;
        case Text =>
          if p.propertyType != CHARACTER {
            return None;
          }
          if p.container == NULL_TERM_STRING {
            if p.elements == 0 || |p.value| < p.elements {
              return None;
            }
            return Some(Str(p.value[..p.elements - 1]));
          }
          if p.container == STRING {
            return if |p.value| < p.elements then None else Some(Str(p.value[..p.elements]));
          }
          return Some(Str([]));
        case Numbers(t) =>
          return if p.container == ARRAY && p.propertyType == t then Some(Bits(p.value)) else None;
        case Tuple(t, c, n) =>
          return if p.propertyType == t && p.container == c && p.elements == n then Some(Bits(p.value)) else None;
      }
    }

    /** get_value, for the shape that the schema names, into an output that holds `out`. */
    method GetValue(s: Schema, out: Value) returns (v: Option<Value>)
      requires Valid()
      modifies this
      ensures Valid()
      ensures match Get(params, s, out, old(Rest()))
              case None => v == None
              case Some((w, rest)) => v == Some(w) && Rest() == rest
      decreases s, 1, 0
    {
      match s {
        case ListOf(_) =>
          var size := GetScalarValue(INTEGER64);
          if size.None? {
            return None;
          }
          v := GetAll(s, FromBytes(size.value), if out.Items? then out.items else []);
        case MapOf(_, _) =>
          var size := GetScalarValue(INTEGER64);
          if size.None? {
            return None;
          }
          v := GetPairs(s, FromBytes(size.value));
        case Maybe(e) =>
          var flag := GetScalarValue(BOOLEAN);
          if flag.None? {
            return None;
          }
          if flag.value == [0] {
            return Some(Nothing);
          }
          var underlying := GetValue(e, Default(e));
          v := if underlying.None? then None else Some(Just(underlying.value));
        case Record(fs, reflected) =>
          var outs := if reflected && out.Items? && |out.items| == |fs| then out.items else Defaults(fs);
          var fields := GetFields(fs, outs);
          v := if fields.None? then None else Some(Items(fields.value));
        case _ =>
          v := GetLeaf(s);
      }
    }

    /** The loop over the elements of a vector, which are pushed back behind `found`. */
    method GetAll(s: Schema, size: nat, found: seq<Value>) returns (v: Option<Value>)
      requires Valid() && s.ListOf?
      modifies this
      ensures Valid()
      ensures match GetItems(params, s, size, found, old(Rest()))
              case None => v == None
              case Some((w, rest)) => v == Some(w) && Rest() == rest
      decreases s, 0, 0
    {
      hide Get;
      var items, i := found, 0;
      while i < size
        invariant 0 <= i <= size && Valid()
        invariant GetItems(params, s, size - i, items, Rest()) == GetItems(params, s, size, found, old(Rest()))
      {
        var value := GetValue(s.element, Default(s.element));
        if value.None? {
          return None;
        }
        items := items + [value.value];
        i := i + 1;
      }
      return Some(Items(items));
    }

    /** The loop over the pairs of a map, which has been cleared. */
    method GetPairs(s: Schema, size: nat) returns (v: Option<Value>)
      requires Valid() && s.MapOf?
      modifies this
      ensures Valid()
      ensures match GetEntries(params, s, size, [], old(Rest()))
              case None => v == None
              case Some((w, rest)) => v == Some(w) && Rest() == rest
      decreases s, 0, 0
    {
      hide Get;
      var entries, i := [], 0;
      while i < size
        invariant 0 <= i <= size && Valid()
        invariant GetEntries(params, s, size - i, entries, Rest()) == GetEntries(params, s, size, [], old(Rest()))
      {
        var key := GetValue(s.key, Default(s.key));
        if key.None? {
          return None;
        }
        var value := GetValue(s.value, Default(s.value));
        if value.None? {
          return None;
        }
        entries := InsertOrAssign(entries, Entry(key.value, value.value));
        i := i + 1;
      }
      return Some(Entries(entries));
    }

    /** The fields, in order. */
    method GetFields(fs: seq<Schema>, outs: seq<Value>) returns (vs: Option<seq<Value>>)
      requires Valid() && |outs| == |fs|
      modifies this
      ensures Valid()
      ensures match GetEach(params, fs, outs, old(Rest()))
              case None => vs == None
              case Some((ws, rest)) => vs == Some(ws) && Rest() == rest
      decreases fs, 0, 0
    {
      hide Get;
      if fs == [] {
        return Some([]);
      }
      var first := GetValue(fs[0], outs[0]);
      if first.None? {
        return None;
      }
      var more := GetFields(fs[1..], outs[1..]);
      if more.None? {
        return None;
      }
      return Some([first.value] + more.value);
    }
  }

  /**
   * Writing and reading back: from the header when there is one, which cannot say that elements
   * are packed, or else with the same parameters.
   */
  method WriteThenRead(params: Params, s: Schema, v: Value) returns (back: Option<Value>)
    requires Fits(s, v)
    ensures Sized(params, s, v) ==> back == Some(v)
    ensures !(params.encodeHeader && params.packElements) && !Sized(params, s, v) ==> back != Some(v)
  {
    hide Get, Put, Fits, Sized, Default, Header, ReadHeader;
    var writer := new BinarySerializer(params);
    NoPieces(params);
    writer.AddValue(s, v);
    ReadByDefault(params, s, v);
    if params.encodeHeader {
      HeaderRoundTrip(params, Put(params, s, v));
      ReadByDefault(params.(packElements := false), s, v);
      if Sized(params, s, v) {
        PackingIsIgnored(params, s, v);
      } else if !params.packElements {
        assert params.(packElements := false) == params;
      }
      var reader := new BinaryDeserializer(writer.output, true);
      back := reader.GetValue(s, Default(s));
    } else {
      var reader := new BinaryDeserializer.WithParams(writer.output, params);
      back := reader.GetValue(s, Default(s));
    }
  }

  lemma NoPieces(params: Params)
    ensures !params.encodeHeader ==> Header(params) == []
    ensures forall bytes: seq<Byte> :: [] + bytes == bytes
  {
  }

  lemma ReadByDefault(params: Params, s: Schema, v: Value)
    requires Fits(s, v)
    ensures Outcome(Get(params, s, Default(s), Put(params, s, v)), Sized(params, s, v), v, [])
  {
    assert Put(params, s, v) + [] == Put(params, s, v);
    hide *;
    DefaultBack(params, s, v, []);
  }

  /** The value has some property; only records without fields have none. */
  predicate HasProperty(s: Schema)
    decreases s
  {
    s.Record? ==> AnyHasProperty(s.fields)
  }

  predicate AnyHasProperty(fs: seq<Schema>)
    decreases fs
  {
    fs != [] && (HasProperty(fs[0]) || AnyHasProperty(fs[1..]))
  }

  lemma HeaderIsNoProperty(params: Params, rest: seq<Byte>)
    requires params.encodeHeader
    ensures var d := Decode(params, Header(params) + rest);
            d.Some? ==> d.value.0.container == 0x50 && d.value.0.propertyType == 0x53
  {
    hide DecodeCount, SizeOf;
  }

  /**
   * The constructor that is given parameters does not skip a header: nothing that was written
   * behind one can then be read.
   */
  lemma {:induction false} HeaderInTheWay(params: Params, s: Schema, out: Value, v: Value, rest: seq<Byte>)
    requires params.encodeHeader && Fits(s, v)
    ensures var input := Header(params) + rest;
            var r := Get(params, s, out, input);
            if HasProperty(s) then r == None else r.Some? && r.value.1 == input
    decreases s
  {
    HeaderIsNoProperty(params, rest);
    hide Decode, Header;
    if s.Record? {
      var reflected := s.reflected && out.Items? && |out.items| == |s.fields|;
      HeaderInTheWayOfEach(params, s.fields, if reflected then out.items else Defaults(s.fields), v.items, rest);
      hide GetEach, AnyHasProperty;
    }
  }

  lemma {:induction false} HeaderInTheWayOfEach(params: Params, fs: seq<Schema>, outs: seq<Value>,
          items: seq<Value>, rest: seq<Byte>)
    requires params.encodeHeader && |outs| == |fs| == |items| && FitEach(fs, items)
    ensures var input := Header(params) + rest;
            var r := GetEach(params, fs, outs, input);
            if AnyHasProperty(fs) then r == None else r.Some? && r.value.1 == input
    decreases fs
  {
    if fs != [] {
      HeaderInTheWay(params, fs[0], outs[0], items[0], rest);
      HeaderInTheWayOfEach(params, fs[1..], outs[1..], items[1..], rest);
      hide Get, HasProperty, Header;
    }
  }

  /** So a value with a property comes back from a stream with its header exactly when there is no header. */
  lemma HeaderDecides(params: Params, s: Schema, out: Value, v: Value, rest: seq<Byte>)
    requires Fits(s, v) && Sized(params, s, v) && Blank(s, out) && HasProperty(s)
    ensures Get(params, s, out, Header(params) + (Put(params, s, v) + rest)) == Some((v, rest))
        <==> !params.encodeHeader
  {
    NoPieces(params);
    hide *;
    if params.encodeHeader {
      HeaderInTheWay(params, s, out, v, Put(params, s, v) + rest);
    } else {
      RoundTrip(params, s, out, v, rest);
    }
  }
}
