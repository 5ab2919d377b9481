/** Values of nested shapes, how they are written as properties and how they are read back. */
module ValueCodec {
  import opened Wrappers
  import opened Basics
  import opened PropertyCodec

  /** What the reader expects; the types that add_value and get_value distinguish. */
  datatype Schema =
    | Scalar(propertyType: Byte)              // numbers, bool, 128-bit integers, enums, string ids
    | Text
    | Numbers(propertyType: Byte)             // a vector of fundamental elements
    | Tuple(propertyType: Byte, container: Byte, length: nat)  // GLM vectors and matrices
    | ListOf(element: Schema)                 // a vector of complex elements
    | MapOf(key: Schema, value: Schema)
    | Maybe(element: Schema)
    | Record(fields: seq<Schema>, reflected: bool)  // read field by field in place, or into a new object

  datatype Value =
    | Bits(bytes: seq<Byte>)
    | Str(chars: seq<Byte>)
    | Items(items: seq<Value>)
    | Entries(entries: seq<Entry>)
    | Nothing
    | Just(value: Value)

  datatype Entry = Entry(key: Value, value: Value)

  // ---------------------------------------------------------------- values that fit a schema

  predicate Fits(s: Schema, v: Value)
    decreases v
  {
    match s
    case Scalar(t) => v.Bits? && |v.bytes| == SizeOf(t)
    case Text => v.Str?
    case Numbers(t) => v.Bits? && SizeOf(t) > 0 && |v.bytes| % SizeOf(t) == 0
    case Tuple(t, c, n) =>
      v.Bits? && (c == VECTOR || c == MATRIX) && n > 0 && SizeOf(t) > 0 && |v.bytes| == n * SizeOf(t)
    case ListOf(e) => v.Items? && |v.items| < Power(8) && FitAll(e, v.items)
    case MapOf(k, e) => v.Entries? && |v.entries| < Power(8) && DistinctKeys(v.entries) && FitEntries(k, e, v.entries)
    case Maybe(e) => v.Nothing? || (v.Just? && Fits(e, v.value))
    case Record(fs, _) => v.Items? && |v.items| == |fs| && FitEach(fs, v.items)
  }

  predicate FitAll(s: Schema, items: seq<Value>)
    decreases items
  {
    items == [] || (Fits(s, items[0]) && FitAll(s, items[1..]))
  }

  predicate FitEntries(k: Schema, s: Schema, entries: seq<Entry>)
    decreases entries
  {
    entries == [] || (FitEntry(k, s, entries[0]) && FitEntries(k, s, entries[1..]))
  }

  predicate FitEntry(k: Schema, s: Schema, e: Entry)
    decreases e
  {
    Fits(k, e.key) && Fits(s, e.value)
  }

  predicate FitEach(fs: seq<Schema>, items: seq<Value>)
    requires |fs| == |items|
    decreases items
  {
    items == [] || (Fits(fs[0], items[0]) && FitEach(fs[1..], items[1..]))
  }

  predicate HasKey(entries: seq<Entry>, k: Value) {
    exists i :: 0 <= i < |entries| && entries[i].key == k
  }

  predicate DistinctKeys(entries: seq<Entry>) {
    forall i, j :: 0 <= i < j < |entries| ==> entries[i].key != entries[j].key
  }

  // ---------------------------------------------------------------- writing

  function ScalarProperty(t: Byte, bytes: seq<Byte>): Property {
    Property(bytes, t, SCALAR, 1)
  }

  /** A string goes out with a terminating NUL, which counts as an element. */
  function TextProperty(chars: seq<Byte>): Property {
    Property(chars + [0], CHARACTER, NULL_TERM_STRING, |chars| + 1)
  }

  function NumbersProperty(t: Byte, bytes: seq<Byte>): Property {
    Property(bytes, t, ARRAY, if SizeOf(t) == 0 then 0 else |bytes| / SizeOf(t))
  }

  function TupleProperty(t: Byte, container: Byte, n: nat, bytes: seq<Byte>): Property {
    Property(bytes, t, container, n)
  }

  function PutSize(params: Params, n: nat): seq<Byte> {
    Encode(params, ScalarProperty(INTEGER64, ToBytes(n, 8)))
  }

  function PutFlag(params: Params, b: bool): seq<Byte> {
    Encode(params, ScalarProperty(BOOLEAN, [if b then 1 else 0]))
  }

  /** What add_value appends to the stream. */
  function Put(params: Params, s: Schema, v: Value): seq<Byte>
    requires Fits(s, v)
    decreases v
  {
    match s
    case Scalar(t) => Encode(params, ScalarProperty(t, v.bytes))
    case Text => Encode(params, TextProperty(v.chars))
    case Numbers(t) => Encode(params, NumbersProperty(t, v.bytes))
    case Tuple(t, c, n) => Encode(params, TupleProperty(t, c, n, v.bytes))
    case ListOf(e) => PutSize(params, |v.items|) + PutAll(params, e, v.items)
    case MapOf(k, e) => PutSize(params, |v.entries|) + PutEntries(params, k, e, v.entries)
    case Maybe(e) => if v.Nothing? then PutFlag(params, false) else PutFlag(params, true) + Put(params, e, v.value)
    case Record(fs, _) => PutEach(params, fs, v.items)
  }

  function PutAll(params: Params, s: Schema, items: seq<Value>): seq<Byte>
    requires FitAll(s, items)
    decreases items
  {
    if items == [] then [] else Put(params, s, items[0]) + PutAll(params, s, items[1..])
  }

  function PutEntries(params: Params, k: Schema, s: Schema, entries: seq<Entry>): seq<Byte>
    requires FitEntries(k, s, entries)
    decreases entries
  {
    if entries == [] then [] else PutEntry(params, k, s, entries[0]) + PutEntries(params, k, s, entries[1..])
  }

  function PutEntry(params: Params, k: Schema, s: Schema, e: Entry): seq<Byte>
    requires FitEntry(k, s, e)
    decreases e
  {
    Put(params, k, e.key) + Put(params, s, e.value)
  }

  function PutEach(params: Params, fs: seq<Schema>, items: seq<Value>): seq<Byte>
    requires |fs| == |items| && FitEach(fs, items)
    decreases items
  {
    if items == [] then [] else Put(params, fs[0], items[0]) + PutEach(params, fs[1..], items[1..])
  }

  // ---------------------------------------------------------------- reading

  /** A default-constructed output. */
  function Default(s: Schema): Value {
    match s
    case Scalar(t) => Bits(seq(SizeOf(t), _ => 0))
    case Text => Str([])
    case Numbers(_) => Bits([])
    case Tuple(t, _, n) => Bits(seq(n * SizeOf(t), _ => 0))
    case ListOf(_) => Items([])
    case MapOf(_, _) => Entries([])
    case Maybe(_) => Nothing
    case Record(fs, _) => Items(Defaults(fs))
  }

  function Defaults(fs: seq<Schema>): (ds: seq<Value>)
    ensures |ds| == |fs|
  {
    if fs == [] then [] else [Default(fs[0])] + Defaults(fs[1..])
  }

  type Reading<T> = Option<(T, seq<Byte>)>

  function GetScalar(params: Params, t: Byte, input: seq<Byte>): Reading<seq<Byte>> {
    match Decode(params, input)
    case None => None
    case Some((p, rest)) =>
      if p.container == SCALAR && p.propertyType == t && |p.value| == SizeOf(t) then Some((p.value, rest)) else None
  }

  function GetText(params: Params, input: seq<Byte>): Reading<Value> {
    match Decode(params, input)
    case None => None
    case Some((p, rest)) =>
      if p.propertyType != CHARACTER then None
      else if p.container == NULL_TERM_STRING then
        // The length would wrap around below zero.
        if p.elements == 0 || |p.value| < p.elements then None else Some((Str(p.value[..p.elements - 1]), rest))
      else if p.container == STRING then
        if |p.value| < p.elements then None else Some((Str(p.value[..p.elements]), rest))
      else Some((Str([]), rest))
  }

  function GetNumbers(params: Params, t: Byte, input: seq<Byte>): Reading<Value> {
    match Decode(params, input)
    case None => None
    case Some((p, rest)) =>
      if p.container == ARRAY && p.propertyType == t then Some((Bits(p.value), rest)) else None
  }

  function GetTuple(params: Params, t: Byte, container: Byte, n: nat, input: seq<Byte>): Reading<Value> {
    match Decode(params, input)
    case None => None
    case Some((p, rest)) =>
      if p.propertyType == t && p.container == container && p.elements == n then Some((Bits(p.value), rest)) else None
  }

  /** insert_or_assign */
  function InsertOrAssign(entries: seq<Entry>, e: Entry): seq<Entry> {
    if entries == [] then [e]
    else if entries[0].key == e.key then [e] + entries[1..]
    else [entries[0]] + InsertOrAssign(entries[1..], e)
  }

  /**
   * What get_value stores into an output that holds `out`; None when an assertion fails or the
   * stream ends.  Vectors of complex elements are appended to, maps are cleared first.
   */
  function Get(params: Params, s: Schema, out: Value, input: seq<Byte>): Reading<Value>
    decreases s, 1, 0
  {
    match s
    case Scalar(t) =>
      (match GetScalar(params, t, input)
       case None => None
       case Some((bytes, rest)) => Some((Bits(bytes), rest)))
    case Text => GetText(params, input)
    case Numbers(t) => GetNumbers(params, t, input)
    case Tuple(t, c, n) => GetTuple(params, t, c, n, input)
    case ListOf(_) =>
      (match GetScalar(params, INTEGER64, input)
       case None => None
       case Some((size, rest)) => GetItems(params, s, FromBytes(size), if out.Items? then out.items else [], rest))
    case MapOf(_, _) =>
      (match GetScalar(params, INTEGER64, input)
       case None => None
       case Some((size, rest)) => GetEntries(params, s, FromBytes(size), [], rest))
    case Maybe(e) =>
      (match GetScalar(params, BOOLEAN, input)
       case None => None
       case Some((flag, rest)) =>
         if flag == [0] then Some((Nothing, rest))
         else
           match Get(params, e, Default(e), rest)
           case None => None
           case Some((v, end)) => Some((Just(v), end)))
    case Record(fs, reflected) =>
      var outs := if reflected && out.Items? && |out.items| == |fs| then out.items else Defaults(fs);
      match GetEach(params, fs, outs, input)
      case None => None
      case Some((vs, rest)) => Some((Items(vs), rest))
  }

  function GetItems(params: Params, s: Schema, n: nat, found: seq<Value>, input: seq<Byte>): Reading<Value>
    requires s.ListOf?
    decreases s, 0, n
  {
    if n == 0 then Some((Items(found), input))
    else
      match Get(params, s.element, Default(s.element), input)
      case None => None
      case Some((v, rest)) => GetItems(params, s, n - 1, found + [v], rest)
  }

  function GetEntries(params: Params, s: Schema, n: nat, found: seq<Entry>, input: seq<Byte>): Reading<Value>
    requires s.MapOf?
    decreases s, 0, n
  {
    if n == 0 then Some((Entries(found), input))
    else
      match Get(params, s.key, Default(s.key), input)
      case None => None
      case Some((k, middle)) =>
        match Get(params, s.value, Default(s.value), middle)
        case None => None
        case Some((v, rest)) => GetEntries(params, s, n - 1, InsertOrAssign(found, Entry(k, v)), rest)
  }

  function GetEach(params: Params, fs: seq<Schema>, outs: seq<Value>, input: seq<Byte>): Reading<seq<Value>>
    requires |outs| == |fs|
    decreases fs, 0, 0
  {
    if fs == [] then Some(([], input))
    else
      match Get(params, fs[0], outs[0], input)
      case None => None
      case Some((v, middle)) =>
        match GetEach(params, fs[1..], outs[1..], middle)
        case None => None
        case Some((vs, rest)) => Some(([v] + vs, rest))
  }
}
