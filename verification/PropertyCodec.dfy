/** The binary format: the header, and the encoding of one property. */
module PropertyCodec {
  import opened Wrappers
  import opened Basics

  datatype Params = Params(encodeHeader: bool, largeElementSize: bool, packElements: bool)

  const DEFAULT_PARAMS := Params(true, false, false)

  // ---------------------------------------------------------------- numbers as bytes

  function Power(n: nat): (p: nat)
    ensures p > 0
  {
    if n == 0 then 1 else 256 * Power(n - 1)
  }

  /** The `k` low bytes of `n`, the lowest first. */
  function ToBytes(n: nat, k: nat): (bytes: seq<Byte>)
    ensures |bytes| == k
  {
    if k == 0 then [] else [n % 256] + ToBytes(n / 256, k - 1)
  }

  function FromBytes(bytes: seq<Byte>): nat {
    if bytes == [] then 0 else bytes[0] + 256 * FromBytes(bytes[1..])
  }

  /** Reading a number back gives what fits into its bytes. */
  lemma {:induction false} BytesBack(n: nat, k: nat)
    ensures FromBytes(ToBytes(n, k)) == n % Power(k)
    ensures n < Power(k) ==> FromBytes(ToBytes(n, k)) == n
  {
    if k > 0 {
      BytesBack(n / 256, k - 1);
      assert ToBytes(n, k)[1..] == ToBytes(n / 256, k - 1);
      DigitMod(n, Power(k - 1));
    }
  }

  lemma DigitMod(n: nat, p: nat)
    requires p > 0
    ensures n % (256 * p) == n % 256 + 256 * ((n / 256) % p)
    ensures n < 256 * p ==> n / 256 < p
  {
    var q, r := (n / 256) / p, (n / 256) % p;
    assert n / 256 == p * q + r;
    assert 256 * (p * q) == (256 * p) * q;
    DivisionIs(n, 256 * p, q, 256 * r + n % 256);
  }

  // ---------------------------------------------------------------- properties

  // PropertyType
  const BINARY: Byte := 0
  const INTEGER8: Byte := 1
  const INTEGER16: Byte := 2
  const INTEGER32: Byte := 3
  const INTEGER64: Byte := 4
  const INTEGER128: Byte := 5
  const FLOATING32: Byte := 6
  const FLOATING64: Byte := 7
  const CHARACTER: Byte := 8
  const BOOLEAN: Byte := 9

  // PropertyContainerType
  const SCALAR: Byte := 1
  const ARRAY: Byte := 2
  const STRING: Byte := 3
  const NULL_TERM_STRING: Byte := 4
  const VECTOR: Byte := 5
  const MATRIX: Byte := 6

  /** get_size; anything else has no size of its own. */
  function SizeOf(propertyType: Byte): nat {
    if propertyType == BINARY || propertyType == CHARACTER || propertyType == INTEGER8 then 1
    else if propertyType == INTEGER16 then 2
    else if propertyType == INTEGER32 || propertyType == FLOATING32 then 4
    else if propertyType == INTEGER64 || propertyType == FLOATING64 then 8
    else if propertyType == INTEGER128 then 16
    else if propertyType == BOOLEAN then 1
    else 0
  }

  datatype Property = Property(value: seq<Byte>, propertyType: Byte, container: Byte, elements: nat)

  /** Values have as many bytes as their elements take, and a scalar is one element. */
  predicate WellFormed(p: Property) {
    |p.value| == p.elements * SizeOf(p.propertyType) && (p.container == SCALAR ==> p.elements == 1)
  }

  /** element_number_size */
  function CountSize(params: Params): nat {
    if params.largeElementSize then 8 else 2
  }

  /** should_encode_element_number */
  predicate EncodesCount(params: Params, container: Byte) {
    if container == SCALAR then false
    else if container == VECTOR || container == MATRIX then !params.packElements
    else true
  }

  function Count(params: Params, p: Property): seq<Byte> {
    if EncodesCount(params, p.container) then ToBytes(p.elements, CountSize(params)) else []
  }

  /** What stands in front of the value. */
  function Prefix(params: Params, p: Property): seq<Byte> {
    [p.container, p.propertyType] + Count(params, p)
  }

  function Encode(params: Params, p: Property): seq<Byte> {
    Prefix(params, p) + p.value
  }

  /** The number of elements, and where the value starts. */
  function DecodeCount(params: Params, container: Byte, input: seq<Byte>): Option<(nat, seq<Byte>)> {
    if container == SCALAR then Some((1, input))
    else if !EncodesCount(params, container) then Some((0, input))
    else if |input| < CountSize(params) then None
    else Some((FromBytes(input[..CountSize(params)]), input[CountSize(params)..]))
  }

  /** What one call of istream::read can be asked for; a larger number reaches it as a negative one. */
  const MAX_READ: nat := WORD / 2

  /** How many bytes the elements take: the product of two 64-bit numbers. */
  function ByteCount(elements: nat, propertyType: Byte): (n: nat)
    ensures n < WORD
  {
    (elements * SizeOf(propertyType)) % WORD
  }

  /** One property and the rest of the stream; None when the stream ends first. */
  function Decode(params: Params, input: seq<Byte>): Option<(Property, seq<Byte>)> {
    if |input| < 2 then None
    else
      match DecodeCount(params, input[0], input[2..])
      case None => None
      case Some((elements, rest)) =>
        DecodeValue(input[0], input[1], elements, rest)
  }

  /** The value that follows a count of `elements`. */
  function DecodeValue(container: Byte, propertyType: Byte, elements: nat, rest: seq<Byte>)
    : Option<(Property, seq<Byte>)>
  {
    var size := ByteCount(elements, propertyType);
    if size >= MAX_READ || |rest| < size then None
    else Some((Property(rest[..size], propertyType, container, elements), rest[size..]))
  }

  /** The stream tells how many elements there are. */
  predicate CountFits(params: Params, p: Property) {
    if p.container == SCALAR then true
    else if EncodesCount(params, p.container) then p.elements < Power(CountSize(params))
    else p.elements == 0
  }

  /** And the value can be read at once. */
  predicate Readable(params: Params, p: Property) {
    CountFits(params, p) && |p.value| < MAX_READ
  }

  lemma CountBack(params: Params, p: Property, rest: seq<Byte>)
    requires WellFormed(p)
    ensures DecodeCount(params, p.container, Count(params, p) + rest).Some?
    ensures DecodeCount(params, p.container, Count(params, p) + rest).value.1 == rest
    ensures CountFits(params, p) <==> DecodeCount(params, p.container, Count(params, p) + rest).value.0 == p.elements
    ensures DecodeCount(params, p.container, Count(params, p) + rest).value.0 <= p.elements
  {
    if EncodesCount(params, p.container) {
      var k := CountSize(params);
      BytesBack(p.elements, k);
      assert (Count(params, p) + rest)[..k] == Count(params, p);
      assert (Count(params, p) + rest)[k..] == rest;
      ModBelow(p.elements, Power(k));
    }
  }

  lemma ModBelow(n: nat, m: nat)
    requires m > 0
    ensures n % m < m && n % m <= n
  {
  }

  /** The bytes read are those of the elements read, unless there are too many of them. */
  lemma BytesOfElements(p: Property, elements: nat)
    requires WellFormed(p) && elements <= p.elements
    ensures ByteCount(elements, p.propertyType) <= elements * SizeOf(p.propertyType) <= |p.value|
    ensures |p.value| < WORD && elements == p.elements ==> ByteCount(elements, p.propertyType) == |p.value|
    ensures |p.value| >= WORD ==> ByteCount(elements, p.propertyType) < |p.value|
    ensures elements < p.elements && SizeOf(p.propertyType) > 0 ==> ByteCount(elements, p.propertyType) < |p.value|
  {
    var k, n := SizeOf(p.propertyType), elements * SizeOf(p.propertyType);
    assert p.elements * k == n + (p.elements - elements) * k;
    AtLeast(k, p.elements - elements);
    assert (p.elements - elements) * k == k * (p.elements - elements);
    ModBelow(n, WORD);
    hide SizeOf;
    if n < WORD {
      DivisionIs(n, WORD, 0, n);
    }
  }

  lemma DecodeUnfolds(params: Params, p: Property, after: seq<Byte>)
    ensures Decode(params, Prefix(params, p) + after)
         == match DecodeCount(params, p.container, Count(params, p) + after)
            case None => None
            case Some((elements, rest)) => DecodeValue(p.container, p.propertyType, elements, rest)
  {
    var input := Prefix(params, p) + after;
    assert input[2..] == Count(params, p) + after;
    hide DecodeCount, Count, SizeOf;
  }

  /**
   * A property is read back, and what follows it left untouched, exactly when its number of
   * elements fits into the count that the parameters provide for it, and its value into one read.
   */
  lemma PropertyRoundTrip(params: Params, p: Property, rest: seq<Byte>)
    requires WellFormed(p)
    ensures Decode(params, Encode(params, p) + rest) == Some((p, rest)) <==> Readable(params, p)
  {
    var after := p.value + rest;
    assert Encode(params, p) + rest == Prefix(params, p) + after;
    DecodeUnfolds(params, p, after);
    CountBack(params, p, after);
    assert after[..|p.value|] == p.value && after[|p.value|..] == rest;
    BytesOfElements(p, DecodeCount(params, p.container, Count(params, p) + after).value.0);
    hide DecodeCount, Count, SizeOf, CountFits, Decode, Prefix, Encode, ByteCount, WellFormed;
  }

  /** Otherwise fewer elements or fewer bytes are read, or the reading fails. */
  lemma Misread(params: Params, p: Property, rest: seq<Byte>)
    requires WellFormed(p) && !Readable(params, p)
    ensures match Decode(params, Encode(params, p) + rest)
            case None => true
            case Some((q, _)) =>
              && q.container == p.container && q.propertyType == p.propertyType
              && q.elements <= p.elements && |q.value| <= q.elements * SizeOf(q.propertyType)
              && (q.elements < p.elements || |q.value| < |p.value|)
              && (SizeOf(p.propertyType) > 0 ==> |q.value| < |p.value|)
  {
    var after := p.value + rest;
    assert Encode(params, p) + rest == Prefix(params, p) + after;
    DecodeUnfolds(params, p, after);
    CountBack(params, p, after);
    var elements := DecodeCount(params, p.container, Count(params, p) + after).value.0;
    BytesOfElements(p, elements);
    hide DecodeCount, Count, SizeOf, CountFits, Decode, Prefix, Encode, ByteCount, WellFormed;
  }

  // ---------------------------------------------------------------- the header

  const MAGIC: seq<Byte> := [0x50, 0x53]
  const VERSION: Byte := 1

  function EncodeParams(params: Params): Byte {
    (if params.largeElementSize then 1 else 0) + (if params.encodeHeader then 128 else 0)
  }

  function DecodeParams(b: Byte): Params {
    Params(b / 128 == 1, b % 2 == 1, false)
  }

  /** What the serializer writes first. */
  function Header(params: Params): seq<Byte> {
    if params.encodeHeader then MAGIC + [VERSION, EncodeParams(params)] else []
  }

  /** A deserializer told to read a header; None when there is no valid one. */
  function ReadHeader(input: seq<Byte>): Option<(Params, seq<Byte>)> {
    if |input| < 4 || input[..2] != MAGIC || input[2] != VERSION then None
    else Some((DecodeParams(input[3]), input[4..]))
  }

  /** The header carries the parameters exactly when elements are not packed. */
  lemma HeaderRoundTrip(params: Params, rest: seq<Byte>)
    requires params.encodeHeader
    ensures ReadHeader(Header(params) + rest) == Some((params, rest)) <==> !params.packElements
    ensures ReadHeader(Header(params) + rest) == Some((params.(packElements := false), rest))
  {
    var input := Header(params) + rest;
    assert input[..2] == MAGIC && input[4..] == rest;
  }
}
