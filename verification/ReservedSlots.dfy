/** Slots that are reserved first and filled later, with any other writes in between. */
module ReservedSlots {
  import opened Wrappers
  import opened Basics
  import opened PropertyCodec
  import opened BinarySerializers

  /**
   * What a client does to a serializer: add a property, reserve a slot for one, or fill a
   * slot.  Slots are named by their place among the properties and slots written.
   */
  datatype Write = Add(p: Property) | Reserve(p: Property) | Fill(slot: nat, data: seq<Byte>)

  /** The bytes in the stream, and where the values of the reserved slots start. */
  datatype Log = Log(bytes: seq<Byte>, positions: map<nat, nat>)

  function WithoutFills(writes: seq<Write>): (r: seq<Write>)
    ensures forall i :: 0 <= i < |r| ==> !r[i].Fill?
  {
    if writes == [] then []
    else
      var front, last := writes[..|writes| - 1], writes[|writes| - 1];
      if last.Fill? then WithoutFills(front) else WithoutFills(front) + [last]
  }

  /** Only slots that have been reserved are filled, with values of their size. */
  predicate Proper(writes: seq<Write>) {
    writes == [] ||
    (var front, last := writes[..|writes| - 1], writes[|writes| - 1];
     Proper(front) && (last.Fill? ==> CanFill(WithoutFills(front), last.slot, last.data)))
  }

  predicate CanFill(ws: seq<Write>, slot: nat, data: seq<Byte>) {
    slot < |ws| && ws[slot].Reserve? && |data| == |ws[slot].p.value|
  }

  function Zeros(n: nat): seq<Byte> {
    seq(n, _ => 0)
  }

  /**
   * The writes on bytes alone: a position is taken when the slot is reserved, and a value is
   * written over whatever is there when the slot is filled.  None if that would be behind the end.
   */
  function Performed(params: Params, writes: seq<Write>): Option<Log> {
    if writes == [] then Some(Log(Header(params), map[]))
    else
      var front := writes[..|writes| - 1];
      match Performed(params, front)
      case None => None
      case Some(log) => PerformedNext(params, log, |WithoutFills(front)|, writes[|writes| - 1])
  }

  function PerformedNext(params: Params, log: Log, next: nat, w: Write): Option<Log> {
    match w
    case Add(p) => Some(log.(bytes := log.bytes + Encode(params, p)))
    case Reserve(p) =>
      Some(Log(log.bytes + Prefix(params, p) + Zeros(|p.value|),
               log.positions[next := |log.bytes + Prefix(params, p)|]))
    case Fill(i, data) =>
      if i in log.positions && log.positions[i] + |data| <= |log.bytes|
      then Some(log.(bytes := Patched(log.bytes, log.positions[i], data)))
      else None
  }

  /** The value that each slot was filled with last. */
  function Filled(writes: seq<Write>): map<nat, seq<Byte>> {
    if writes == [] then map[]
    else
      var front, last := writes[..|writes| - 1], writes[|writes| - 1];
      if last.Fill? then Filled(front)[last.slot := last.data] else Filled(front)
  }

  function PropertyOf(w: Write, i: nat, values: map<nat, seq<Byte>>): Property
    requires !w.Fill?
  {
    if w.Add? then w.p else w.p.(value := if i in values then values[i] else Zeros(|w.p.value|))
  }

  /** The properties as they would be written if every value was known at once; other slots hold zeros. */
  function Given(ws: seq<Write>, values: map<nat, seq<Byte>>): seq<Property>
    requires forall i :: 0 <= i < |ws| ==> !ws[i].Fill?
  {
    seq(|ws|, i requires 0 <= i < |ws| => PropertyOf(ws[i], i, values))
  }

  /** The properties in the stream after the writes. */
  function Pieces(writes: seq<Write>): (r: seq<Property>)
    ensures |r| == |WithoutFills(writes)|
  {
    Given(WithoutFills(writes), Filled(writes))
  }

  lemma {:induction false} FilledAreProper(writes: seq<Write>, i: nat)
    requires Proper(writes) && i in Filled(writes)
    ensures CanFill(WithoutFills(writes), i, Filled(writes)[i])
  {
    var front, last := writes[..|writes| - 1], writes[|writes| - 1];
    if i in Filled(front) { FilledAreProper(front, i); }
  }

  lemma PiecesNext(writes: seq<Write>)
    requires Proper(writes) && writes != []
    ensures var front, last := writes[..|writes| - 1], writes[|writes| - 1];
            var n := |WithoutFills(front)|;
            && |Pieces(front)| == n
            && Pieces(writes) == match last
                                 case Add(p) => Pieces(front) + [p]
                                 case Reserve(p) => Pieces(front) + [p.(value := Zeros(|p.value|))]
                                 case Fill(i, data) =>
                                   if i < n then Pieces(front)[i := Pieces(front)[i].(value := data)] else []
  {
    var front := writes[..|writes| - 1];
    if |WithoutFills(front)| in Filled(front) { FilledAreProper(front, |WithoutFills(front)|); }
  }

  lemma PieceSize(writes: seq<Write>, i: nat)
    requires Proper(writes) && i < |WithoutFills(writes)| && WithoutFills(writes)[i].Reserve?
    ensures |Pieces(writes)[i].value| == |WithoutFills(writes)[i].p.value|
  {
    if i in Filled(writes) { FilledAreProper(writes, i); }
  }

  /** The positions taken are those of the slots, however much has been written since. */
  ghost predicate Points(params: Params, ws: seq<Write>, pieces: seq<Property>, positions: map<nat, nat>)
    requires |pieces| == |ws|
  {
    && (forall i: nat :: i in positions <==> i < |ws| && ws[i].Reserve?)
    && forall i: nat :: i in positions && i < |pieces| ==> positions[i] == SlotPosition(params, pieces, i)
  }

  lemma PointsAfterAdd(params: Params, ws: seq<Write>, pieces: seq<Property>, positions: map<nat, nat>, w: Write,
          p: Property)
    requires |pieces| == |ws| && Points(params, ws, pieces, positions) && w.Add?
    ensures Points(params, ws + [w], pieces + [p], positions)
  {
    hide SlotPosition, Stream, Header, Prefix;
    forall i | i in positions ensures SlotPosition(params, pieces + [p], i) == positions[i] {
      SlotsStay(params, pieces, pieces + [p], i);
    }
  }

  lemma PointsAfterReserve(params: Params, ws: seq<Write>, pieces: seq<Property>, positions: map<nat, nat>, w: Write,
          p: Property)
    requires |pieces| == |ws| && Points(params, ws, pieces, positions) && w.Reserve?
    ensures Points(params, ws + [w], pieces + [p],
                   positions[|ws| := |Header(params) + Stream(params, pieces) + Prefix(params, p)|])
  {
    hide SlotPosition, Stream, Header, Prefix;
    forall i | i in positions ensures SlotPosition(params, pieces + [p], i) == positions[i] {
      SlotsStay(params, pieces, pieces + [p], i);
    }
    SlotOfFront(params, pieces, p, |pieces|);
  }

  lemma PointsAfterFill(params: Params, ws: seq<Write>, pieces: seq<Property>, positions: map<nat, nat>, k: nat,
          data: seq<Byte>)
    requires |pieces| == |ws| && Points(params, ws, pieces, positions)
    requires k < |pieces| && |data| == |pieces[k].value|
    ensures Points(params, ws, pieces[k := pieces[k].(value := data)], positions)
  {
    hide SlotPosition, Stream, Header, Prefix;
    var filled := pieces[k := pieces[k].(value := data)];
    forall i | i in positions ensures SlotPosition(params, filled, i) == positions[i] {
      SlotsStay(params, pieces, filled, i);
    }
  }

  ghost predicate Follows(params: Params, writes: seq<Write>, log: Log) {
    && log.bytes == Header(params) + Stream(params, Pieces(writes))
    && Points(params, WithoutFills(writes), Pieces(writes), log.positions)
  }

  lemma NextFollows(params: Params, writes: seq<Write>, log: Log)
    requires Proper(writes) && writes != [] && Follows(params, writes[..|writes| - 1], log)
    ensures var front, last := writes[..|writes| - 1], writes[|writes| - 1];
            var next := PerformedNext(params, log, |WithoutFills(front)|, last);
            next.Some? && Follows(params, writes, next.value)
  {
    var front, last := writes[..|writes| - 1], writes[|writes| - 1];
    var ws, pieces := WithoutFills(front), Pieces(front);
    PiecesNext(writes);
    match last {
      case Add(p) =>
        StreamGrows(params, pieces, p);
        PointsAfterAdd(params, ws, pieces, log.positions, last, p);
        hide Stream, Header, Encode, Points, Pieces;
        Joined(Header(params), Stream(params, pieces), Encode(params, p));
      case Reserve(p) =>
        var slot := p.(value := Zeros(|p.value|));
        StreamGrows(params, pieces, slot);
        PointsAfterReserve(params, ws, pieces, log.positions, last, slot);
        assert Encode(params, slot) == Prefix(params, p) + slot.value && Prefix(params, slot) == Prefix(params, p);
        hide Stream, Header, Encode, Prefix, Points, Pieces;
        Joined4(Header(params), Stream(params, pieces), Prefix(params, p), slot.value);
      case Fill(k, data) =>
        PieceSize(front, k);
        FilledIsWritten(params, pieces, k, data);
        PointsAfterFill(params, ws, pieces, log.positions, k, data);
        hide Stream, Header, SlotPosition, Pieces;
    }
  }

  /**
   * Whatever the order of the writes, the bytes are those of the properties with their values in
   * place from the start, and every slot lies within the stream.
   */
  lemma {:induction false} FilledLater(params: Params, writes: seq<Write>)
    requires Proper(writes)
    ensures Performed(params, writes).Some? && Follows(params, writes, Performed(params, writes).value)
    decreases |writes|
  {
    hide Follows, PerformedNext;
    if writes == [] {
      NothingWritten(params);
    } else {
      FilledLater(params, writes[..|writes| - 1]);
      NextFollows(params, writes, Performed(params, writes[..|writes| - 1]).value);
    }
  }

  lemma NothingWritten(params: Params)
    ensures Follows(params, [], Log(Header(params), map[]))
  {
    assert Header(params) + [] == Header(params);
    assert WithoutFills([]) == [];
    assert Pieces([]) == [];
  }

  /** No slot is filled with two different values. */
  predicate OneValueEach(writes: seq<Write>) {
    forall i, j :: 0 <= i < |writes| && 0 <= j < |writes| ==>
      (writes[i].Fill? && writes[j].Fill? && writes[i].slot == writes[j].slot ==> writes[i].data == writes[j].data)
  }

  lemma {:induction false} FilledHas(writes: seq<Write>, w: Write)
    requires OneValueEach(writes) && w.Fill?
    ensures w in writes <==> w.slot in Filled(writes) && Filled(writes)[w.slot] == w.data
    decreases |writes|
  {
    if writes != [] {
      var front, last := writes[..|writes| - 1], writes[|writes| - 1];
      FilledHas(front, w);
      assert writes == front + [last];
      if last.Fill? && last.slot == w.slot && w in front {
        var i :| 0 <= i < |front| && front[i] == w;
        assert writes[i] == w;
      }
    }
  }

  ghost predicate SameFills(a: seq<Write>, b: seq<Write>) {
    forall w: Write :: w.Fill? ==> (w in a <==> w in b)
  }

  /**
   * Slots may be filled in any order, at any time after they are reserved, and more than once:
   * writes that agree but for that leave the same bytes.
   */
  lemma FilledInAnyOrder(params: Params, a: seq<Write>, b: seq<Write>)
    requires Proper(a) && Proper(b) && WithoutFills(a) == WithoutFills(b)
    requires OneValueEach(a) && OneValueEach(b) && SameFills(a, b)
    ensures Performed(params, a).Some? && Performed(params, a) == Performed(params, b)
  {
    FilledLater(params, a);
    FilledLater(params, b);
    forall i ensures i in Filled(a) <==> i in Filled(b) {
      if i in Filled(a) { FilledHas(a, Fill(i, Filled(a)[i])); FilledHas(b, Fill(i, Filled(a)[i])); }
      if i in Filled(b) { FilledHas(a, Fill(i, Filled(b)[i])); FilledHas(b, Fill(i, Filled(b)[i])); }
    }
    forall i | i in Filled(a) ensures Filled(a)[i] == Filled(b)[i] {
      FilledHas(a, Fill(i, Filled(a)[i]));
      FilledHas(b, Fill(i, Filled(a)[i]));
    }
    assert Filled(a) == Filled(b);
    SamePositions(params, WithoutFills(a), Pieces(a), Performed(params, a).value.positions,
                  Performed(params, b).value.positions);
  }

  lemma SamePositions(params: Params, ws: seq<Write>, pieces: seq<Property>, a: map<nat, nat>, b: map<nat, nat>)
    requires |pieces| == |ws| && Points(params, ws, pieces, a) && Points(params, ws, pieces, b)
    ensures a == b
  {
    hide SlotPosition;
  }

  /** Every property added when its turn comes, with the value it has in the end, and no slot reserved. */
  function AtOnce(writes: seq<Write>): (r: seq<Write>)
    ensures forall i :: 0 <= i < |r| ==> r[i].Add?
  {
    seq(|Pieces(writes)|, i requires 0 <= i < |Pieces(writes)| => Add(Pieces(writes)[i]))
  }

  lemma {:induction false} AddsAreProper(writes: seq<Write>)
    requires forall i :: 0 <= i < |writes| ==> writes[i].Add?
    ensures Proper(writes) && WithoutFills(writes) == writes && Filled(writes) == map[]
    decreases |writes|
  {
    if writes != [] {
      AddsAreProper(writes[..|writes| - 1]);
    }
  }

  /** Nothing in the bytes shows that a value was written late. */
  lemma FilledIsAtOnce(params: Params, writes: seq<Write>)
    requires Proper(writes)
    ensures Performed(params, writes).Some? && Performed(params, AtOnce(writes)).Some?
    ensures Performed(params, writes).value.bytes == Performed(params, AtOnce(writes)).value.bytes
  {
    AddsAreProper(AtOnce(writes));
    FilledLater(params, writes);
    FilledLater(params, AtOnce(writes));
    assert Pieces(AtOnce(writes)) == Pieces(writes);
  }

  /** A new serializer does what the function says, with the positions that reserving slots gave back. */
  method Perform(serializer: BinarySerializer, writes: seq<Write>) returns (positions: map<nat, nat>)
    requires serializer.Valid() && serializer.pieces == [] && Proper(writes)
    modifies serializer
    ensures serializer.Valid() && serializer.pieces == Pieces(writes)
    ensures Performed(serializer.params, writes) == Some(Log(serializer.output, positions))
  {
    positions := map[];
    StartsEmpty(serializer.params);
    var n, k := 0, 0;
    while k < |writes|
      invariant 0 <= k <= |writes| && Proper(writes[..k]) && n == |WithoutFills(writes[..k])|
      invariant serializer.Valid() && serializer.pieces == Pieces(writes[..k])
      invariant Performed(serializer.params, writes[..k]) == Some(Log(serializer.output, positions))
    {
      PrefixIsProper(writes, k + 1);
      assert writes[..k + 1][..k] == writes[..k];
      positions := PerformOne(serializer, writes[..k + 1], writes[k], positions, n);
      if !writes[k].Fill? {
        n := n + 1;
      }
      k := k + 1;
    }
    assert writes[..k] == writes;
  }

  lemma StartsEmpty(params: Params)
    ensures Performed(params, []) == Some(Log(Header(params) + Stream(params, []), map[]))
  {
    assert Header(params) + [] == Header(params);
  }

  lemma {:induction false} PrefixIsProper(writes: seq<Write>, k: nat)
    requires Proper(writes) && k <= |writes|
    ensures Proper(writes[..k])
    decreases |writes|
  {
    if k < |writes| {
      PrefixIsProper(writes[..|writes| - 1], k);
      assert writes[..|writes| - 1][..k] == writes[..k];
    } else {
      assert writes[..k] == writes;
    }
  }

  /** The last of the writes. */
  method PerformOne(serializer: BinarySerializer, ghost writes: seq<Write>, w: Write, positions: map<nat, nat>, n: nat)
    returns (next: map<nat, nat>)
    requires writes != [] && w == writes[|writes| - 1] && Proper(writes)
    requires n == |WithoutFills(writes[..|writes| - 1])|
    requires serializer.Valid() && serializer.pieces == Pieces(writes[..|writes| - 1])
    requires Performed(serializer.params, writes[..|writes| - 1]) == Some(Log(serializer.output, positions))
    modifies serializer
    ensures serializer.Valid() && serializer.pieces == Pieces(writes)
    ensures Performed(serializer.params, writes) == Some(Log(serializer.output, next))
  {
    ghost var front := writes[..|writes| - 1];
    FilledLater(serializer.params, front);
    NextFollows(serializer.params, writes, Log(serializer.output, positions));
    PiecesNext(writes);
    next := positions;
    match w {
      case Add(p) => serializer.AddProperty(p);
      case Reserve(p) =>
        var position := serializer.ReserveSlot(p);
        next := positions[n := position];
      case Fill(i, data) =>
        PieceSize(front, i);
        serializer.WriteAt(positions[i], data, i);
    }
  }
}
