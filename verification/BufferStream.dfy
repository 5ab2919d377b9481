/** The growable byte stream and its reader. */
module BufferStreams {
  import opened Basics

  const INITIAL_CAPACITY := 1024

  datatype SeekDir = Beg | Cur | End | Other

  // ---------------------------------------------------------------- the file that the stream stands for

  /** What has been stored at which position; a position never written to has no byte. */
  type File = map<nat, Byte>

  /** The file after `bytes` have been written over it from `pos` on. */
  function Overwrite(file: File, pos: nat, bytes: seq<Byte>): File
    decreases |bytes|
  {
    if bytes == [] then file else Overwrite(file, pos, bytes[..|bytes| - 1])[pos + |bytes| - 1 := bytes[|bytes| - 1]]
  }

  lemma {:induction false} OverwriteAt(file: File, pos: nat, bytes: seq<Byte>, i: nat)
    ensures i in Overwrite(file, pos, bytes) <==> i in file || pos <= i < pos + |bytes|
    ensures pos <= i < pos + |bytes| ==> Overwrite(file, pos, bytes)[i] == bytes[i - pos]
    ensures i in file && !(pos <= i < pos + |bytes|) ==> Overwrite(file, pos, bytes)[i] == file[i]
    decreases |bytes|
  {
    if bytes != [] {
      OverwriteAt(file, pos, bytes[..|bytes| - 1], i);
    }
  }

  function WholeFile(data: seq<Byte>): File {
    map i: nat | 0 <= i < |data| :: data[i]
  }

  /** The buffer holds every byte of the file. */
  ghost predicate Holds(data: seq<Byte>, file: File) {
    forall i :: i in file ==> i < |data| && data[i] == file[i]
  }

  lemma HoldsAfterWrite(before: seq<Byte>, after: seq<Byte>, file: File, pos: nat, bytes: seq<Byte>)
    requires Holds(before, file) && |before| == |after| && pos + |bytes| <= |after|
    requires after == before[..pos] + bytes + before[pos + |bytes|..]
    ensures Holds(after, Overwrite(file, pos, bytes))
  {
    forall i | i in Overwrite(file, pos, bytes)
      ensures i < |after| && after[i] == Overwrite(file, pos, bytes)[i]
    {
      OverwriteAt(file, pos, bytes, i);
    }
  }

  // ---------------------------------------------------------------- how much the buffer grows

  function Grown(size: nat, minCapacity: nat): nat {
    if size == 0 then Max(minCapacity, INITIAL_CAPACITY) else Max(minCapacity, size + size / 2)
  }

  /** The bounds on the capacity and on the bytes that all growths have copied. */
  predicate WithinBounds(capacity: nat, initial: nat, furthest: nat, copied: nat) {
    && 2 * capacity <= Max(Max(2 * initial, 2048), 3 * furthest)
    && copied <= 3 * capacity
  }

  lemma GrowthIsAmortised(size: nat, minCapacity: nat, initial: nat, furthest: nat, copied: nat)
    requires WithinBounds(size, initial, furthest, copied) && size < minCapacity
    ensures WithinBounds(Grown(size, minCapacity), initial, Max(furthest, minCapacity), copied + size)
    ensures Grown(size, minCapacity) >= minCapacity
  {
  }

  /**
   * The new capacity is the least one that has room for what is required and is at least 1024 for
   * a first buffer, or one and a half times the old one, rounded down.
   */
  lemma GrownIsLeast(size: nat, minCapacity: nat, capacity: nat)
    ensures capacity >= Grown(size, minCapacity)
       <==> capacity >= minCapacity && (if size == 0 then capacity >= 1024 else 2 * capacity + 1 >= 3 * size)
  {
  }

  class BufferStreamWriter {
    var buffer: array<Byte>
    var pos: nat
    ghost const initial: nat
    ghost var file: File
    /** One past the furthest position ever written to. */
    ghost var furthest: nat
    /** The bytes copied by all growths so far. */
    ghost var copied: nat

    ghost predicate Valid()
      reads this, buffer
    {
      && pos <= buffer.Length && Holds(buffer[..], file)
      && WithinBounds(buffer.Length, initial, furthest, copied)
    }

    constructor (buffer: array<Byte>)
      ensures Valid() && this.buffer == buffer && pos == 0 && file == WholeFile(buffer[..])
      ensures initial == buffer.Length && furthest == 0 && copied == 0
    {
      this.buffer, pos, initial := buffer, 0, buffer.Length;
      file, furthest, copied := WholeFile(buffer[..]), 0, 0;
    }

    /** Moves to a buffer of at least `minCapacity` bytes. */
    method Grow(minCapacity: nat)
      requires Valid() && buffer.Length < minCapacity
      modifies this`buffer, this`copied
      ensures fresh(buffer) && buffer.Length == Grown(old(buffer.Length), minCapacity)
      ensures buffer[..old(buffer.Length)] == old(buffer[..])
      ensures copied == old(copied) + old(buffer.Length)
    {
      var newSize := if buffer.Length == 0 then Max(minCapacity, INITIAL_CAPACITY)
                     else Max(minCapacity, buffer.Length + buffer.Length / 2);
      var data := new Byte[newSize];
      var i := 0;
      while i < buffer.Length
        invariant 0 <= i <= buffer.Length && buffer == old(buffer) && buffer[..] == old(buffer[..])
        invariant copied == old(copied)
        invariant data[..i] == buffer[..i]
      {
        data[i] := buffer[i];
        i := i + 1;
      }
      copied := copied + buffer.Length;
      buffer := data;
    }

    /** Makes room for `n` more bytes at the position. */
    method MakeRoom(n: nat)
      requires Valid()
      modifies this`buffer, this`copied
      ensures Holds(buffer[..], file) && pos + n <= buffer.Length
      ensures if pos + n <= old(buffer.Length) then buffer == old(buffer) && copied == old(copied)
              else fresh(buffer) && buffer.Length == Grown(old(buffer.Length), pos + n)
      ensures WithinBounds(buffer.Length, initial, Max(furthest, pos + n), copied)
    {
      var required := pos + n;
      if required > buffer.Length {
        GrowthIsAmortised(buffer.Length, required, initial, furthest, copied);
        Grow(required);
      } else {
        StillWithin(buffer.Length, initial, furthest, required, copied);
      }
    }

    /** memcpy to the position. */
    method Store(s: seq<Byte>)
      requires pos + |s| <= buffer.Length
      modifies buffer
      ensures buffer[..] == old(buffer[..pos]) + s + old(buffer[pos + |s|..])
    {
      var i := 0;
      while i < |s|
        invariant 0 <= i <= |s|
        invariant buffer[..] == old(buffer[..pos]) + s[..i] + old(buffer[pos + i..])
      {
        buffer[pos + i] := s[i];
        i := i + 1;
      }
    }

    /** Writes all of `s` at the position, and moves on behind it. */
    method Xsputn(s: seq<Byte>) returns (n: nat)
      requires Valid()
      modifies this`buffer, this`copied, this`pos, this`file, this`furthest, buffer
      ensures Valid() && n == |s|
      ensures pos == old(pos) + |s| && file == Overwrite(old(file), old(pos), s)
      ensures furthest == Max(old(furthest), old(pos) + |s|)
      ensures if pos <= old(buffer.Length) then buffer == old(buffer) && copied == old(copied)
              else fresh(buffer) && buffer.Length == Grown(old(buffer.Length), pos)
    {
      MakeRoom(|s|);
      hide WithinBounds;
      HoldsAfterWrite(buffer[..], buffer[..pos] + s + buffer[pos + |s|..], file, pos, s);
      Store(s);
      file, furthest := Overwrite(file, pos, s), Max(furthest, pos + |s|);
      pos := pos + |s|;
      return |s|;
    }

    /** Writes one byte; overflow() grows a full buffer just as a bulk write of one byte does. */
    method Sputc(ch: Byte)
      requires Valid()
      modifies this`buffer, this`copied, this`pos, this`file, this`furthest, buffer
      ensures Valid()
      ensures pos == old(pos) + 1 && file == Overwrite(old(file), old(pos), [ch])
      ensures furthest == Max(old(furthest), old(pos) + 1)
      ensures if pos <= old(buffer.Length) then buffer == old(buffer) && copied == old(copied)
              else fresh(buffer) && buffer.Length == Grown(old(buffer.Length), pos)
    {
      var _ := Xsputn([ch]);
    }

    /**
     * Moves the position, or refuses.  Both `Cur` and `End` count from the current position, and
     * a position anywhere within the capacity is accepted.
     */
    method Seekoff(off: int, dir: SeekDir, out: bool) returns (newPos: int)
      requires Valid()
      modifies this`pos
      ensures Valid()
      ensures var target := if dir == Beg then off else old(pos) + off;
              if out && dir != Other && 0 <= target <= buffer.Length then newPos == target && pos == target
              else newPos == -1 && pos == old(pos)
    {
      if !out {
        return -1;
      }
      match dir {
        case Beg => newPos := off;
        case Cur => newPos := pos + off;
        case End => newPos := pos + off;
        case Other => return -1;
      }
      if newPos < 0 || newPos > buffer.Length {
        return -1;
      }
      pos := newPos;
    }

    /** A copy of everything before the position. */
    method GetBuffer() returns (copy: seq<Byte>)
      requires Valid()
      ensures |copy| == pos && forall i :: i in file && i < pos ==> copy[i] == file[i]
    {
      copy := buffer[..pos];
    }
  }

  lemma StillWithin(capacity: nat, initial: nat, furthest: nat, position: nat, copied: nat)
    requires WithinBounds(capacity, initial, furthest, copied)
    ensures WithinBounds(capacity, initial, Max(furthest, position), copied)
  {
  }

  class BufferStreamReader {
    const buffer: seq<Byte>
    var position: nat

    ghost predicate Valid()
      reads this
    {
      position <= |buffer|
    }

    constructor (buffer: seq<Byte>)
      ensures Valid() && this.buffer == buffer && position == 0
    {
      this.buffer, position := buffer, 0;
    }

    /** The next `n` bytes, or all that are left. */
    method Xsgetn(n: nat) returns (s: seq<Byte>)
      requires Valid()
      modifies this
      ensures Valid() && |s| == Min(n, |buffer| - old(position))
      ensures s == buffer[old(position)..old(position) + |s|] && position == old(position) + |s|
    {
      var toRead := Min(n, |buffer| - position);
      s := [];
      if toRead > 0 {
        s := buffer[position..position + toRead];
        position := position + toRead;
      }
    }

    method Seekoff(off: int, dir: SeekDir, input: bool) returns (newPos: int)
      requires Valid()
      modifies this
      ensures Valid()
      ensures var target := match dir
                case Beg => off
                case Cur => old(position) + off
                case _ => |buffer| + off;
              if input && dir != Other && 0 <= target <= |buffer| then newPos == target && position == target
              else newPos == -1 && position == old(position)
    {
      if !input {
        return -1;
      }
      match dir {
        case Beg => newPos := off;
        case Cur => newPos := position + off;
        case End => newPos := |buffer| + off;
        case Other => return -1;
      }
      if newPos < 0 || newPos > |buffer| {
        return -1;
      }
      position := newPos;
    }
  }

  /** Whatever is written at some position is what a reader finds there. */
  method WriteThenRead(writer: BufferStreamWriter, s: seq<Byte>) returns (back: seq<Byte>)
    requires writer.Valid()
    modifies writer, writer.buffer
    ensures back == s
  {
    var start := writer.pos;
    var _ := writer.Xsputn(s);
    ghost var file := writer.file;
    var copy := writer.GetBuffer();
    var reader := new BufferStreamReader(copy);
    var _ := reader.Seekoff(start, Beg, true);
    back := reader.Xsgetn(|s|);
    forall i | 0 <= i < |s| ensures back[i] == s[i] {
      OverwriteAt(old(writer.file), start, s, start + i);
    }
  }
}
