/** What a file's bytes mean: positioned writes, resizes and extensions of a byte sequence. */
module FileBytes {
  import opened JsValues

  function Zeros(n: nat): (z: seq<byte>)
    ensures |z| == n && forall k :: 0 <= k < n ==> z[k] == 0
  {
    seq(n, _ => 0)
  }

  /** Grows to `n` bytes with zeros; never shrinks. */
  function Padded(s: seq<byte>, n: nat): seq<byte> {
    if |s| < n then s + Zeros(n - |s|) else s
  }

  /** Writing nothing changes nothing, not even the length. */
  function Written(s: seq<byte>, pos: nat, data: seq<byte>): seq<byte> {
    if data == [] then s
    else
      var room := Padded(s, pos + |data|);
      room[..pos] + data + room[pos + |data|..]
  }

  function Resized(s: seq<byte>, n: nat): seq<byte> {
    Padded(s, n)[..n]
  }

  datatype Op =
    | Write(pos: nat, data: seq<byte>)
    | Resize(size: nat)
    | Extend(offset: nat, length: nat)

  function After(s: seq<byte>, op: Op): seq<byte> {
    match op
    case Write(pos, data) => Written(s, pos, data)
    case Resize(size) => Resized(s, size)
    case Extend(offset, length) => Padded(s, offset + length)
  }

  /** A file that starts empty, after a sequence of operations. */
  function Contents(ops: seq<Op>): seq<byte> {
    if ops == [] then [] else After(Contents(ops[..|ops| - 1]), ops[|ops| - 1])
  }

  /**
   * The byte at `k` told from the end of the history: the last write that covers `k`, unless a
   * resize cut `k` off after it; zero if nothing was ever written there.
   */
  function LastByteAt(ops: seq<Op>, k: nat): byte {
    if ops == [] then 0
    else
      var rest := ops[..|ops| - 1];
      match ops[|ops| - 1]
      case Write(pos, data) => if pos <= k < pos + |data| then data[k - pos] else LastByteAt(rest, k)
      case Resize(size) => if size <= k then 0 else LastByteAt(rest, k)
      case Extend(_, _) => LastByteAt(rest, k)
  }

  /** The largest end reached since the last resize. */
  function LastLength(ops: seq<Op>): nat {
    if ops == [] then 0
    else
      var before := LastLength(ops[..|ops| - 1]);
      match ops[|ops| - 1]
      case Write(pos, data) => if data == [] || pos + |data| <= before then before else pos + |data|
      case Resize(size) => size
      case Extend(offset, length) => if offset + length <= before then before else offset + length
  }

  /** Every byte of the file is what the history says; what lies beyond the end was never kept. */
  lemma {:induction false} EveryByteIsTheLastWritten(ops: seq<Op>, k: nat)
    ensures |Contents(ops)| == LastLength(ops)
    ensures k < |Contents(ops)| ==> Contents(ops)[k] == LastByteAt(ops, k)
    ensures k >= |Contents(ops)| ==> LastByteAt(ops, k) == 0
  {
    if ops != [] {
      var before, op := ops[..|ops| - 1], ops[|ops| - 1];
      EveryByteIsTheLastWritten(before, k);
      match op
      case Write(pos, data) => WriteAt(Contents(before), pos, data, k);
      case Resize(size) => ResizeAt(Contents(before), size, k);
      case Extend(offset, length) => ExtendAt(Contents(before), offset + length, k);
    }
  }

  /** The byte at `k`, zero beyond the end. */
  function ByteAt(s: seq<byte>, k: nat): byte {
    if k < |s| then s[k] else 0
  }

  lemma WriteAt(s: seq<byte>, pos: nat, data: seq<byte>, k: nat)
    ensures ByteAt(Written(s, pos, data), k) == if pos <= k < pos + |data| then data[k - pos] else ByteAt(s, k)
    ensures |Written(s, pos, data)| == if data == [] || pos + |data| <= |s| then |s| else pos + |data|
  {
  }

  lemma ResizeAt(s: seq<byte>, size: nat, k: nat)
    ensures ByteAt(Resized(s, size), k) == if size <= k then 0 else ByteAt(s, k)
    ensures |Resized(s, size)| == size
  {
  }

  lemma ExtendAt(s: seq<byte>, end: nat, k: nat)
    ensures ByteAt(Padded(s, end), k) == ByteAt(s, k)
    ensures |Padded(s, end)| == if end <= |s| then |s| else end
  {
  }
}

/** The in-memory file node: a byte array that may be larger than the file. */
module MemFile {
  import opened FileBytes
  import opened JsValues

  const DOUBLING_LIMIT := 1048576

  function Max(a: nat, b: nat): nat { if a < b then b else a }

  /** The capacity `expandFileStorage` leaves, given the present capacity and the size needed. */
  function GrownCapacity(capacity: nat, needed: nat): (grown: nat)
    ensures needed <= grown && capacity <= grown
  {
    if capacity >= needed then capacity
    else
      var scaled := (if capacity < DOUBLING_LIMIT then capacity * 2 else capacity * 9 / 8) % UINT32;
      var room := Max(needed, scaled);
      if capacity != 0 then Max(room, 256) else room
  }

  /** At most the old array is copied, and only when it is replaced. */
  function GrowthCost(capacity: nat, needed: nat): nat {
    if capacity >= needed then 0 else capacity
  }

  /** A file node: `data` is null until something is stored, and `length` is the file's size. */
  class FileNode {
    var data: array?<byte>
    var length: nat

    // The bytes moved by growth so far.
    ghost var moved: nat

    /** Every allocated byte at or past the logical length is zero. */
    ghost predicate Valid()
      reads this, data
    {
      && length <= Capacity()
      && forall k :: length <= k < Capacity() ==> data[k] == 0
    }

    function Capacity(): nat
      reads this
    {
      if data == null then 0 else data.Length
    }

    ghost function Bytes(): seq<byte>
      requires length <= Capacity()
      reads this, data
    {
      if data == null then [] else data[..length]
    }

    constructor ()
      ensures Valid() && Bytes() == [] && data == null
    {
      data := null;
      length := 0;
      moved := 0;
    }

    /** `expandFileStorage` */
    method Expand(needed: nat)
      requires Valid()
      modifies this`data, this`moved
      ensures Valid() && Bytes() == old(Bytes())
      ensures moved <= old(moved) + GrowthCost(old(Capacity()), needed)
      ensures Capacity() == GrownCapacity(old(Capacity()), needed)
      ensures data == old(data) || fresh(data)
    {
      var capacity := if data == null then 0 else data.Length;
      if capacity >= needed {
        return;
      }
      var scaled := (if capacity < DOUBLING_LIMIT then capacity * 2 else capacity * 9 / 8) % UINT32;
      var room := Max(needed, scaled);
      if capacity != 0 {
        room := Max(room, 256);
      }
      var grown := new byte[room](_ => 0);
      if data != null {
        CopyPrefix(data, grown, length);
        moved := moved + length;
      }
      assert data != null ==> grown[..length] == data[..length];
      data := grown;
    }

    /** `usedBytes.set(old.subarray(0, n), 0)` */
    static method CopyPrefix(source: array<byte>, target: array<byte>, n: nat)
      requires n <= source.Length && n <= target.Length && source != target
      modifies target
      ensures target[..] == source[..n] + old(target[n..])
    {
      var i := 0;
      while i < n
        invariant 0 <= i <= n
        invariant target[..i] == source[..i]
        invariant target[n..] == old(target[n..])
      {
        target[i] := source[i];
        i := i + 1;
      }
      assert target[..] == target[..n] + target[n..];
    }

    /** `read`: copies at most `count` bytes from `position` into `buffer`, and says how many. */
    method Read(buffer: array<byte>, offset: nat, count: nat, position: nat) returns (copied: nat)
      requires Valid() && buffer != data
      requires
        position < length ==>
          offset + (if length - position < count then length - position else count) <= buffer.Length
      modifies buffer
      ensures Valid() && Bytes() == old(Bytes())
      ensures
        copied == if position >= length then 0 else if length - position < count then length - position else count
      ensures
        copied > 0 ==>
          buffer[..]
            == old(buffer[..offset]) + Bytes()[position..position + copied] + old(buffer[offset + copied..])
      ensures copied == 0 ==> buffer[..] == old(buffer[..])
    {
      if position >= length {
        return 0;
      }
      copied := if length - position < count then length - position else count;
      Store(data, position, copied, buffer, offset);
      assert data[position..position + copied] == Bytes()[position..position + copied];
    }

    /** `subarray.set` and the byte loop: stores `source[offset..offset + count]` at `position`. */
    static method Store(source: array<byte>, offset: nat, count: nat, target: array<byte>, position: nat)
      requires offset + count <= source.Length && position + count <= target.Length && source != target
      modifies target
      ensures target[..] == old(target[..position]) + source[offset..offset + count] + old(target[position + count..])
    {
      var i := 0;
      while i < count
        invariant 0 <= i <= count
        invariant target[..position] == old(target[..position])
        invariant target[position..position + i] == source[offset..offset + i]
        invariant target[position + count..] == old(target[position + count..])
      {
        target[position + i] := source[offset + i];
        i := i + 1;
      }
      assert target[..] == target[..position] + target[position..position + count] + target[position + count..];
    }

    /** What a store into an array with a zero tail means for the bytes in use. */
    static lemma StoredBytes(before: seq<byte>, room: seq<byte>, pos: nat, chunk: seq<byte>, after: seq<byte>)
      requires |before| <= |room| && pos + |chunk| <= |room| && chunk != []
      requires room[..|before|] == before && forall k :: |before| <= k < |room| ==> room[k] == 0
      requires after == room[..pos] + chunk + room[pos + |chunk|..]
      ensures
        var end := Max(|before|, pos + |chunk|);
        after[..end] == Written(before, pos, chunk) && forall k :: end <= k < |after| ==> after[k] == 0
    {
      var end := Max(|before|, pos + |chunk|);
      assert room[..end] == Padded(before, pos + |chunk|);
      assert after[..end] == room[..end][..pos] + chunk + room[..end][pos + |chunk|..];
    }

    /**
     * `write`: stores `count` bytes of `source` from `offset` at `position`. Typed buffers take two
     * shortcuts: the first write of an empty file keeps exactly its bytes, and a write inside the
     * file needs no growth.
     */
    method Write(source: array<byte>, offset: nat, count: nat, position: nat, typed: bool) returns (written: nat)
      requires Valid() && offset + count <= source.Length && source != data
      modifies this, data
      ensures Valid() && (data == old(data) || fresh(data))
      ensures written == count
      ensures Bytes() == Written(old(Bytes()), position, source[offset..offset + count])
    {
      if count == 0 {
        return 0;
      }
      if typed && length == 0 && position == 0 {
        KeepExactly(source, offset, count);
      } else {
        if !typed || length < position + count {
          Expand(position + count);
        }
        StoreInside(source, offset, count, position);
      }
      written := count;
    }

    /** The first write of an empty file. */
    method KeepExactly(source: array<byte>, offset: nat, count: nat)
      requires Valid() && length == 0 && 0 < count && offset + count <= source.Length
      modifies this`data, this`length
      ensures Valid() && fresh(data) && Bytes() == Written(old(Bytes()), 0, source[offset..offset + count])
    {
      data := new byte[count](_ => 0);
      Store(source, offset, count, data, 0);
      length := count;
      assert data[..] == source[offset..offset + count];
    }

    /** A write for which there is room. */
    method StoreInside(source: array<byte>, offset: nat, count: nat, position: nat)
      requires Valid() && data != null && source != data
      requires 0 < count && offset + count <= source.Length && position + count <= data.Length
      modifies this`length, data
      ensures Valid() && Bytes() == Written(old(Bytes()), position, source[offset..offset + count])
    {
      ghost var before, chunk, room := Bytes(), source[offset..offset + count], data[..];
      Store(source, offset, count, data, position);
      StoredBytes(before, room, position, chunk, data[..]);
      length := Max(length, position + count);
    }

    /** `setattr` with a size. */
    method SetSize(size: nat)
      requires Valid()
      modifies this
      ensures Valid() && (data == old(data) || data == null || fresh(data))
      ensures Bytes() == Resized(old(Bytes()), size)
      ensures size != old(length) ==> Capacity() == size
    {
      if length == size {
        return;
      }
      if size == 0 {
        data := null;
        length := 0;
        return;
      }
      var resized := new byte[size](_ => 0);
      if data != null {
        CopyPrefix(data, resized, if size < length then size else length);
      }
      data := resized;
      length := size;
    }

    /** `allocate` */
    method Allocate(offset: nat, count: nat)
      requires Valid()
      modifies this
      ensures Valid() && (data == old(data) || fresh(data))
      ensures Bytes() == Padded(old(Bytes()), offset + count)
    {
      Expand(offset + count);
      length := Max(length, offset + count);
    }
  }
}

/** The cost of a run of growths from an empty file, given the sizes asked for. */
module FileGrowth {
  import opened JsValues
  import opened MemFile

  function CapacityAfter(sizes: seq<nat>): nat {
    if sizes == [] then 0 else GrownCapacity(CapacityAfter(sizes[..|sizes| - 1]), sizes[|sizes| - 1])
  }

  function CopiedBy(sizes: seq<nat>): nat {
    if sizes == [] then 0
    else CopiedBy(sizes[..|sizes| - 1]) + GrowthCost(CapacityAfter(sizes[..|sizes| - 1]), sizes[|sizes| - 1])
  }

  /** The largest capacity whose 9/8 multiple still fits an unsigned 32-bit integer. */
  const NO_WRAP: nat := 3817748707

  /**
   * How far storage grows when it must: an empty file to just what is needed; below one mebibyte to
   * twice the capacity, from there on to 9/8 of it, if that is more than needed, and to 256 bytes at least.
   */
  lemma GrowthInNumbers(c: nat, needed: nat)
    ensures c >= needed ==> GrownCapacity(c, needed) == c
    ensures c == 0 ==> GrownCapacity(c, needed) == needed
    ensures
      0 < c < needed ==>
        var grown := GrownCapacity(c, needed);
        && grown >= 256 && grown >= needed
        && (c < 1048576 ==> grown >= 2 * c && grown in {256, needed, 2 * c})
        && (1048576 <= c <= NO_WRAP ==> 8 * grown + 7 >= 9 * c && (grown == needed || 8 * grown <= 9 * c))
        && (grown == 256 ==> needed <= 256 && 2 * c <= 256)
  {
    if 0 < c < needed && c < 1048576 {
      assert (c * 2) % UINT32 == c * 2;
    } else if 0 < c < needed && c <= NO_WRAP {
      assert (c * 9 / 8) % UINT32 == c * 9 / 8;
    }
  }

  /** Growth at least doubles small capacities and adds an eighth to large ones. */
  lemma GrowthFactor(c: nat, needed: nat)
    requires c < needed && c <= NO_WRAP
    ensures 10 * c <= 9 * GrownCapacity(c, needed)
  {
    if c < DOUBLING_LIMIT {
      assert (c * 2) % UINT32 == c * 2;
    } else {
      assert (c * 9 / 8) % UINT32 == c * 9 / 8;
    }
  }

  /** Amortised linear growth: all copying together costs at most nine times the final capacity. */
  lemma {:induction false} CopyingIsLinear(sizes: seq<nat>)
    requires sizes != [] ==> CapacityAfter(sizes[..|sizes| - 1]) <= NO_WRAP
    ensures CopiedBy(sizes) <= 9 * CapacityAfter(sizes)
  {
    if sizes != [] {
      var before, last := sizes[..|sizes| - 1], sizes[|sizes| - 1];
      CopyingIsLinear(before);
      if CapacityAfter(before) < last {
        GrowthFactor(CapacityAfter(before), last);
      }
    }
  }

  lemma GrowthIsModest(c: nat, needed: nat)
    ensures GrownCapacity(c, needed) <= Max(c, Max(256, 2 * needed))
  {
    var scaled := if c < DOUBLING_LIMIT then c * 2 else c * 9 / 8;
    assert scaled % UINT32 <= scaled;
  }

  /** The final capacity serves every size asked for, with at most 256 or twice the largest. */
  lemma {:induction false} CapacityIsBounded(sizes: seq<nat>, largest: nat)
    requires forall i :: 0 <= i < |sizes| ==> sizes[i] <= largest
    ensures CapacityAfter(sizes) <= Max(256, 2 * largest)
    ensures forall i :: 0 <= i < |sizes| ==> sizes[i] <= CapacityAfter(sizes)
  {
    if sizes != [] {
      CapacityIsBounded(sizes[..|sizes| - 1], largest);
      GrowthIsModest(CapacityAfter(sizes[..|sizes| - 1]), sizes[|sizes| - 1]);
    }
  }

  /** A first request just past the limit, then `n` requests for one byte more each. */
  function Creep(n: nat): seq<nat> {
    if n == 0 then [NO_WRAP + 1] else Creep(n - 1) + [NO_WRAP + 1 + n]
  }

  lemma {:induction false} CreepCopiesEverything(n: nat)
    requires n <= 100
    ensures CapacityAfter(Creep(n)) == NO_WRAP + 1 + n
    ensures CopiedBy(Creep(n)) >= n * (NO_WRAP + 1)
  {
    if n > 0 {
      CreepCopiesEverything(n - 1);
      var before := Creep(n - 1);
      assert Creep(n)[..|Creep(n)| - 1] == before;
      assert (CapacityAfter(before) * 9 / 8) % UINT32 <= 9 * n;
    } else {
      assert [NO_WRAP + 1][..0] == [];
    }
  }

  /** The limit is sharp: one byte above it the growth factor wraps to nothing and the bound fails. */
  lemma LimitIsSharp()
    ensures CapacityAfter(Creep(0)) == NO_WRAP + 1
    ensures CopiedBy(Creep(10)) > 9 * CapacityAfter(Creep(10))
  {
    CreepCopiesEverything(0);
    CreepCopiesEverything(10);
  }
}
