/** The growable send buffer of `data_packet.hpp`. */
module DataPacket {
  import opened Wire

  const MIN_MEM_SIZE: nat := 64

  // ---------------------------------------------------------------- capacity

  /** `resize`: at least double, or as much as is asked for. */
  function Resized(capacity: nat, needed: nat): nat {
    if capacity * 2 > needed then capacity * 2 else needed
  }

  function CapacityAfter(capacity: nat, needed: nat): nat {
    if needed > capacity then Resized(capacity, needed) else capacity
  }

  /** Capacity, size and bytes moved by reallocation (which copies the whole old block) after some writes. */
  datatype Cost = Cost(capacity: nat, size: nat, copied: nat)

  function Write(c: Cost, n: nat): Cost {
    Cost(CapacityAfter(c.capacity, c.size + n), c.size + n,
         c.copied + if c.size + n > c.capacity then c.capacity else 0)
  }

  function Writes(sizes: seq<nat>): Cost {
    if sizes == [] then Cost(MIN_MEM_SIZE, 0, 0) else Write(Writes(sizes[..|sizes| - 1]), sizes[|sizes| - 1])
  }

  predicate Amortised(c: Cost) {
    && MIN_MEM_SIZE <= c.capacity && c.size <= c.capacity
    && (c.capacity == MIN_MEM_SIZE || c.capacity <= 2 * c.size)
    && c.copied + MIN_MEM_SIZE <= c.capacity
  }

  lemma WriteKeepsAmortised(c: Cost, n: nat)
    requires Amortised(c)
    ensures Amortised(Write(c, n))
  {
  }

  /** For every sequence of writes the capacity is at most twice the size and all reallocations together copy
      fewer than twice the bytes written. */
  lemma {:induction false} GrowthIsLinear(sizes: seq<nat>)
    ensures Amortised(Writes(sizes))
    ensures Writes(sizes).copied <= 2 * Writes(sizes).size
    ensures Writes(sizes).capacity <= if Writes(sizes).size <= 32 then 64 else 2 * Writes(sizes).size
  {
    if sizes != [] {
      GrowthIsLinear(sizes[..|sizes| - 1]);
      WriteKeepsAmortised(Writes(sizes[..|sizes| - 1]), sizes[|sizes| - 1]);
    }
  }

  // ------------------------------------------------------------------ the buffer

  class Packet {
    var mem: array<Byte>
    var offset: nat
    ghost var copied: nat

    ghost predicate Valid()
      reads this
    {
      Amortised(Used())
    }

    ghost function Used(): Cost
      reads this
    {
      Cost(mem.Length, offset, copied)
    }

    /** The first `size()` bytes. */
    function Contents(): seq<Byte>
      requires offset <= mem.Length
      reads this, mem
    {
      mem[..offset]
    }

    constructor ()
      ensures Valid() && fresh(mem) && Contents() == [] && Used() == Writes([])
    {
      mem := new Byte[MIN_MEM_SIZE];
      offset := 0;
      copied := 0;
    }

    /** `resize`; `granted` is whether `realloc` finds the memory. */
    method Resize(needed: nat, granted: bool) returns (ok: bool)
      requires Valid() && needed > mem.Length
      modifies this
      ensures ok == granted && offset == old(offset)
      ensures !ok ==> mem == old(mem) && copied == old(copied)
      ensures ok ==> fresh(mem) && mem.Length == Resized(old(mem.Length), needed)
                     && copied == old(copied) + old(mem.Length) && Contents() == old(Contents())
      ensures ok ==> mem.Length >= needed && mem.Length >= 2 * old(mem.Length)
                     && (mem.Length == needed || mem.Length == 2 * old(mem.Length))
    {
      var newSize := needed;
      var reallocSize := mem.Length * 2;
      if reallocSize > newSize {
        newSize := reallocSize;
      }
      if !granted {
        return false;
      }
      var bytes := new Byte[newSize];
      forall i | 0 <= i < mem.Length {
        bytes[i] := mem[i];
      }
      copied := copied + mem.Length;
      mem := bytes;
      ok := true;
    }

    /** `write_data`.  With no data the region is reserved: its bytes are whatever the memory held.  Returns the
        offset of the region, or None if memory ran out, in which case nothing was written. */
    method WriteData(data: Option<seq<Byte>>, size: nat, granted: bool) returns (region: Option<nat>)
      requires Valid() && (data.Some? ==> |data.value| == size)
      modifies this, mem
      ensures Valid() && (mem == old(mem) || fresh(mem))
      ensures region.None? <==> old(offset) + size > old(mem.Length) && !granted
      ensures region.None? ==> Used() == old(Used()) && Contents() == old(Contents())
      ensures region.Some? ==>
        && region.value == old(offset) && Used() == Write(old(Used()), size)
        && |Contents()| == |old(Contents())| + size && Contents()[..old(offset)] == old(Contents())
        && (data.Some? ==> Contents() == old(Contents()) + data.value)
    {
      var newSize := offset + size;
      WriteKeepsAmortised(Used(), size);
      if newSize > mem.Length {
        var ok := Resize(newSize, granted);
        if !ok {
          return None;
        }
      }
      var at := offset;
      if data.Some? {
        forall i | 0 <= i < size {
          mem[at + i] := data.value[i];
        }
      }
      offset := newSize;
      region := Some(at);
    }

    /** `operator<<` for a `uint16_t`. */
    method PutU16(n: U16, granted: bool)
      requires Valid()
      modifies this, mem
      ensures Valid() && (mem == old(mem) || fresh(mem))
      ensures var failed := old(offset) + 2 > old(mem.Length) && !granted;
        && (failed ==> Used() == old(Used()) && Contents() == old(Contents()))
        && (!failed ==> Used() == Write(old(Used()), 2) && Contents() == old(Contents()) + Wire.PutU16(n))
    {
      var newSize := offset + 2;
      WriteKeepsAmortised(Used(), 2);
      if newSize > mem.Length {
        var ok := Resize(newSize, granted);
        if !ok {
          return;
        }
      }
      mem[offset], mem[offset + 1] := n % 0x100, n / 0x100;
      offset := newSize;
    }

    /** What a caller does with a reserved region: fill it. */
    method Fill(at: nat, bytes: seq<Byte>)
      requires Valid() && at + |bytes| == offset
      modifies mem
      ensures Contents() == old(Contents())[..at] + bytes
    {
      forall i | 0 <= i < |bytes| {
        mem[at + i] := bytes[i];
      }
    }
  }

  /** The path of `msg_send_guard`: reserve, serialise into the reservation, and the buffer is the message. */
  method Serialise(message: seq<Byte>) returns (packet: Packet)
    ensures packet.Valid() && packet.Contents() == message && fresh(packet) && fresh(packet.mem)
  {
    packet := new Packet();
    var region := packet.WriteData(None, |message|, true);
    packet.Fill(region.value, message);
  }

  // ---------------------------------------------------------- any sequence of operations

  function Flatten(chunks: seq<seq<Byte>>): seq<Byte> {
    if chunks == [] then [] else Flatten(chunks[..|chunks| - 1]) + chunks[|chunks| - 1]
  }

  function Sizes(chunks: seq<seq<Byte>>): (sizes: seq<nat>)
    ensures |sizes| == |chunks|
  {
    seq(|chunks|, i requires 0 <= i < |chunks| => |chunks[i]|)
  }

  /** One operation on the buffer, and whether `realloc` finds memory if it asks: `operator<<`, `write_data` with
      data, and `write_data` without, whose region the caller then fills. */
  datatype Op =
    | Put16(n: U16, granted: bool)
    | Data(bytes: seq<Byte>, granted: bool)
    | Reserve(bytes: seq<Byte>, granted: bool)

  /** What the operation adds if it succeeds. */
  function Added(op: Op): seq<Byte> {
    match op
    case Put16(n, _) => Wire.PutU16(n)
    case Data(bytes, _) => bytes
    case Reserve(bytes, _) => bytes
  }

  predicate Succeeds(c: Cost, op: Op) {
    c.size + |Added(op)| <= c.capacity || op.granted
  }

  /** The chunks of the operations that succeed, in order: whether one does depends on those before it. */
  function Kept(ops: seq<Op>): seq<seq<Byte>> {
    if ops == [] then []
    else
      var before := Kept(ops[..|ops| - 1]);
      if Succeeds(Writes(Sizes(before)), ops[|ops| - 1]) then before + [Added(ops[|ops| - 1])] else before
  }

  lemma WritesAppend(chunks: seq<seq<Byte>>, chunk: seq<Byte>)
    ensures Writes(Sizes(chunks + [chunk])) == Write(Writes(Sizes(chunks)), |chunk|)
    ensures Flatten(chunks + [chunk]) == Flatten(chunks) + chunk
  {
    assert Sizes(chunks + [chunk])[..|chunks|] == Sizes(chunks);
    assert (chunks + [chunk])[..|chunks|] == chunks;
  }

  lemma KeptStep(ops: seq<Op>, i: nat)
    requires i < |ops|
    ensures var before := Kept(ops[..i]); var after := Kept(ops[..i + 1]);
      if Succeeds(Writes(Sizes(before)), ops[i]) then
        && Flatten(after) == Flatten(before) + Added(ops[i])
        && Writes(Sizes(after)) == Write(Writes(Sizes(before)), |Added(ops[i])|)
      else after == before
  {
    assert ops[..i + 1][..i] == ops[..i];
    WritesAppend(Kept(ops[..i]), Added(ops[i]));
  }

  /** One operation of a caller. */
  method Perform(packet: Packet, op: Op)
    requires packet.Valid()
    modifies packet, packet.mem
    ensures packet.Valid() && (packet.mem == old(packet.mem) || fresh(packet.mem))
    ensures Succeeds(old(packet.Used()), op) ==>
      packet.Contents() == old(packet.Contents()) + Added(op)
      && packet.Used() == Write(old(packet.Used()), |Added(op)|)
    ensures !Succeeds(old(packet.Used()), op) ==>
      packet.Contents() == old(packet.Contents()) && packet.Used() == old(packet.Used())
  {
    match op {
      case Put16(n, granted) =>
        packet.PutU16(n, granted);
      case Data(bytes, granted) =>
        var region := packet.WriteData(Some(bytes), |bytes|, granted);
      case Reserve(bytes, granted) =>
        var region := packet.WriteData(None, |bytes|, granted);
        if region.Some? {
          packet.Fill(region.value, bytes);
        }
    }
  }

  /** Any sequence of operations, with memory granted or not: the contents are the concatenation of what the
      operations that succeeded added, across all reallocations, and the cost is that of just these. */
  method WriteAll(ops: seq<Op>) returns (packet: Packet)
    ensures packet.Valid() && packet.Contents() == Flatten(Kept(ops)) && packet.Used() == Writes(Sizes(Kept(ops)))
  {
    packet := new Packet();
    for i := 0 to |ops|
      invariant packet.Valid() && fresh(packet) && fresh(packet.mem)
      invariant packet.Contents() == Flatten(Kept(ops[..i])) && packet.Used() == Writes(Sizes(Kept(ops[..i])))
    {
      Perform(packet, ops[i]);
      KeptStep(ops, i);
    }
    assert ops[..|ops|] == ops;
  }

  /** With memory always granted nothing is lost. */
  lemma {:induction false} GrantedIsKept(ops: seq<Op>)
    requires forall i :: 0 <= i < |ops| ==> ops[i].granted
    ensures |Kept(ops)| == |ops| && forall i :: 0 <= i < |ops| ==> Kept(ops)[i] == Added(ops[i])
  {
    if ops != [] {
      GrantedIsKept(ops[..|ops| - 1]);
    }
  }
}
