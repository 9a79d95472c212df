/**
 * The byte-buffer pool of the yasea muxers (SrsAllocator.kt): fixed-size
 * byte arrays with a logical fill level, handed out by `Allocate` and taken
 * back by `Release`.
 */
module SrsAllocator {
  import opened Base

  /**
   * The four bytes `put(Int)` appends, the low byte first; `i ushr 8k` has
   * the same low byte as k floor divisions by 256.
   */
  function LittleEndian32(i: int): (s: seq<byte>)
    ensures |s| == 4
  {
    [ToByte(i), ToByte(i / 256), ToByte(i / 256 / 256), ToByte(i / 256 / 256 / 256)]
  }

  /** `put(Int)` writes the same four bytes as a big-endian `putInt`, in the opposite order. */
  lemma LittleEndian32Reverses(i: int)
    ensures LittleEndian32(i) == [BigEndian(i, 4)[3], BigEndian(i, 4)[2], BigEndian(i, 4)[1], BigEndian(i, 4)[0]]
  {
    var be := BigEndian(i, 4);
    assert be == BigEndian(i / 256 / 256 / 256, 1) + [ToByte(i / 256 / 256)] + [ToByte(i / 256)] + [ToByte(i)];
  }

  /**
   * One buffer of the pool: a byte array whose length is fixed at creation
   * and a logical `size`, the number of bytes written so far.
   */
  class Allocation {
    var data: array<byte>
    var size: int

    ghost predicate Valid()
      reads this
    {
      0 <= size <= data.Length
    }

    /** The bytes written so far. */
    ghost function Contents(): seq<byte>
      reads this, data
      requires Valid()
    {
      data[..size]
    }

    /** A new allocation has the requested capacity and holds nothing. */
    constructor (n: nat)
      ensures Valid() && fresh(data)
      ensures data.Length == n && size == 0
    {
      data := new byte[n];
      size := 0;
    }

    /** Counts `offset` more bytes as written (they were put into `data` directly). */
    method AppendOffset(offset: int)
      requires Valid() && 0 <= size + offset <= data.Length
      modifies this`size
      ensures Valid() && size == old(size) + offset
    {
      size := size + offset;
    }

    /** Forgets the contents; the array and its bytes stay as they were. */
    method Clear()
      requires Valid()
      modifies this`size
      ensures Valid() && size == 0
    {
      size := 0;
    }

    /** Writes `b` at index `size`, which then grows by one. */
    method Put(b: byte)
      requires Valid() && size < data.Length
      modifies this`size, data
      ensures Valid() && size == old(size) + 1
      ensures data[..] == old(data[..])[old(size) := b]
      ensures Contents() == old(Contents()) + [b]
    {
      data[size] := b;
      size := size + 1;
    }

    /** Writes `b` at `pos`; the size becomes at least `pos + 1`. */
    method PutAt(b: byte, pos: int)
      requires Valid() && 0 <= pos < data.Length
      modifies this`size, data
      ensures Valid() && size == Max(old(size), pos + 1)
      ensures data[..] == old(data[..])[pos := b]
    {
      data[pos] := b;
      size := if pos + 1 > size then pos + 1 else size;
    }

    /**
     * `put(Short)`: the low byte is written, then the high byte's
     * `as Byte` cast of an Int fails with a ClassCastException.
     */
    method PutShort(s: int) returns (fault: Fault)
      requires Valid() && size < data.Length
      modifies this`size, data
      ensures Valid() && fault == ClassCast
      ensures size == old(size) + 1
      ensures data[..] == old(data[..])[old(size) := ToByte(s)]
    {
      Put(ToByte(s));
      fault := ClassCast;
    }

    /** `put(Int)`: four bytes appended, least significant first. */
    method PutInt(i: int)
      requires Valid() && size + 4 <= data.Length
      modifies this`size, data
      ensures Valid() && size == old(size) + 4
      ensures data[..] == old(data[..])[..old(size)] + LittleEndian32(i) + old(data[..])[old(size) + 4..]
    {
      Put(ToByte(i));
      Put(ToByte(i / 256));
      Put(ToByte(i / 256 / 256));
      Put(ToByte(i / 256 / 256 / 256));
    }

    /** `put(ByteArray)`: copies `bs` to index `size`, then grows `size` by its length. */
    method PutBytes(bs: seq<byte>)
      requires Valid() && size + |bs| <= data.Length
      modifies this`size, data
      ensures Valid() && size == old(size) + |bs|
      ensures data[..] == old(data[..])[..old(size)] + bs + old(data[..])[old(size) + |bs|..]
      ensures Contents() == old(Contents()) + bs
    {
      CopyInto(bs, data, size);
      size := size + |bs|;
    }
  }

  /**
   * `System.arraycopy(src, 0, dst, offset, src.size)`, and equally the bulk
   * `ByteBuffer.get(dst, offset, length)`: the bytes land at `offset`,
   * nothing else in `dst` changes.
   */
  method CopyInto(src: seq<byte>, dst: array<byte>, offset: int)
    requires 0 <= offset && offset + |src| <= dst.Length
    modifies dst
    ensures dst[..] == old(dst[..])[..offset] + src + old(dst[..])[offset + |src|..]
  {
    var k := 0;
    while k < |src|
      invariant 0 <= k <= |src|
      invariant forall j :: 0 <= j < dst.Length ==>
        dst[j] == if offset <= j < offset + k then src[j - offset] else old(dst[j])
    {
      dst[offset + k] := src[k];
      k := k + 1;
    }
    assert dst[..] == old(dst[..])[..offset] + src + old(dst[..])[offset + |src|..];
  }

  /** What `allocate` hands back. */
  datatype Acquired =
    | Reused(a: Allocation, index: nat)   // a pooled allocation, taken out of slot `index`
    | Created(a: Allocation)              // a new allocation
    | HoleInPool(index: nat)              // `!!` on an empty slot: NullPointerException

  /** Where `release` put the allocation. */
  datatype Released =
    | StoredAt(index: nat)                // into a slot holding an empty allocation
    | Appended(index: nat)                // at the sentinel, which then moved up
    | HoleReached(index: nat)             // `!!` on an empty slot: NullPointerException

  /**
   * The pool: slots `0 .. sentinel-1` of `slots` hold allocations (or null
   * once `Allocate` has taken one out); `slots` doubles when full.
   */
  class Pool {
    const individualAllocationSize: nat
    var slots: array<Allocation?>
    var sentinel: int
    ghost var Repr: set<object>

    /** Every pooled allocation belongs to the pool: nothing outside writes it. */
    ghost predicate Valid()
      reads this, Repr
    {
      this in Repr && slots in Repr &&
      0 <= sentinel <= slots.Length && 1 <= slots.Length &&
      forall i :: 0 <= i < sentinel ==> slots[i] != null ==>
        slots[i] in Repr && slots[i].data in Repr && slots[i].Valid()
    }

    /**
     * Every pooled allocation is empty. The constructor starts so, `Release`
     * clears before storing and `Allocate` only takes allocations out, so it
     * stays so; hence a request for one byte or more is never served from
     * the pool.
     */
    ghost predicate PooledEmpty()
      reads this, Repr
      requires Valid()
    {
      forall i :: 0 <= i < sentinel ==> slots[i] != null ==> slots[i].size == 0
    }

    /** No slot below the sentinel is null. */
    ghost predicate NoHoles()
      reads this, slots
    {
      sentinel <= slots.Length && forall i :: 0 <= i < sentinel ==> slots[i] != null
    }

    /** `initialAllocationCount + 10` slots, each a fresh allocation of the individual size. */
    constructor (individualSize: nat, initialAllocationCount: nat)
      ensures Valid() && NoHoles() && PooledEmpty()
      ensures individualAllocationSize == individualSize
      ensures sentinel == initialAllocationCount + 10 && slots.Length == sentinel
      ensures forall i :: 0 <= i < sentinel ==> slots[i] != null && slots[i].data.Length == individualSize
      ensures fresh(Repr)
    {
      var n := initialAllocationCount + 10;
      var arr := new Allocation?[n];
      ghost var R: set<object> := {arr};
      var i := 0;
      while i < n
        invariant 0 <= i <= n
        invariant arr in R && fresh(R)
        invariant forall j :: 0 <= j < i ==>
          arr[j] != null && arr[j] in R && arr[j].data in R && arr[j].Valid() &&
          arr[j].size == 0 && arr[j].data.Length == individualSize
      {
        var a := new Allocation(individualSize);
        arr[i] := a;
        R := R + {a, a.data};
        i := i + 1;
      }
      individualAllocationSize := individualSize;
      slots := arr;
      sentinel := n;
      Repr := R + {this};
    }

    /**
     * The first slot below the sentinel whose allocation has logical size at
     * least `s` is emptied and its allocation returned; with none, a new
     * allocation of `max(s, individualAllocationSize)` bytes.
     */
    method Allocate(s: int) returns (r: Acquired)
      requires Valid()
      modifies slots
      ensures Valid() && Repr == old(Repr) && sentinel == old(sentinel) && slots == old(slots)
      ensures r.Reused? ==>
        r.index < sentinel && old(slots[..])[r.index] == r.a && r.a.size >= s && slots[r.index] == null &&
        (forall j :: 0 <= j < slots.Length && j != r.index ==> slots[j] == old(slots[j])) &&
        (forall j :: 0 <= j < r.index ==> slots[j] != null && slots[j].size < s)
      ensures r.Created? ==>
        slots[..] == old(slots[..]) &&
        (forall j :: 0 <= j < sentinel ==> slots[j] != null && slots[j].size < s) &&
        fresh(r.a) && fresh(r.a.data) && r.a.Valid() && r.a.size == 0 &&
        r.a.data.Length == Max(s, individualAllocationSize)
      ensures r.HoleInPool? ==>
        slots[..] == old(slots[..]) && r.index < sentinel && slots[r.index] == null &&
        (forall j :: 0 <= j < r.index ==> slots[j] != null && slots[j].size < s)
      ensures old(PooledEmpty()) ==> PooledEmpty()
      ensures s >= 1 && old(NoHoles()) && old(PooledEmpty()) ==> r.Created? && NoHoles()
    {
      var i := 0;
      while i < sentinel
        invariant 0 <= i <= sentinel
        invariant forall j :: 0 <= j < i ==> slots[j] != null && slots[j].size < s
      {
        var a := slots[i];
        if a == null {
          return HoleInPool(i);
        }
        if a.size >= s {
          slots[i] := null;
          return Reused(a, i);
        }
        i := i + 1;
      }
      var created := new Allocation(Max(s, individualAllocationSize));
      return Created(created);
    }

    /**
     * Clears `a`, then stores it in the first slot below the sentinel whose
     * allocation is empty; with none, at the sentinel, doubling the slot
     * array first when it is full.
     */
    method Release(a: Allocation) returns (r: Released)
      requires Valid() && a.Valid() && a !in Repr && a.data !in Repr
      modifies this, slots, a`size
      ensures Valid() && a.size == 0 && a.data == old(a.data)
      ensures r.StoredAt? ==>
        slots == old(slots) && sentinel == old(sentinel) && r.index < sentinel && slots[r.index] == a &&
        (forall j :: 0 <= j < slots.Length && j != r.index ==> slots[j] == old(slots[j])) &&
        (forall j :: 0 <= j < r.index ==> slots[j] != null && slots[j].size != 0)
      ensures r.Appended? ==>
        r.index == old(sentinel) && sentinel == old(sentinel) + 1 && slots[r.index] == a &&
        (forall j :: 0 <= j < old(sentinel) ==> slots[j] == old(slots[j]) && slots[j] != null && slots[j].size != 0) &&
        slots.Length == (if old(sentinel) + 1 > old(slots.Length) then 2 * old(slots.Length) else old(slots.Length))
      ensures r.HoleReached? ==>
        slots == old(slots) && slots[..] == old(slots[..]) && sentinel == old(sentinel) &&
        r.index < sentinel && slots[r.index] == null &&
        (forall j :: 0 <= j < r.index ==> slots[j] != null && slots[j].size != 0)
      ensures old(PooledEmpty()) ==> PooledEmpty()
      ensures old(NoHoles()) && old(PooledEmpty()) && old(sentinel) > 0 ==> r == StoredAt(0) && NoHoles()
    {
      a.Clear();
      var i := 0;
      while i < sentinel
        invariant 0 <= i <= sentinel
        invariant slots == old(slots) && slots[..] == old(slots[..]) && sentinel == old(sentinel)
        invariant Repr == old(Repr) && a.size == 0 && Valid()
        invariant forall j :: 0 <= j < i ==> slots[j] != null && slots[j].size != 0
      {
        var b := slots[i];
        if b == null {
          return HoleReached(i);
        }
        if b.size == 0 {
          slots[i] := a;
          Repr := Repr + {a, a.data};
          return StoredAt(i);
        }
        i := i + 1;
      }
      assert sentinel > 0 ==> slots[0] != null && slots[0].size != 0;
      assert !(old(NoHoles()) && old(PooledEmpty()) && old(sentinel) > 0);
      var index := Append(a);
      return Appended(index);
    }

    /** The tail of `release`: `a` goes at the sentinel, doubling the slot array first when it is full. */
    method Append(a: Allocation) returns (index: int)
      requires Valid() && a.Valid() && a !in Repr && a.data !in Repr && a.size == 0
      modifies this, slots
      ensures Valid() && a.size == 0
      ensures index == old(sentinel) && sentinel == old(sentinel) + 1 && slots[index] == a
      ensures forall j :: 0 <= j < old(sentinel) ==> slots[j] == old(slots[j])
      ensures slots.Length == (if old(sentinel) + 1 > old(slots.Length) then 2 * old(slots.Length) else old(slots.Length))
      ensures old(PooledEmpty()) ==> PooledEmpty()
    {
      if sentinel + 1 > slots.Length {
        var bigger := Doubled(slots);
        slots := bigger;
        Repr := Repr + {bigger};
      }
      slots[sentinel] := a;
      Repr := Repr + {a, a.data};
      index := sentinel;
      sentinel := sentinel + 1;
    }
  }

  /** `Arrays.copyOf(src, 2 * src.size)`: the same slots followed by as many nulls. */
  method Doubled(src: array<Allocation?>) returns (dst: array<Allocation?>)
    ensures fresh(dst) && dst.Length == 2 * src.Length
    ensures forall j :: 0 <= j < src.Length ==> dst[j] == src[j]
    ensures forall j :: src.Length <= j < dst.Length ==> dst[j] == null
  {
    dst := new Allocation?[2 * src.Length](_ => null);
    var k := 0;
    while k < src.Length
      invariant 0 <= k <= src.Length
      invariant forall j :: 0 <= j < k ==> dst[j] == src[j]
      invariant forall j :: k <= j < dst.Length ==> dst[j] == null
    {
      dst[k] := src[k];
      k := k + 1;
    }
  }
}
