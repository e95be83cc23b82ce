/**
 * UnmanagedVector: byte buffers that cross the language border and have to be destroyed exactly
 * once. The heap records which buffers are alive; destroying or reading one that is not is
 * counted as a fault, where the real program would free twice or read freed memory.
 */
module Memory {
  import opened ByteStrings

  /** A Rust Vec<u8>. */
  datatype Vec = Vec(data: Bytes, capacity: nat) {
    predicate Valid() { |data| <= capacity }
  }

  type RustVec = v: Vec | v.Valid() witness Vec([], 0)

  const NULL := 0

  datatype UnmanagedVector = UnmanagedVector(isNone: bool, ptr: nat, len: nat, cap: nat) {
    /** There is a buffer somebody has to destroy. */
    predicate Backed() { !isNone && cap > 0 }
  }

  const NoneVector := UnmanagedVector(true, NULL, 0, 0)

  /** Go's zero value, which Rust may or may not overwrite. */
  const Uninitialized := UnmanagedVector(false, NULL, 0, 0)

  class VectorHeap {
    var live: map<nat, Vec>
    var nextAddress: nat
    var faults: nat

    ghost predicate Valid()
      reads this
    {
      && NULL < nextAddress
      && forall p :: p in live ==> NULL < p < nextAddress && live[p].Valid() && live[p].capacity > 0
    }

    /** Whoever holds v may destroy it. */
    ghost predicate Owned(v: UnmanagedVector)
      reads this
    {
      v.Backed() ==> v.ptr in live && v.len == |live[v.ptr].data| && v.cap == live[v.ptr].capacity
    }

    ghost function Content(v: UnmanagedVector): (r: Option<Bytes>)
      requires Owned(v)
      reads this
    {
      if v.isNone then None else if v.cap == 0 then Some([]) else Some(live[v.ptr].data)
    }

    /** The live buffers once v has been destroyed. */
    ghost function Without(v: UnmanagedVector): (r: map<nat, Vec>)
      reads this
    {
      if v.Backed() then live - {v.ptr} else live
    }

    /** Two vectors that do not share a buffer. */
    ghost predicate Separate(v: UnmanagedVector, w: UnmanagedVector) {
      v.Backed() && w.Backed() ==> v.ptr != w.ptr
    }

    ghost function WithoutBoth(v: UnmanagedVector, w: UnmanagedVector): (r: map<nat, Vec>)
      reads this
    {
      Without(v) - if w.Backed() then {w.ptr} else {}
    }

    constructor ()
      ensures Valid() && live == map[] && faults == 0
    {
      live, nextAddress, faults := map[], 1, 0;
    }

    /** UnmanagedVector::new: takes over the Vec's buffer if it has one. */
    method New(source: Option<Vec>) returns (v: UnmanagedVector)
      requires Valid() && (source.Some? ==> source.value.Valid())
      modifies this
      ensures Valid() && Owned(v)
      ensures v.isNone == source.None?
      ensures Content(v) == if source.Some? then Some(source.value.data) else None
      ensures source.Some? ==> v.len == |source.value.data|
      ensures v.Backed() == (source.Some? && source.value.capacity > 0)
      ensures v.Backed() ==> v.ptr !in old(live)
      ensures Without(v) == old(live) && faults == old(faults)
      ensures forall w: UnmanagedVector :: old(Owned(w)) ==> Owned(w) && Content(w) == old(Content(w))
    {
      match source {
        case Some(data) =>
          if data.capacity == 0 {
            v := UnmanagedVector(false, NULL, 0, 0);
          } else {
            v := UnmanagedVector(false, nextAddress, |data.data|, data.capacity);
            live := live[nextAddress := data];
            nextAddress := nextAddress + 1;
            assert live - {v.ptr} == old(live);
          }
        case None =>
          v := UnmanagedVector(true, NULL, 0, 0);
      }
    }

    /** UnmanagedVector::consume. Without ownership this is a double free. */
    method Consume(v: UnmanagedVector) returns (r: Option<Bytes>)
      requires Valid()
      modifies this
      ensures Valid()
      ensures old(Owned(v)) ==> r == old(Content(v)) && live == old(Without(v)) && faults == old(faults)
      ensures v.Backed() && v.ptr !in old(live) ==> live == old(live) && faults == old(faults) + 1
    {
      if v.isNone {
        r := None;
      } else if v.cap == 0 {
        r := Some([]);
      } else if v.ptr in live {
        r := Some(live[v.ptr].data);
        live := live - {v.ptr};
      } else {
        r := Some([]);
        faults := faults + 1;
      }
    }

    /** Two consumptions in a row. */
    method ConsumeBoth(v: UnmanagedVector, w: UnmanagedVector) returns (x: Option<Bytes>, y: Option<Bytes>)
      requires Valid()
      modifies this
      ensures Valid()
      ensures old(Owned(v) && Owned(w) && Separate(v, w)) ==>
                && x == old(Content(v)) && y == old(Content(w))
                && live == old(WithoutBoth(v, w)) && faults == old(faults)
    {
      x := Consume(v);
      y := Consume(w);
    }

    /** new_unmanaged_vector: copies external memory. */
    method NewCopy(nil: bool, external: Bytes) returns (v: UnmanagedVector)
      requires Valid()
      modifies this
      ensures Valid() && Owned(v)
      ensures Content(v) == if nil then None else Some(external)
      ensures v.isNone == nil && v.Backed() == (!nil && external != [])
      ensures v.Backed() ==> v.ptr !in old(live)
      ensures Without(v) == old(live) && faults == old(faults)
      ensures forall w: UnmanagedVector :: old(Owned(w)) ==> Owned(w) && Content(w) == old(Content(w))
    {
      if nil {
        v := New(None);
      } else if |external| == 0 {
        v := New(Some(Vec([], 0)));
      } else {
        v := New(Some(Vec(external, |external|)));
      }
    }

    /** Go's newUnmanagedVector: nil, empty and non-empty slices. */
    method FromGo(data: Option<Bytes>) returns (v: UnmanagedVector)
      requires Valid()
      modifies this
      ensures Valid() && Owned(v) && Content(v) == data
      ensures v.isNone == data.None?
      ensures v.Backed() ==> v.ptr !in old(live)
      ensures Without(v) == old(live) && faults == old(faults)
      ensures forall w: UnmanagedVector :: old(Owned(w)) ==> Owned(w) && Content(w) == old(Content(w))
    {
      if data.None? {
        v := NewCopy(true, []);
      } else if |data.value| == 0 {
        v := NewCopy(false, []);
      } else {
        v := NewCopy(false, data.value);
      }
    }

    /** Go's copyAndDestroyUnmanagedVector. GoBytes takes its length as a C int and panics if that is negative. */
    method CopyAndDestroy(v: UnmanagedVector) returns (out: GoCopy)
      requires Valid()
      modifies this
      ensures Valid()
      ensures old(Owned(v)) ==> out == Copy(old(Content(v))) && faults == old(faults)
      ensures old(Owned(v)) ==> live == if out.LengthPanic? then old(live) else old(Without(v))
    {
      if v.isNone {
        out := Copied(None);
      } else if v.cap == 0 {
        out := Copied(Some([]));
      } else if CInt(v.len) < 0 {
        return LengthPanic;
      } else if v.ptr in live && CInt(v.len) <= |live[v.ptr].data| {
        out := Copied(Some(live[v.ptr].data[..CInt(v.len)]));
      } else {
        out := Copied(Some([]));
        faults := faults + 1;
      }
      var _ := Consume(v);
    }
  }

  /** A conversion to a 32-bit C int. */
  function CInt(n: nat): (i: int)
    ensures i <= n && (i == n <==> n < 0x8000_0000)
    ensures -0x8000_0000 <= i < 0x8000_0000 && (n - i) % 0x1_0000_0000 == 0
  {
    var low := n % 0x1_0000_0000;
    if low < 0x8000_0000 then low else low - 0x1_0000_0000
  }

  datatype GoCopy = Copied(data: Option<Bytes>) | LengthPanic

  /** What Go gets of a buffer's content. */
  function Copy(content: Option<Bytes>): (c: GoCopy)
    ensures c == Copied(content) <==> (content.Some? ==> |content.value| < 0x8000_0000)
    ensures c.LengthPanic? <==> content.Some? && |content.value| % 0x1_0000_0000 >= 0x8000_0000
    ensures c.Copied? && content.Some? ==>
              c.data.Some? && c.data.value <= content.value && |c.data.value| == |content.value| % 0x1_0000_0000
  {
    if content.None? then Copied(None)
    else if CInt(|content.value|) < 0 then LengthPanic
    else
      var n := CInt(|content.value|);
      assert |content.value[..n]| == n;
      assert n == |content.value| ==> content.value[..n] == content.value;
      Copied(Some(content.value[..n]))
  }
}
