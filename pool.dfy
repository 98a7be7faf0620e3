/**
 * The request memory pool: the allocator's size/alignment dispatch and its
 * in-place resize on the pool's current block, and the typed cleanup
 * registry that stores values with a drop handler, at most one per
 * "unique" type.
 */
module CorePool {
  import opened Results
  import opened NgxConsts

  /** A non-null address; `None` stands for the null pointer where one can occur. */
  type Addr = nat

  /** The identity of `cleanup_type::<T>`: one tag per Rust type, `ItemOf(t)` for `Item<T>`. */
  datatype TypeTag = Ty(name: string) | ItemOf(inner: TypeTag)

  /** An `ngx_pool_cleanup_t`: the handler (taken on removal) and the data pointer. */
  datatype Cleanup = Cleanup(handler: Option<TypeTag>, data: Option<Addr>)

  /** The test `cleanup_lookup` applies to each entry. */
  predicate Matches(c: Cleanup, tag: TypeTag, value: Option<Addr>)
  {
    c.handler == Some(tag) && (value.None? || c.data == value)
  }

  /** The index of the first entry at or after `from` that `Matches`, if any. */
  function FirstMatch(cs: seq<Cleanup>, tag: TypeTag, value: Option<Addr>, from: nat): (r: Option<nat>)
    requires from <= |cs|
    ensures r.Some? ==> from <= r.value < |cs| && Matches(cs[r.value], tag, value)
    ensures r.Some? ==> forall j :: from <= j < r.value ==> !Matches(cs[j], tag, value)
    ensures r.None? ==> forall j :: from <= j < |cs| ==> !Matches(cs[j], tag, value)
    decreases |cs| - from
  {
    if from == |cs| then None
    else if Matches(cs[from], tag, value) then Some(from)
    else FirstMatch(cs, tag, value, from + 1)
  }

  /** The entry `cleanup_lookup` finds when walking the chain from its head. */
  function Find(cs: seq<Cleanup>, tag: TypeTag, value: Option<Addr>): Option<nat>
  {
    FirstMatch(cs, tag, value, 0)
  }

  /** At most one live entry for each `Item<T>` type. */
  predicate UniquePerType(cs: seq<Cleanup>)
  {
    forall i, j ::
      (0 <= i < |cs| && 0 <= j < |cs| && cs[i].handler.Some? && cs[i].handler.value.ItemOf?
       && cs[i].handler == cs[j].handler) ==> i == j
  }

  /** Live entries point at distinct values. */
  predicate DistinctData(cs: seq<Cleanup>)
  {
    forall i, j ::
      (0 <= i < |cs| && 0 <= j < |cs| && cs[i].handler.Some? && cs[j].handler.Some?
       && cs[i].data == cs[j].data) ==> i == j
  }

  /** Removing the one live entry of a unique type leaves none for a later lookup. */
  lemma RemovedUniqueNotFound(cs: seq<Cleanup>, t: TypeTag, i: nat)
    requires UniquePerType(cs)
    requires Find(cs, ItemOf(t), None) == Some(i)
    ensures Find(cs[i := Cleanup(None, None)], ItemOf(t), None).None?
  {
  }

  /** Removing the live entry holding `a` leaves none holding it for a later lookup. */
  lemma RemovedValueNotFound(cs: seq<Cleanup>, tag: TypeTag, a: Addr, i: nat)
    requires DistinctData(cs)
    requires Find(cs, tag, Some(a)) == Some(i)
    ensures Find(cs[i := Cleanup(None, None)], tag, Some(a)).None?
  {
  }

  /** A `core::alloc::Layout`. */
  datatype Layout = Layout(size: nat, align: nat)

  predicate IsPowerOfTwo(n: nat)
  {
    n == 1 || (n > 1 && n % 2 == 0 && IsPowerOfTwo(n / 2))
  }

  predicate ValidLayout(l: Layout)
  {
    IsPowerOfTwo(l.align)
  }

  /** Which nginx allocator `Allocator::allocate` calls for a layout. */
  datatype AllocCall = NoCall | Pnalloc | Palloc | Pmemalign | Unsupported

  datatype AllocError = AllocError

  /** The dispatch of `Allocator::allocate`; `haveMemalign` is the build's memalign feature. */
  function AllocCallFor(l: Layout, haveMemalign: bool): (c: AllocCall)
    requires ValidLayout(l)
    ensures c == NoCall <==> l.size == 0
    ensures c == Unsupported <==> l.size > 0 && l.align > NGX_ALIGNMENT && !haveMemalign
    ensures c == Pnalloc ==> l.align == 1
    ensures c == Palloc ==> 1 < l.align <= NGX_ALIGNMENT
    ensures c == Pmemalign ==> l.align > NGX_ALIGNMENT
  {
    if l.size == 0 then NoCall
    else if l.align == 1 then Pnalloc
    else if l.align <= NGX_ALIGNMENT then Palloc
    else if haveMemalign then Pmemalign
    else Unsupported
  }

  /**
   * `Allocator::allocate`; `returned` is what the called nginx allocator
   * returned (`None` for null). A zero-sized layout gets the dangling
   * pointer, whose address is the alignment, without calling nginx.
   */
  function AllocatorAllocate(l: Layout, haveMemalign: bool, returned: Option<Addr>): (r: Result<Addr, AllocError>)
    requires ValidLayout(l)
    ensures l.size == 0 ==> r == Ok(l.align)
    ensures l.size > 0 ==> (r.Ok? <==> (l.align <= NGX_ALIGNMENT || haveMemalign) && returned.Some?)
    ensures l.size > 0 && r.Ok? ==> r.value == returned.value
  {
    match AllocCallFor(l, haveMemalign)
    case NoCall => Ok(l.align)
    case Unsupported => Err(AllocError)
    case _ => if returned.Some? then Ok(returned.value) else Err(AllocError)
  }

  /** Whether `Allocator::deallocate` calls `ngx_pfree`. */
  function ShouldFree(l: Layout, poolMax: nat): bool
  {
    l.size > 0 && (l.size > poolMax || l.align > NGX_ALIGNMENT)
  }

  /**
   * `deallocate` frees exactly the blocks nginx hands out as large
   * allocations: everything from `ngx_pmemalign`, and `ngx_palloc` /
   * `ngx_pnalloc` blocks bigger than the pool's `max`; never a zero-sized one.
   */
  lemma DeallocateFreesLargeBlocks(l: Layout, poolMax: nat, haveMemalign: bool)
    requires ValidLayout(l)
    requires AllocatorAllocate(l, haveMemalign, Some(1)).Ok?
    ensures ShouldFree(l, poolMax) <==>
      AllocCallFor(l, haveMemalign) == Pmemalign
      || (AllocCallFor(l, haveMemalign) in {Pnalloc, Palloc} && l.size > poolMax)
  {
  }

  function Min(a: nat, b: nat): nat
  {
    if a <= b then a else b
  }

  /** The byte ranges [a, a + n) and [b, b + m) do not overlap. */
  predicate Disjoint(a: Addr, n: nat, b: Addr, m: nat)
  {
    a + n <= b || b + m <= a
  }

  /** `after` is `before` with the `n` bytes at `src` copied to `dst`. */
  ghost predicate CopiedTo(before: seq<bv8>, after: seq<bv8>, src: Addr, dst: Addr, n: nat)
  {
    |after| == |before| && src + n <= |before| && (n > 0 ==> dst + n <= |before|)
    && (forall j :: dst <= j < dst + n ==> after[j] == before[j - dst + src])
    && (forall j :: 0 <= j < |after| && !(dst <= j < dst + n) ==> after[j] == before[j])
  }

  /** `ptr::copy_to_nonoverlapping` on the byte memory. */
  method CopyNonoverlapping(mem: array<bv8>, src: Addr, dst: Addr, n: nat)
    requires src + n <= mem.Length && (n > 0 ==> dst + n <= mem.Length)
    requires Disjoint(src, n, dst, n)
    modifies mem
    ensures CopiedTo(old(mem[..]), mem[..], src, dst, n)
  {
    var i := 0;
    while i < n
      invariant 0 <= i <= n
      invariant forall j :: dst <= j < dst + i ==> mem[j] == old(mem[j - dst + src])
      invariant forall j :: 0 <= j < mem.Length && !(dst <= j < dst + i) ==> mem[j] == old(mem[j])
    {
      mem[dst + i] := mem[src + i];
      i := i + 1;
    }
  }

  /** `write_bytes(b, n)` at `dst`. */
  method WriteBytes(mem: array<bv8>, dst: Addr, n: nat, b: bv8)
    requires n > 0 ==> dst + n <= mem.Length
    modifies mem
    ensures forall j :: dst <= j < dst + n ==> mem[j] == b
    ensures forall j :: 0 <= j < mem.Length && !(dst <= j < dst + n) ==> mem[j] == old(mem[j])
  {
    var i := 0;
    while i < n
      invariant 0 <= i <= n
      invariant forall j :: dst <= j < dst + i ==> mem[j] == b
      invariant forall j :: 0 <= j < mem.Length && !(dst <= j < dst + i) ==> mem[j] == old(mem[j])
    {
      mem[dst + i] := b;
      i := i + 1;
    }
  }

  /**
   * An `ngx_pool_t` seen from the Rust wrapper: the cleanup chain (head
   * first), the values its entries point at, the current block's `d.last`
   * and `d.end`, `max`, and the memory the block lives in. `dropped` records
   * each run of a `cleanup_type` handler, `freed` each `ngx_pfree` call.
   */
  class Pool<V> {
    var cleanups: seq<Cleanup>
    var values: map<Addr, V>
    var dropped: seq<(TypeTag, Addr)>
    var last: nat
    var end: nat
    var max: nat
    const mem: array<bv8>
    var freed: seq<Addr>

    ghost predicate Valid()
      reads this
    {
      last <= end <= mem.Length
      && (forall i :: 0 <= i < |cleanups| && cleanups[i].handler.Some? ==>
            cleanups[i].data.Some? && cleanups[i].data.value in values)
      && UniquePerType(cleanups)
      && DistinctData(cleanups)
    }

    constructor (mem: array<bv8>, last: nat, end: nat, max: nat)
      requires last <= end <= mem.Length
      ensures Valid() && this.mem == mem
      ensures cleanups == [] && values == map[] && dropped == [] && freed == []
      ensures this.last == last && this.end == end && this.max == max
    {
      this.mem := mem;
      this.last := last;
      this.end := end;
      this.max := max;
      cleanups := [];
      values := map[];
      dropped := [];
      freed := [];
    }

    /** `cleanup_lookup::<T>(value)`: walks the chain from its head. */
    method CleanupLookup(tag: TypeTag, value: Option<Addr>) returns (r: Option<nat>)
      ensures r.Some? ==> r.value < |cleanups| && Matches(cleanups[r.value], tag, value)
      ensures r.Some? ==> forall j :: 0 <= j < r.value ==> !Matches(cleanups[j], tag, value)
      ensures r.None? ==> forall j :: 0 <= j < |cleanups| ==> !Matches(cleanups[j], tag, value)
      ensures r == Find(cleanups, tag, value)
    {
      var i := 0;
      while i < |cleanups|
        invariant 0 <= i <= |cleanups|
        invariant Find(cleanups, tag, value) == FirstMatch(cleanups, tag, value, i)
      {
        if Matches(cleanups[i], tag, value) {
          return Some(i);
        }
        i := i + 1;
      }
      return None;
    }

    /** `cleanup_type::<T>(data)`: drops the value unless `data` is null. */
    method CleanupType(tag: TypeTag, data: Option<Addr>)
      modifies this`dropped
      ensures dropped == old(dropped) + (if data.Some? then [(tag, data.value)] else [])
    {
      if data.Some? {
        dropped := dropped + [(tag, data.value)];
      }
    }

    /**
     * `allocate_with_cleanup::<T>(value)`; `cln` is the data pointer of the
     * entry `ngx_pool_cleanup_add` links at the head of the chain (`None`
     * when it fails), fresh memory of the pool.
     */
    method AllocateWithCleanup(tag: TypeTag, value: V, cln: Option<Addr>) returns (r: Option<Addr>)
      requires Valid()
      requires cln.Some? ==> cln.value !in values
      requires tag.ItemOf? ==> Find(cleanups, tag, None).None?
      modifies this`cleanups, this`values
      ensures Valid()
      ensures r == cln
      ensures cln.None? ==> cleanups == old(cleanups) && values == old(values)
      ensures cln.Some? ==> cleanups == [Cleanup(Some(tag), cln)] + old(cleanups)
      ensures cln.Some? ==> values == old(values)[cln.value := value]
    {
      if cln.None? {
        return None;
      }
      cleanups := [Cleanup(Some(tag), cln)] + cleanups;
      values := values[cln.value := value];
      r := cln;
    }

    /** `allocate_with_cleanup_unique::<T>(value)`: refuses when a live entry of the type exists. */
    method AllocateWithCleanupUnique(tag: TypeTag, value: V, cln: Option<Addr>) returns (r: Option<Addr>)
      requires Valid()
      requires cln.Some? ==> cln.value !in values
      modifies this`cleanups, this`values
      ensures Valid()
      ensures old(Find(cleanups, tag, None)).Some? ==> r.None? && cleanups == old(cleanups) && values == old(values)
      ensures old(Find(cleanups, tag, None)).None? ==> r == cln
      ensures old(Find(cleanups, tag, None)).None? && cln.None? ==> cleanups == old(cleanups) && values == old(values)
      ensures old(Find(cleanups, tag, None)).None? && cln.Some? ==>
        cleanups == [Cleanup(Some(tag), cln)] + old(cleanups) && values == old(values)[cln.value := value]
    {
      var found := CleanupLookup(tag, None);
      if found.Some? {
        return None;
      }
      r := AllocateWithCleanup(tag, value, cln);
    }

    /** `Pool::allocate::<T>(value)` for an ordinary type `T`; `None` stands for the null pointer. */
    method Allocate(tag: TypeTag, value: V, cln: Option<Addr>) returns (r: Option<Addr>)
      requires Valid() && !tag.ItemOf?
      requires cln.Some? ==> cln.value !in values
      modifies this`cleanups, this`values
      ensures Valid()
      ensures r == cln
      ensures cln.None? ==> cleanups == old(cleanups) && values == old(values)
      ensures cln.Some? ==> cleanups == [Cleanup(Some(tag), cln)] + old(cleanups)
      ensures cln.Some? ==> values == old(values)[cln.value := value]
    {
      r := AllocateWithCleanup(tag, value, cln);
    }

    /** `allocate_unique::<T>(value)`: stores the value as an `Item<T>`. */
    method AllocateUnique(tag: TypeTag, value: V, cln: Option<Addr>) returns (r: Option<Addr>)
      requires Valid()
      requires cln.Some? ==> cln.value !in values
      modifies this`cleanups, this`values
      ensures Valid()
      ensures old(Find(cleanups, ItemOf(tag), None)).Some? ==> r.None? && cleanups == old(cleanups) && values == old(values)
      ensures old(Find(cleanups, ItemOf(tag), None)).None? ==> r == cln
      ensures old(Find(cleanups, ItemOf(tag), None)).None? && cln.None? ==> cleanups == old(cleanups) && values == old(values)
      ensures old(Find(cleanups, ItemOf(tag), None)).None? && cln.Some? ==>
        cleanups == [Cleanup(Some(ItemOf(tag)), cln)] + old(cleanups) && values == old(values)[cln.value := value]
      ensures r.Some? ==> UniqueValue(tag) == Some(value)
    {
      r := AllocateWithCleanupUnique(ItemOf(tag), value, cln);
    }

    /** The value of the live unique entry of type `tag`, if there is one. */
    ghost function UniqueValue(tag: TypeTag): Option<V>
      reads this
      requires Valid()
    {
      var found := Find(cleanups, ItemOf(tag), None);
      if found.None? then None else Some(values[cleanups[found.value].data.value])
    }

    /** `get_unique::<T>()`: the value `allocate_unique` stored, while its entry is live. */
    method GetUnique(tag: TypeTag) returns (r: Option<V>)
      requires Valid()
      ensures r.Some? <==> exists i :: 0 <= i < |cleanups| && cleanups[i].handler == Some(ItemOf(tag))
      ensures r == UniqueValue(tag)
    {
      var found := CleanupLookup(ItemOf(tag), None);
      if found.None? {
        return None;
      }
      r := Some(values[cleanups[found.value].data.value]);
    }

    /** `get_unique_mut::<T>()`: where the live unique value of type `tag` is stored. */
    method GetUniqueMut(tag: TypeTag) returns (r: Option<Addr>)
      requires Valid()
      ensures r.Some? <==> Find(cleanups, ItemOf(tag), None).Some?
      ensures r.Some? ==> r.value in values && Some(values[r.value]) == UniqueValue(tag)
      ensures r.Some? ==> r == cleanups[Find(cleanups, ItemOf(tag), None).value].data
    {
      var found := CleanupLookup(ItemOf(tag), None);
      if found.None? {
        return None;
      }
      r := cleanups[found.value].data;
    }

    /** A write through the `&mut T` that `get_unique_mut` or `allocate_unique` hands out. */
    method WriteValue(a: Addr, v: V)
      requires Valid() && a in values
      modifies this`values
      ensures Valid()
      ensures values == old(values)[a := v]
    {
      values := values[a := v];
    }

    /**
     * `remove_cleanup::<T>(value)`: takes the handler of the entry found,
     * runs it once on the data, and nulls the data pointer.
     */
    method RemoveCleanup(tag: TypeTag, value: Option<Addr>) returns (removed: bool)
      requires Valid()
      modifies this`cleanups, this`dropped
      ensures Valid()
      ensures removed <==> old(Find(cleanups, tag, value)).Some?
      ensures !removed ==> cleanups == old(cleanups) && dropped == old(dropped)
      ensures removed ==> var i := old(Find(cleanups, tag, value)).value;
        cleanups == old(cleanups)[i := Cleanup(None, None)]
        && dropped == old(dropped) + [(tag, old(cleanups)[i].data.value)]
      ensures tag.ItemOf? && value.None? ==> Find(cleanups, tag, None).None?
      ensures value.Some? ==> Find(cleanups, tag, value).None?
    {
      var found := CleanupLookup(tag, value);
      if found.None? {
        return false;
      }
      var i := found.value;
      var c := cleanups[i];
      if tag.ItemOf? && value.None? {
        RemovedUniqueNotFound(cleanups, tag.inner, i);
      }
      if value.Some? {
        RemovedValueNotFound(cleanups, tag, value.value, i);
      }
      cleanups := cleanups[i := Cleanup(None, c.data)];
      CleanupType(c.handler.value, c.data);
      cleanups := cleanups[i := Cleanup(None, None)];
      removed := true;
    }

    /** `Pool::remove::<T>(value)`. */
    method Remove(tag: TypeTag, value: Addr) returns (removed: bool)
      requires Valid()
      modifies this`cleanups, this`dropped
      ensures Valid()
      ensures removed <==> old(Find(cleanups, tag, Some(value))).Some?
      ensures !removed ==> cleanups == old(cleanups) && dropped == old(dropped)
      ensures removed ==> var i := old(Find(cleanups, tag, Some(value))).value;
        cleanups == old(cleanups)[i := Cleanup(None, None)] && dropped == old(dropped) + [(tag, value)]
      ensures Find(cleanups, tag, Some(value)).None?
    {
      removed := RemoveCleanup(tag, Some(value));
    }

    /** `remove_unique::<T>()`. */
    method RemoveUnique(tag: TypeTag) returns (removed: bool)
      requires Valid()
      modifies this`cleanups, this`dropped
      ensures Valid()
      ensures removed <==> old(UniqueValue(tag)).Some?
      ensures !removed ==> cleanups == old(cleanups) && dropped == old(dropped)
      ensures removed ==> var i := old(Find(cleanups, ItemOf(tag), None)).value;
        cleanups == old(cleanups)[i := Cleanup(None, None)]
        && dropped == old(dropped) + [(ItemOf(tag), old(cleanups)[i].data.value)]
      ensures UniqueValue(tag).None?
    {
      removed := RemoveCleanup(ItemOf(tag), None);
    }

    /** `Allocator::deallocate`. */
    method Deallocate(ptr: Addr, l: Layout)
      modifies this`freed
      ensures freed == old(freed) + (if ShouldFree(l, max) then [ptr] else [])
    {
      if l.size > 0 && (l.size > max || l.align > NGX_ALIGNMENT) {
        freed := freed + [ptr];
      }
    }

    /** The test of `resize` for reusing the block in place: it is the last one and fits. */
    predicate InPlace(ptr: Addr, oldL: Layout, newL: Layout)
      reads this
      requires ValidLayout(newL)
    {
      ptr + oldL.size == last && ptr + newL.size <= end && ptr % newL.align == 0
    }

    /**
     * `resize`: moves `d.last` when the block is the pool's last one and the
     * new size fits; otherwise allocates anew (`returned` is the nginx
     * allocator's result), copies the common prefix and deallocates the old block.
     */
    method Resize(ptr: Addr, oldL: Layout, newL: Layout, haveMemalign: bool, returned: Option<Addr>)
      returns (r: Result<Addr, AllocError>)
      requires Valid() && ValidLayout(oldL) && ValidLayout(newL)
      requires ptr + oldL.size <= mem.Length
      requires returned.Some? && newL.size > 0 ==>
        returned.value + newL.size <= mem.Length && Disjoint(returned.value, newL.size, ptr, oldL.size)
      modifies this`last, this`freed, mem
      ensures Valid()
      ensures r.Ok? && newL.size > 0 ==> r.value + newL.size <= mem.Length
      ensures old(InPlace(ptr, oldL, newL)) ==>
        r == Ok(ptr) && last == ptr + newL.size && freed == old(freed) && mem[..] == old(mem[..])
      ensures !old(InPlace(ptr, oldL, newL)) ==> last == old(last) && r == AllocatorAllocate(newL, haveMemalign, returned)
      ensures !old(InPlace(ptr, oldL, newL)) && r.Err? ==> freed == old(freed) && mem[..] == old(mem[..])
      ensures !old(InPlace(ptr, oldL, newL)) && r.Ok? ==>
        freed == old(freed) + (if ShouldFree(oldL, max) then [ptr] else [])
        && CopiedTo(old(mem[..]), mem[..], ptr, r.value, Min(oldL.size, newL.size))
    {
      if ptr + oldL.size == last && ptr + newL.size <= end && ptr % newL.align == 0 {
        last := ptr + newL.size;
        return Ok(ptr);
      }
      var size := Min(oldL.size, newL.size);
      r := AllocatorAllocate(newL, haveMemalign, returned);
      if r.Err? {
        return;
      }
      CopyNonoverlapping(mem, ptr, r.value, size);
      Deallocate(ptr, oldL);
    }

    /** `grow_zeroed`: `resize`, then zero the bytes past the old size. */
    method GrowZeroed(ptr: Addr, oldL: Layout, newL: Layout, haveMemalign: bool, returned: Option<Addr>)
      returns (r: Result<Addr, AllocError>)
      requires Valid() && ValidLayout(oldL) && ValidLayout(newL)
      requires newL.size >= oldL.size
      requires ptr + oldL.size <= mem.Length
      requires returned.Some? && newL.size > 0 ==>
        returned.value + newL.size <= mem.Length && Disjoint(returned.value, newL.size, ptr, oldL.size)
      modifies this`last, this`freed, mem
      ensures Valid()
      ensures r.Ok? <==> old(InPlace(ptr, oldL, newL)) || AllocatorAllocate(newL, haveMemalign, returned).Ok?
      ensures old(InPlace(ptr, oldL, newL)) ==> r == Ok(ptr) && last == ptr + newL.size && freed == old(freed)
      ensures !old(InPlace(ptr, oldL, newL)) ==> last == old(last) && r == AllocatorAllocate(newL, haveMemalign, returned)
      ensures !old(InPlace(ptr, oldL, newL)) && r.Ok? ==> freed == old(freed) + (if ShouldFree(oldL, max) then [ptr] else [])
      ensures r.Err? ==> freed == old(freed) && mem[..] == old(mem[..])
      ensures r.Ok? && newL.size > 0 ==> r.value + newL.size <= mem.Length
      ensures r.Ok? ==> forall j :: r.value <= j < r.value + oldL.size ==> mem[j] == old(mem[j - r.value + ptr])
      ensures r.Ok? ==> forall j :: r.value + oldL.size <= j < r.value + newL.size ==> mem[j] == 0
      ensures r.Ok? ==> forall j :: 0 <= j < mem.Length && !(r.value <= j < r.value + newL.size) ==> mem[j] == old(mem[j])
    {
      r := Resize(ptr, oldL, newL, haveMemalign, returned);
      if r.Ok? {
        ghost var resized := mem[..];
        WriteBytes(mem, r.value + oldL.size, newL.size - oldL.size, 0);
        assert forall j :: 0 <= j < mem.Length && !(r.value + oldL.size <= j < r.value + newL.size) ==> mem[j] == resized[j];
      }
    }
  }
}
