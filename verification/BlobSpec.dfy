/** What each dictionary-blob operation does to one blob and to the process's heap.

    The heap maps the address of every live allocation to its bytes. An address may be handed out
    again once it has been freed, so a pointer can outlive its storage, or come to designate
    somebody else's. */
module BlobSpec {
  import opened Wrappers

  type Address = nat
  type Heap = map<Address, seq<bv8>>

  datatype Blob = Blob(sz: nat, memSz: nat, blob: Option<Address>, owner: bool, lastMod: int)

  /** What `malloc` grants: an address that is not in use, and whatever bytes are found there. */
  datatype Allocation = Allocation(at: Address, bytes: seq<bv8>)

  /** A blob together with the heap it lives in. */
  datatype Placed = Placed(b: Blob, heap: Heap)

  const NO_BLOB := Blob(0, 0, None, false, 0)

  /** The storage `b` must give back: freeing it is sound only while it is live. */
  predicate Owns(b: Blob, a: Address) {
    b.owner && b.blob == Some(a)
  }

  /** What a blob object knows about its own storage. A borrowed pointer may dangle. */
  predicate Sound(b: Blob, heap: Heap) {
    && b.sz <= b.memSz
    && (b.blob.None? ==> b.memSz == 0 && !b.owner)
    && (b.owner ==> b.blob.Some? && b.blob.value in heap && |heap[b.blob.value]| == b.memSz && b.memSz > 0)
  }

  /** Reading the payload touches only live bytes. */
  predicate Readable(b: Blob, heap: Heap) {
    b.blob.Some? ==> b.blob.value in heap && b.sz <= |heap[b.blob.value]|
  }

  /** `free`; None is undefined behaviour. */
  function Free(heap: Heap, a: Address): Option<Heap> {
    if a in heap then Some(heap - {a}) else None
  }

  /** `memcpy` of the caller's bytes over the start of the storage at `a`; None is undefined
      behaviour. */
  function Memcpy(heap: Heap, a: Address, payload: seq<bv8>): Option<Heap> {
    if a in heap && |payload| <= |heap[a]| then Some(heap[a := payload + heap[a][|payload|..]]) else None
  }

  function ClearBlob(p: Placed): Option<Placed> {
    if p.b.blob.Some? && p.b.owner then
      match Free(p.heap, p.b.blob.value)
      case None => None
      case Some(heap) => Some(Placed(Blob(0, 0, None, false, p.b.lastMod), heap))
    else Some(p)
  }

  /** Whether storing `sz` bytes gives up the present storage, if owned, and looks for more. */
  predicate Reallocates(b: Blob, sz: nat) {
    sz > b.memSz || !b.owner
  }

  /** What the allocator may answer to a request for `sz` bytes: nothing, or a free address, which
      can be the one that `b` has just given back. */
  predicate Grants(p: Placed, sz: nat, grant: Option<Allocation>) {
    grant.Some? ==> (grant.value.at !in p.heap || Owns(p.b, grant.value.at)) && |grant.value.bytes| == sz
  }

  /** The allocator is asked and has nothing to give. */
  predicate Exhausted(b: Blob, sz: nat, grant: Option<Allocation>) {
    Reallocates(b, sz) && sz > 0 && grant.None?
  }

  /** The bytes a caller may hand over: none, or all `sz` of them. */
  predicate Offered(payload: Option<seq<bv8>>, sz: nat) {
    payload.Some? ==> |payload.value| == sz
  }

  function Filled(p: Placed, payload: Option<seq<bv8>>): Option<Placed> {
    if payload.Some? && p.b.sz > 0 then
      match (if p.b.blob.Some? then Memcpy(p.heap, p.b.blob.value, payload.value) else None)
      case None => None
      case Some(heap) => Some(Placed(p.b, heap))
    else Some(p)
  }

  /** The result of `malloc` is not tested: without storage the blob still takes on the new sizes
      and the ownership. */
  function Renewed(q: Placed, sz: nat, grant: Option<Allocation>, now: int): Placed {
    match grant
    case Some(g) => Placed(Blob(sz, sz, Some(g.at), true, now), q.heap[g.at := g.bytes])
    case None => Placed(Blob(sz, sz, None, true, now), q.heap)
  }

  function SetBlob(p: Placed, payload: Option<seq<bv8>>, sz: nat, grant: Option<Allocation>, now: int): Option<Placed> {
    if Reallocates(p.b, sz) then
      match ClearBlob(p)
      case None => None
      case Some(q) =>
        if sz > 0 then Filled(Renewed(q, sz, grant, now), payload)
        else Some(Placed(q.b.(lastMod := now), q.heap))
    else Filled(Placed(p.b.(sz := sz, lastMod := now), p.heap), payload)
  }

  function Min(a: nat, b: nat): nat {
    if a < b then a else b
  }

  /** The bytes a reader with room for `mxsz` receives. */
  function GetBlob(b: Blob, heap: Heap, mxsz: nat): seq<bv8>
    requires Readable(b, heap)
  {
    if b.blob.Some? then heap[b.blob.value][..Min(b.sz, mxsz)] else []
  }

  /** The same, ended by a terminator: over the last byte copied, or alone when there is none. */
  function GetBlobStr(b: Blob, heap: Heap, mxsz: nat): seq<bv8>
    requires Readable(b, heap)
  {
    var bytes := GetBlob(b, heap, mxsz);
    if bytes != [] then bytes[|bytes| - 1 := 0]
    else if mxsz > 0 then [0]
    else []
  }

  /** The new blob and what is left of its source. */
  function Transferred(source: Blob): (Blob, Blob) {
    (source.(lastMod := 0), source.(owner := false))
  }

  // ---------------------------------------------------------------- one operation at a time

  /** A set needs an allocator that has something to give: if and only if it has, or is not asked,
      the set is defined and leaves a sound blob. Otherwise a payload is copied through a null pointer,
      and without a payload the blob owns storage that it does not have. */
  lemma SetNeedsStorage(p: Placed, payload: Option<seq<bv8>>, sz: nat, grant: Option<Allocation>, now: int)
    requires Sound(p.b, p.heap) && Offered(payload, sz)
    requires Reallocates(p.b, sz) && sz > 0 ==> Grants(p, sz, grant)
    ensures var r := SetBlob(p, payload, sz, grant, now);
            && (r.Some? && Sound(r.value.b, r.value.heap) <==> !Exhausted(p.b, sz, grant))
            && (Exhausted(p.b, sz, grant) ==>
                  && (r.None? <==> payload.Some?)
                  && (r.Some? ==>
                        r.value.b == Blob(sz, sz, None, true, now) && GetBlob(r.value.b, r.value.heap, sz) == []))
  {
  }

  /** A set stamps the blob and touches no storage but the blob's own, old and new: it reuses storage
      that it owns and that is large enough, and otherwise takes new storage of exactly the size. */
  lemma SetFootprint(p: Placed, payload: Option<seq<bv8>>, sz: nat, grant: Option<Allocation>, now: int)
    requires Sound(p.b, p.heap) && Offered(payload, sz) && !Exhausted(p.b, sz, grant)
    requires Reallocates(p.b, sz) && sz > 0 ==> Grants(p, sz, grant)
    ensures var r := SetBlob(p, payload, sz, grant, now);
            && r.Some? && Sound(r.value.b, r.value.heap) && r.value.b.lastMod == now
            && (forall a | a in r.value.heap ::
                  Owns(r.value.b, a) || (a in p.heap && !Owns(p.b, a)))
            && (forall a | a in p.heap && !Owns(p.b, a) ::
                  !Owns(r.value.b, a) && a in r.value.heap && r.value.heap[a] == p.heap[a])
            && (p.b.owner && sz <= p.b.memSz ==> r.value.b == p.b.(sz := sz, lastMod := now))
            && (!(p.b.owner && sz <= p.b.memSz) && sz > 0 ==>
                  r.value.b == Blob(sz, sz, Some(grant.value.at), true, now))
            && (!p.b.owner && sz == 0 ==> r.value == Placed(p.b.(lastMod := now), p.heap))
  {
    var q := SetBlob(p, payload, sz, grant, now).value;
    if Reallocates(p.b, sz) {
      var cleared := ClearBlob(p).value;
      assert forall a | a in cleared.heap :: a in p.heap && !Owns(p.b, a);
    }
  }

  /** A stored payload is what is read back, up to the room the reader has, whatever was there
      before and whether or not the storage was reused. */
  lemma GetAfterSet(p: Placed, bytes: seq<bv8>, grant: Option<Allocation>, now: int, mxsz: nat)
    requires Sound(p.b, p.heap) && |bytes| > 0 && !Exhausted(p.b, |bytes|, grant)
    requires Reallocates(p.b, |bytes|) ==> Grants(p, |bytes|, grant)
    ensures var r := SetBlob(p, Some(bytes), |bytes|, grant, now);
            && r.Some? && r.value.b.owner && r.value.b.lastMod == now
            && Sound(r.value.b, r.value.heap) && Readable(r.value.b, r.value.heap)
            && GetBlob(r.value.b, r.value.heap, mxsz) == bytes[..Min(|bytes|, mxsz)]
  {
    var q := SetBlob(p, Some(bytes), |bytes|, grant, now).value;
    var before := if Reallocates(p.b, |bytes|) then grant.value.bytes else p.heap[p.b.blob.value];
    assert q.heap[q.b.blob.value] == bytes + before[|bytes|..];
  }

  /** The terminated copy: it fits, it ends in a terminator whenever there is room for one, which takes
      the place of the last byte that would have been copied, or stands alone when there is none, and
      every byte before it is the stored one. */
  lemma StringCopy(b: Blob, heap: Heap, mxsz: nat)
    requires Readable(b, heap)
    ensures var s := GetBlobStr(b, heap, mxsz);
            && |s| <= mxsz
            && (mxsz > 0 <==> |s| > 0)
            && (|s| > 0 ==> s[|s| - 1] == 0 && s[..|s| - 1] <= GetBlob(b, heap, mxsz))
            && (mxsz > 0 ==>
                  |s| == if b.blob.None? || b.sz == 0 then 1 else if b.sz < mxsz then b.sz else mxsz)
            && (b.blob.Some? ==>
                  forall k | 0 <= k < |s| - 1 :: k < |heap[b.blob.value]| && s[k] == heap[b.blob.value][k])
  {
    var bytes := GetBlob(b, heap, mxsz);
    if bytes != [] {
      assert GetBlobStr(b, heap, mxsz)[..|bytes| - 1] == bytes[..|bytes| - 1];
    }
  }
}
