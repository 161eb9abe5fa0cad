/** Many blobs over one heap: who owns what, over every sequence of operations. */
module BlobWorld {
  import opened Wrappers
  import opened BlobSpec

  type Name = nat

  datatype World = World(blobs: map<Name, Blob>, heap: Heap)

  datatype Op =
    | Construct(n: Name)
    | Transfer(source: Name, n: Name)
    | Set(n: Name, payload: Option<seq<bv8>>, sz: nat, grant: Option<Allocation>, now: int)
    | Destroy(n: Name)

  const NOTHING := World(map[], map[])

  function At(w: World, n: Name): Placed
    requires n in w.blobs
  {
    Placed(w.blobs[n], w.heap)
  }

  /** What the callers and the allocator guarantee. Nothing is asked about ownership. */
  predicate Enabled(w: World, op: Op) {
    match op
    case Construct(n) => n !in w.blobs
    case Transfer(source, n) => source in w.blobs && n !in w.blobs
    case Set(n, payload, sz, grant, now) =>
      && n in w.blobs
      && Offered(payload, sz)
      && (Reallocates(w.blobs[n], sz) && sz > 0 ==> Grants(At(w, n), sz, grant))
    case Destroy(n) => n in w.blobs
  }

  /** Each live blob is sound; every live allocation has an owner, and no more than one. */
  ghost predicate Conserved(w: World) {
    && (forall n | n in w.blobs :: Sound(w.blobs[n], w.heap))
    && (forall a | a in w.heap :: exists n :: n in w.blobs && Owns(w.blobs[n], a))
    && (forall m, n, a | m in w.blobs && n in w.blobs && Owns(w.blobs[m], a) && Owns(w.blobs[n], a) :: m == n)
  }

  /** The world after an operation; None is undefined behaviour: storage freed twice, or written
      to while it is not live. */
  function Next(w: World, op: Op): Option<World>
    requires Enabled(w, op)
  {
    match op
    case Construct(n) => Some(World(w.blobs[n := NO_BLOB], w.heap))
    case Transfer(source, n) =>
      var (moved, left) := Transferred(w.blobs[source]);
      Some(World(w.blobs[source := left][n := moved], w.heap))
    case Set(n, payload, sz, grant, now) =>
      match SetBlob(At(w, n), payload, sz, grant, now) {
        case None => None
        case Some(p) => Some(World(w.blobs[n := p.b], p.heap))
      }
    case Destroy(n) =>
      match ClearBlob(At(w, n)) {
        case None => None
        case Some(p) => Some(World(w.blobs - {n}, p.heap))
      }
  }

  /** The address an operation hands back to the allocator. */
  function Frees(w: World, op: Op): Option<Address>
    requires Enabled(w, op)
  {
    if (op.Destroy? || (op.Set? && Reallocates(w.blobs[op.n], op.sz))) && w.blobs[op.n].owner
    then w.blobs[op.n].blob
    else None
  }

  /** The operation asks the allocator for storage and gets none. */
  predicate RunsOut(w: World, op: Op)
    requires Enabled(w, op)
  {
    op.Set? && Exhausted(w.blobs[op.n], op.sz, op.grant)
  }

  /** Should the operation ask the allocator, it gets what it asks for. */
  predicate Supplied(op: Op) {
    op.Set? ==> op.grant.Some?
  }

  // --------------------------------------------------------------------------- one step

  lemma SetConserves(w: World, op: Op)
    requires Conserved(w) && op.Set? && Enabled(w, op) && !RunsOut(w, op)
    ensures Next(w, op).Some? && Conserved(Next(w, op).value)
  {
    var n := op.n;
    SetNeedsStorage(At(w, n), op.payload, op.sz, op.grant, op.now);
    SetFootprint(At(w, n), op.payload, op.sz, op.grant, op.now);
    var p := SetBlob(At(w, n), op.payload, op.sz, op.grant, op.now).value;
    var v := World(w.blobs[n := p.b], p.heap);
    forall m | m in v.blobs
      ensures Sound(v.blobs[m], v.heap)
    {
      if m != n && v.blobs[m].owner {
        assert Owns(w.blobs[m], v.blobs[m].blob.value);
      }
    }
    forall a | a in v.heap
      ensures exists m :: m in v.blobs && Owns(v.blobs[m], a)
    {
      if !Owns(v.blobs[n], a) {
        var m :| m in w.blobs && Owns(w.blobs[m], a);
        assert m != n && Owns(v.blobs[m], a);
      }
    }
    forall k, m, a | k in v.blobs && m in v.blobs && Owns(v.blobs[k], a) && Owns(v.blobs[m], a)
      ensures k == m
    {
      assert k != n ==> Owns(w.blobs[k], a) && a in w.heap;
      assert m != n ==> Owns(w.blobs[m], a) && a in w.heap;
    }
  }

  lemma TransferConserves(w: World, op: Op)
    requires Conserved(w) && op.Transfer? && Enabled(w, op)
    ensures Conserved(Next(w, op).value)
  {
    var v := Next(w, op).value;
    forall a | a in v.heap
      ensures exists m :: m in v.blobs && Owns(v.blobs[m], a)
    {
      var m :| m in w.blobs && Owns(w.blobs[m], a);
      assert Owns(v.blobs[if m == op.source then op.n else m], a);
    }
    forall k, m, a | k in v.blobs && m in v.blobs && Owns(v.blobs[k], a) && Owns(v.blobs[m], a)
      ensures k == m
    {
      assert Owns(w.blobs[if k == op.n then op.source else k], a);
      assert Owns(w.blobs[if m == op.n then op.source else m], a);
    }
  }

  lemma DestroyConserves(w: World, op: Op)
    requires Conserved(w) && op.Destroy? && Enabled(w, op)
    ensures Next(w, op).Some? && Conserved(Next(w, op).value)
  {
    var v := Next(w, op).value;
    forall m | m in v.blobs
      ensures Sound(v.blobs[m], v.heap)
    {
      if v.blobs[m].owner {
        assert Owns(w.blobs[m], v.blobs[m].blob.value);
        assert !Owns(w.blobs[op.n], v.blobs[m].blob.value);
      }
    }
    forall a | a in v.heap
      ensures exists m :: m in v.blobs && Owns(v.blobs[m], a)
    {
      var m :| m in w.blobs && Owns(w.blobs[m], a);
      assert m != op.n && Owns(v.blobs[m], a);
    }
  }

  lemma ConstructConserves(w: World, op: Op)
    requires Conserved(w) && op.Construct? && Enabled(w, op)
    ensures Conserved(Next(w, op).value)
  {
    var v := Next(w, op).value;
    forall a | a in v.heap
      ensures exists m :: m in v.blobs && Owns(v.blobs[m], a)
    {
      var m :| m in w.blobs && Owns(w.blobs[m], a);
      assert m in v.blobs && Owns(v.blobs[m], a);
    }
  }

  /** One operation is well defined and conserves ownership if and only if it does not ask the
      allocator in vain; what it frees is a live allocation of its own in any case. */
  lemma StepConserves(w: World, op: Op)
    requires Conserved(w) && Enabled(w, op)
    ensures Next(w, op).Some? && Conserved(Next(w, op).value) <==> !RunsOut(w, op)
    ensures Frees(w, op).Some? ==> Frees(w, op).value in w.heap && Owns(w.blobs[op.n], Frees(w, op).value)
  {
    if RunsOut(w, op) {
      SetNeedsStorage(At(w, op.n), op.payload, op.sz, op.grant, op.now);
      if Next(w, op).Some? {
        var v := Next(w, op).value;
        assert op.n in v.blobs && !Sound(v.blobs[op.n], v.heap);
      }
    } else {
      match op
      case Construct(_) => ConstructConserves(w, op);
      case Transfer(_, _) => TransferConserves(w, op);
      case Set(_, _, _, _, _) => SetConserves(w, op);
      case Destroy(_) => DestroyConserves(w, op);
    }
  }

  // ------------------------------------------------------------------------------- runs

  /** Callers and allocator keep their side for as long as the run is defined. */
  predicate Legal(w: World, ops: seq<Op>)
    decreases |ops|
  {
    ops == [] || (Enabled(w, ops[0]) && (Next(w, ops[0]).Some? ==> Legal(Next(w, ops[0]).value, ops[1..])))
  }

  function Run(w: World, ops: seq<Op>): Option<World>
    requires Legal(w, ops)
    decreases |ops|
  {
    if ops == [] then Some(w)
    else
      var next := Next(w, ops[0]);
      if next.None? then None else Run(next.value, ops[1..])
  }

  /** While the allocator has something to give no run is ever undefined, and along it every live
      allocation has exactly one live owner and every owner's storage is live and as large as its
      owner believes. Nothing else is held: destroying the last blob leaves no allocation behind. */
  lemma {:induction false} OwnershipIsConserved(w: World, ops: seq<Op>)
    requires Conserved(w) && Legal(w, ops)
    requires forall op | op in ops :: Supplied(op)
    ensures Run(w, ops).Some? && Conserved(Run(w, ops).value)
    ensures Run(w, ops).value.blobs == map[] ==> Run(w, ops).value.heap == map[]
    decreases |ops|
  {
    if ops == [] {
      if w.blobs == map[] {
        assert forall a :: a !in w.heap;
      }
    } else {
      assert ops[0] in ops;
      StepConserves(w, ops[0]);
      OwnershipIsConserved(Next(w, ops[0]).value, ops[1..]);
    }
  }

  /** In particular from the start of a process, when there is no blob and no allocation. */
  lemma OwnershipFromTheStart(ops: seq<Op>)
    requires Legal(NOTHING, ops)
    requires forall op | op in ops :: Supplied(op)
    ensures Run(NOTHING, ops).Some? && Conserved(Run(NOTHING, ops).value)
    ensures Run(NOTHING, ops).value.blobs == map[] ==> Run(NOTHING, ops).value.heap == map[]
  {
    assert Conserved(NOTHING);
    OwnershipIsConserved(NOTHING, ops);
  }

  /** The operation does not write to, give away or destroy blob `n`. */
  predicate Leaves(op: Op, n: Name) {
    match op
    case Construct(m) => true
    case Transfer(source, _) => source != n
    case Set(m, _, _, _, _) => m != n
    case Destroy(m) => m != n
  }

  lemma PayloadSurvivesStep(w: World, op: Op, n: Name, mxsz: nat)
    requires Conserved(w) && Enabled(w, op) && Supplied(op) && Leaves(op, n)
    requires n in w.blobs && w.blobs[n].owner
    ensures Next(w, op).Some? && Conserved(Next(w, op).value)
    ensures n in Next(w, op).value.blobs && Next(w, op).value.blobs[n] == w.blobs[n]
    ensures GetBlob(w.blobs[n], Next(w, op).value.heap, mxsz) == GetBlob(w.blobs[n], w.heap, mxsz)
  {
    StepConserves(w, op);
    var a := w.blobs[n].blob.value;
    assert Owns(w.blobs[n], a);
    if op.Set? {
      SetFootprint(At(w, op.n), op.payload, op.sz, op.grant, op.now);
    }
    if op.Set? || op.Destroy? {
      assert !Owns(w.blobs[op.n], a);
      assert Next(w, op).value.heap[a] == w.heap[a];
    }
  }

  /** No interference: while nobody writes to, transfers or destroys an owning blob, every other
      blob's operations, reallocations of recycled addresses included, leave its payload alone. */
  lemma {:induction false} PayloadSurvives(w: World, ops: seq<Op>, n: Name, mxsz: nat)
    requires Conserved(w) && Legal(w, ops)
    requires n in w.blobs && w.blobs[n].owner
    requires forall op | op in ops :: Supplied(op) && Leaves(op, n)
    ensures Run(w, ops).Some? && Conserved(Run(w, ops).value)
    ensures n in Run(w, ops).value.blobs && Run(w, ops).value.blobs[n] == w.blobs[n]
    ensures GetBlob(w.blobs[n], Run(w, ops).value.heap, mxsz) == GetBlob(w.blobs[n], w.heap, mxsz)
    decreases |ops|
  {
    if ops != [] {
      assert ops[0] in ops;
      PayloadSurvivesStep(w, ops[0], n, mxsz);
      PayloadSurvives(Next(w, ops[0]).value, ops[1..], n, mxsz);
    }
  }

  // ---------------------------------------------------------------------------- aliases

  /** A transfer moves the duty to free and nothing else: both names read the old payload. */
  lemma TransferKeepsPayload(w: World, source: Name, n: Name, mxsz: nat)
    requires Enabled(w, Transfer(source, n)) && Readable(w.blobs[source], w.heap)
    ensures var v := Next(w, Transfer(source, n)).value;
            && v.heap == w.heap
            && !v.blobs[source].owner && v.blobs[n].owner == w.blobs[source].owner
            && Readable(v.blobs[source], v.heap) && Readable(v.blobs[n], v.heap)
            && GetBlob(v.blobs[n], v.heap, mxsz) == GetBlob(w.blobs[source], w.heap, mxsz)
            && GetBlob(v.blobs[source], v.heap, mxsz) == GetBlob(w.blobs[source], w.heap, mxsz)
            && v.blobs[n].lastMod == 0 && v.blobs[source].lastMod == w.blobs[source].lastMod
  {
    assert source != n;
  }

  /** What an alias left behind by a transfer may still do: its pointer is good until an operation
      frees that storage and the allocator does not at once hand out the same address again. */
  lemma AliasLastsUntilFreed(w: World, op: Op, alias: Name)
    requires Conserved(w) && Enabled(w, op) && Supplied(op) && Leaves(op, alias)
    requires alias in w.blobs && w.blobs[alias].blob.Some? && !w.blobs[alias].owner
    requires w.blobs[alias].blob.value in w.heap
    ensures Next(w, op).Some?
    ensures var v := Next(w, op).value;
            && alias in v.blobs && v.blobs[alias] == w.blobs[alias]
            && (w.blobs[alias].blob.value in v.heap <==>
                || Frees(w, op) != w.blobs[alias].blob
                || (op.Set? && op.sz > 0 && Some(op.grant.value.at) == w.blobs[alias].blob))
  {
    StepConserves(w, op);
  }
}
