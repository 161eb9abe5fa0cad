/** Dictionary blobs as objects over a shared heap, statement by statement. Each operation is proved
    to do what the function of its name in `BlobSpec` says; mutexes are not part of the model. */
module Dictionary {
  import opened Wrappers
  import Spec = BlobSpec

  /** The process's allocator. Freeing or writing anything that is not live is excluded. */
  class Memory {
    var cells: Spec.Heap

    constructor ()
      ensures cells == map[]
    {
      cells := map[];
    }

    method Malloc(grant: Option<Spec.Allocation>) returns (a: Option<Spec.Address>)
      requires grant.Some? ==> grant.value.at !in cells
      modifies this
      ensures grant.None? ==> a == None && cells == old(cells)
      ensures grant.Some? ==> a == Some(grant.value.at) && cells == old(cells)[grant.value.at := grant.value.bytes]
    {
      if grant.None? {
        return None;
      }
      a := Some(grant.value.at);
      cells := cells[grant.value.at := grant.value.bytes];
    }

    method Free(a: Spec.Address)
      requires a in cells
      modifies this
      ensures Some(cells) == Spec.Free(old(cells), a)
    {
      cells := cells - {a};
    }

    method Memcpy(a: Spec.Address, payload: seq<bv8>)
      requires a in cells && |payload| <= |cells[a]|
      modifies this
      ensures Some(cells) == Spec.Memcpy(old(cells), a, payload)
    {
      cells := cells[a := payload + cells[a][|payload|..]];
    }
  }

  class DictBlob {
    var sz: nat
    var memSz: nat
    var blob: Option<Spec.Address>
    var owner: bool
    var lastMod: int

    ghost function Value(): Spec.Blob
      reads this
    {
      Spec.Blob(sz, memSz, blob, owner, lastMod)
    }

    method ClearBlob(mem: Memory)
      requires Spec.Sound(Value(), mem.cells)
      modifies this, mem
      ensures Some(Spec.Placed(Value(), mem.cells)) == Spec.ClearBlob(Spec.Placed(old(Value()), old(mem.cells)))
      ensures old(owner) ==>
                mem.cells == old(mem.cells) - {old(blob).value} && Value() == Spec.NO_BLOB.(lastMod := lastMod)
      ensures !old(owner) ==> mem.cells == old(mem.cells) && Value() == old(Value())
      ensures lastMod == old(lastMod)
    {
      if blob.Some? && owner {
        mem.Free(blob.value);
        blob := None;
        owner := false;
        sz := 0;
        memSz := 0;
      }
    }

    constructor ()
      ensures Value() == Spec.NO_BLOB
    {
      sz, memSz, blob, owner, lastMod := 0, 0, None, false, 0;
    }

    constructor Transfer(source: DictBlob, mem: Memory)
      modifies source, mem
      ensures mem.cells == old(mem.cells)
      ensures (Value(), source.Value()) == Spec.Transferred(old(source.Value()))
    {
      sz, memSz, blob, owner, lastMod := 0, 0, None, false, 0;
      new;
      ClearBlob(mem);
      blob := source.blob;
      sz := source.sz;
      memSz := source.memSz;
      owner := source.owner;
      source.owner := false;
    }

    /** Undefined if it would copy to a null pointer, which is where a failed allocation leads. */
    method SetBlob(payload: Option<seq<bv8>>, size: nat, grant: Option<Spec.Allocation>, now: int, mem: Memory)
      returns (defined: bool)
      requires Spec.Sound(Value(), mem.cells) && Spec.Offered(payload, size)
      requires Spec.Reallocates(Value(), size) && size > 0 ==>
                 Spec.Grants(Spec.Placed(Value(), mem.cells), size, grant)
      modifies this, mem
      ensures var r := Spec.SetBlob(Spec.Placed(old(Value()), old(mem.cells)), payload, size, grant, now);
              (defined <==> r.Some?) && (defined ==> Some(Spec.Placed(Value(), mem.cells)) == r)
    {
      defined := true;
      if size > memSz || owner == false {
        ClearBlob(mem);
        if size > 0 {
          blob := mem.Malloc(grant);
          sz := size;
          memSz := size;
          owner := true;
        }
        if payload.Some? && size > 0 {
          if blob.None? {
            return false;
          }
          mem.Memcpy(blob.value, payload.value);
        }
      } else {
        sz := size;
        if payload.Some? && size > 0 {
          mem.Memcpy(blob.value, payload.value);
        }
      }
      lastMod := now;
    }

    /** The caller answers for the room in `buffer` and for not reading through a dangling alias. */
    method GetBlob(buffer: array<bv8>, mxsz: nat, mem: Memory) returns (cpsz: nat, ts: int)
      requires mxsz <= buffer.Length && Spec.Readable(Value(), mem.cells)
      modifies buffer
      ensures var copied := Spec.GetBlob(Value(), mem.cells, mxsz);
              cpsz == |copied| && buffer[..] == copied + old(buffer[|copied|..])
      ensures ts == lastMod
    {
      cpsz := sz;
      if cpsz > mxsz {
        cpsz := mxsz;
      }
      if blob.Some? {
        forall k | 0 <= k < cpsz {
          buffer[k] := mem.cells[blob.value][k];
        }
      } else {
        cpsz := 0;
      }
      ts := lastMod;
    }

    method GetBlobStr(buffer: array<bv8>, mxsz: nat, mem: Memory) returns (cpsz: nat, ts: int)
      requires mxsz <= buffer.Length && Spec.Readable(Value(), mem.cells)
      modifies buffer
      ensures var copied := Spec.GetBlobStr(Value(), mem.cells, mxsz);
              cpsz == |copied| && buffer[..] == copied + old(buffer[|copied|..])
      ensures ts == lastMod
    {
      ghost var was := buffer[..];
      cpsz, ts := GetBlob(buffer, mxsz, mem);
      ghost var copied := Spec.GetBlob(Value(), mem.cells, mxsz);
      assert buffer[..] == copied + was[cpsz..];
      if cpsz == 0 {
        if mxsz > 0 {
          buffer[0] := 0;
          cpsz := 1;
          assert buffer[..] == [0] + was[1..];
        }
      } else {
        buffer[cpsz - 1] := 0;
        assert buffer[..] == copied[cpsz - 1 := 0] + was[cpsz..];
      }
    }

    method GetBlobSize(mem: Memory) returns (size: nat)
      ensures Spec.Sound(Value(), mem.cells) && Spec.Readable(Value(), mem.cells) ==>
                size == |Spec.GetBlob(Value(), mem.cells, sz)|
    {
      if blob == None {
        return 0;
      }
      return sz;
    }

    method Destroy(mem: Memory)
      requires Spec.Sound(Value(), mem.cells)
      modifies this, mem
      ensures Some(Spec.Placed(Value(), mem.cells)) == Spec.ClearBlob(Spec.Placed(old(Value()), old(mem.cells)))
    {
      ClearBlob(mem);
    }
  }
}
