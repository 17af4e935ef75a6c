/** Reference-counted ownership of native resources: `std::shared_ptr`, and `std::unique_ptr`
    as the case whose count never exceeds one. */
module SmartPointers {

  datatype Kind = I2c | Smbus | Poller

  /** A counted object: the DeviceState of a handle, or the state behind a child adapter. */
  datatype Ref = Dev(handle: nat) | Kid(id: nat, kind: Kind)

  /** A smart pointer: the `state_` of a user's object, the `device` member of a child state,
      or a local variable (or temporary) of a running thread. */
  datatype Slot = Object(name: nat) | Member(kid: Ref) | Local(thread: nat)

  datatype Sort = DeviceObject | ChildObject(kind: Kind)

  datatype Heap = Heap(
    objects: map<nat, Sort>,   // the user's objects, empty ones included
    owners: map<Slot, Ref>,    // the smart pointers that are not null
    counts: map<Ref, nat>,     // the strong count of every block that still exists
    closes: map<Ref, nat>,     // native close calls made for every resource ever acquired
    bound: map<Ref, nat>)      // SMBus bindings in force, with the handle they use

  ghost function Holders(h: Heap, r: Ref): set<Slot> {
    set s | s in h.owners && h.owners[s] == r
  }

  /** The counts are the numbers of owners, and nothing points to a block that is gone. */
  ghost predicate Counted(h: Heap) {
    && (forall s | s in h.owners :: h.owners[s] in h.counts)
    && (forall r | r in h.counts :: h.counts[r] == |Holders(h, r)|)
  }

  /** What the counts are for: a block that something points to has a positive count. */
  ghost predicate Live(h: Heap) {
    forall s | s in h.owners :: h.owners[s] in h.counts && h.counts[h.owners[s]] > 0
  }

  lemma CountedIsLive(h: Heap)
    requires Counted(h)
    ensures Live(h)
  {
    forall s | s in h.owners ensures h.counts[h.owners[s]] > 0 {
      assert s in Holders(h, h.owners[s]);
    }
  }

  /** `make_shared` / `make_unique`. */
  function Create(h: Heap, s: Slot, r: Ref): Heap {
    h.(owners := h.owners[s := r], counts := h.counts[r := 1], closes := h.closes[r := 0])
  }

  /** Copying a pointer into an empty one. */
  function Share(h: Heap, s: Slot, r: Ref): Heap
    requires r in h.counts
  {
    h.(owners := h.owners[s := r], counts := h.counts[r := h.counts[r] + 1])
  }

  /** Moving a pointer into an empty one; moving from null moves nothing. */
  function Shift(h: Heap, from: Slot, to: Slot): Heap {
    if from in h.owners then h.(owners := (h.owners - {from})[to := h.owners[from]]) else h
  }

  /** Dropping one owner; the block itself goes in a later step. */
  function Drop(h: Heap, s: Slot): Heap
    requires s in h.owners && h.owners[s] in h.counts && h.counts[h.owners[s]] > 0
  {
    var r := h.owners[s];
    h.(owners := h.owners - {s}, counts := h.counts[r := h.counts[r] - 1])
  }

  /** Releasing the memory of a block without owners. */
  function Free(h: Heap, r: Ref): Heap {
    h.(counts := h.counts - {r})
  }

  /** A native close call for `r`. */
  function Close(h: Heap, r: Ref): Heap
    requires r in h.closes
  {
    h.(closes := h.closes[r := h.closes[r] + 1], bound := h.bound - {r})
  }

  lemma CreateCounted(h: Heap, s: Slot, r: Ref)
    requires Counted(h) && s !in h.owners && r !in h.counts
    ensures Counted(Create(h, s, r))
  {
    var h' := Create(h, s, r);
    forall q | q in h'.counts ensures h'.counts[q] == |Holders(h', q)| {
      if q == r { assert Holders(h', r) == {s}; } else { assert Holders(h', q) == Holders(h, q); }
    }
  }

  lemma ShareCounted(h: Heap, s: Slot, r: Ref)
    requires Counted(h) && s !in h.owners && r in h.counts
    ensures Counted(Share(h, s, r))
  {
    var h' := Share(h, s, r);
    forall q | q in h'.counts ensures h'.counts[q] == |Holders(h', q)| {
      if q == r { assert Holders(h', r) == Holders(h, r) + {s}; } else { assert Holders(h', q) == Holders(h, q); }
    }
  }

  lemma ShiftCounted(h: Heap, from: Slot, to: Slot)
    requires Counted(h) && to !in h.owners
    ensures Counted(Shift(h, from, to))
  {
    var h' := Shift(h, from, to);
    if from in h.owners {
      forall q | q in h'.counts ensures h'.counts[q] == |Holders(h', q)| {
        if q == h.owners[from] {
          assert Holders(h', q) == Holders(h, q) - {from} + {to};
        } else {
          assert Holders(h', q) == Holders(h, q);
        }
      }
    }
  }

  lemma DropCounted(h: Heap, s: Slot)
    requires Counted(h) && s in h.owners
    ensures h.owners[s] in h.counts && h.counts[h.owners[s]] > 0 && Counted(Drop(h, s))
  {
    var r := h.owners[s];
    assert s in Holders(h, r);
    var h' := Drop(h, s);
    forall q | q in h'.counts ensures h'.counts[q] == |Holders(h', q)| {
      if q == r { assert Holders(h', r) == Holders(h, r) - {s}; } else { assert Holders(h', q) == Holders(h, q); }
    }
  }

  lemma FreeCounted(h: Heap, r: Ref)
    requires Counted(h) && r in h.counts && h.counts[r] == 0
    ensures Counted(Free(h, r))
  {
    var h' := Free(h, r);
    forall s | s in h'.owners ensures h'.owners[s] in h'.counts {
      assert s in Holders(h, h.owners[s]);
    }
    forall q | q in h'.counts ensures h'.counts[q] == |Holders(h', q)| {
      assert Holders(h', q) == Holders(h, q);
    }
  }

  /** A block has owners exactly when its count is positive. */
  lemma PositiveIffOwned(h: Heap, r: Ref)
    requires Counted(h)
    ensures (r in h.counts && h.counts[r] > 0) <==> (exists s :: s in h.owners && h.owners[s] == r)
  {
    if r in h.counts && h.counts[r] > 0 {
      var s :| s in Holders(h, r);
    }
    if s :| s in h.owners && h.owners[s] == r {
      assert s in Holders(h, r);
    }
  }
}
