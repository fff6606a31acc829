/**
 The kernel resources behind the LPA buffers: what a buffer owns, what a call log leaves live, and
 why releasing the two queues releases the pool.
 */
module LpaResources {
  import opened Wrappers

  import opened LpaProtocol
  import opened LpaSafety

  datatype Resource = Handle(id: int) | Descriptor(fd: int) | Mapping(addr: int) | LocalCopy(ptr: int)

  datatype Use = Acquire(r: Resource) | Release(r: Resource)

  /** How often `r` is acquired and not yet released after `calls`. */
  function Live(calls: seq<Use>, r: Resource): int {
    if calls == [] then 0
    else Live(calls[..|calls| - 1], r) + Effect(calls[|calls| - 1], r)
  }

  function Effect(u: Use, r: Resource): int {
    if u.r != r then 0 else if u.Acquire? then 1 else -1
  }

  /** No call releases something that is not live at that moment. */
  predicate ReleasesLive(calls: seq<Use>) {
    calls == [] ||
    (var last := calls[|calls| - 1];
     && ReleasesLive(calls[..|calls| - 1])
     && (last.Release? ==> Live(calls[..|calls| - 1], last.r) > 0))
  }

  /** One more call on a log. */
  lemma LiveAppend(calls: seq<Use>, u: Use)
    ensures forall r :: Live(calls + [u], r) == Live(calls, r) + Effect(u, r)
    ensures ReleasesLive(calls + [u]) == (ReleasesLive(calls) && (u.Release? ==> Live(calls, u.r) > 0))
  {
    assert (calls + [u])[..|calls|] == calls;
  }

  /** The mapping, shared descriptor, allocation handle and local copy of one buffer. */
  function Owned(b: Buffer, r: Resource): nat {
    if r in [Mapping(b.memBuf), Descriptor(b.memFd), Handle(b.ionHandle), LocalCopy(b.localBuf)] then 1 else 0
  }

  function OwnedAll(q: seq<Buffer>, r: Resource): nat {
    if q == [] then 0 else Owned(q[0], r) + OwnedAll(q[1..], r)
  }

  lemma {:induction false} OwnedConcat(a: seq<Buffer>, b: seq<Buffer>, r: Resource)
    ensures OwnedAll(a + b, r) == OwnedAll(a, r) + OwnedAll(b, r)
  {
    if a == [] {
      assert a + b == b;
    } else {
      OwnedConcat(a[1..], b, r);
      assert (a + b)[1..] == a[1..] + b;
    }
  }

  /** Sequences with the same bag of slots own the same resources, whatever their order and contents. */
  lemma {:induction false} SameSlotsOwnSame(a: seq<Buffer>, b: seq<Buffer>, r: Resource)
    requires multiset(Slots(a)) == multiset(Slots(b))
    ensures OwnedAll(a, r) == OwnedAll(b, r)
  {
    if a == [] {
      assert |multiset(Slots(a))| == |Slots(b)|;
    } else {
      assert Slots(a)[0] in multiset(Slots(b));
      InBag(b, Slot(a[0]));
      var j :| 0 <= j < |b| && Slot(b[j]) == Slot(a[0]);
      DropSame(a, b, j);
      SameSlotsOwnSame(a[1..], b[..j] + b[j + 1..], r);
      assert b == b[..j] + ([b[j]] + b[j + 1..]);
      OwnedConcat(b[..j], [b[j]] + b[j + 1..], r);
      OwnedConcat(b[..j], b[j + 1..], r);
      assert ([b[j]] + b[j + 1..])[1..] == b[j + 1..];
      assert Owned(a[0], r) == Owned(b[j], r);
    }
  }

  lemma DropSame(a: seq<Buffer>, b: seq<Buffer>, j: nat)
    requires multiset(Slots(a)) == multiset(Slots(b))
    requires a != [] && j < |b| && Slot(b[j]) == Slot(a[0])
    ensures multiset(Slots(a[1..])) == multiset(Slots(b[..j] + b[j + 1..]))
  {
    assert Slots(a) == [Slot(a[0])] + Slots(a[1..]);
    SlotsConcat(b[..j], b[j + 1..]);
    assert Slots(b) == Slots(b[..j]) + [Slot(b[j])] + Slots(b[j + 1..]);
    assert multiset(Slots(a[1..])) == multiset(Slots(a)) - multiset{Slot(a[0])};
    assert multiset(Slots(b[..j])) + multiset(Slots(b[j + 1..])) == multiset(Slots(b)) - multiset{Slot(b[j])};
  }

  /** The ION device itself, while open. */
  function Device(ionFd: int, r: Resource): nat {
    if ionFd >= 0 && r == Descriptor(ionFd) then 1 else 0
  }

  /** What is live is exactly what the buffers of `q` and the open ION device own. */
  ghost predicate Accounted(calls: seq<Use>, q: seq<Buffer>, ionFd: int) {
    ReleasesLive(calls) && forall r :: Live(calls, r) == OwnedAll(q, r) + Device(ionFd, r)
  }

  /** A log that has grown by calls that cancel out. */
  ghost predicate Undone(calls: seq<Use>, later: seq<Use>) {
    (ReleasesLive(calls) ==> ReleasesLive(later)) && forall r :: Live(later, r) == Live(calls, r)
  }

  lemma Undo(calls: seq<Use>, x: Resource, later: seq<Use>)
    requires Undone(calls + [Acquire(x)], later) && forall r :: Live(calls, r) >= 0
    ensures Undone(calls, later + [Release(x)])
  {
    LiveAppend(calls, Acquire(x));
    LiveAppend(later, Release(x));
  }

  /** What each stage of one buffer allocation returns: handle, shared descriptor, mapping, local copy. */
  datatype Stages = Stages(handle: Option<int>, fd: Option<int>, addr: Option<int>, local: Option<int>)

  predicate Complete(st: Stages) {
    st.handle.Some? && st.fd.Some? && st.addr.Some? && st.local.Some?
  }

  /** The buffer that a complete allocation yields. */
  function Allocated(st: Stages, size: int): Buffer
    requires Complete(st)
  {
    Buffer(st.handle.value, st.local.value, st.addr.value, size, st.fd.value, 0)
  }

  /** The buffers of the first `n` allocations that are complete, in order. */
  function AllAllocated(stages: seq<Stages>, n: nat): seq<Buffer>
    requires n <= |stages|
  {
    if n == 0 then []
    else
      AllAllocated(stages, n - 1)
      + (if Complete(stages[n - 1]) then [Allocated(stages[n - 1], LPA_BUFFER_SIZE)] else [])
  }

  /** The kernel calls of one allocation. */
  function AllocUses(st: Stages): seq<Use> {
    if st.handle.None? then []
    else
      var h := Handle(st.handle.value);
      if st.fd.None? then [Acquire(h), Release(h)]
      else
        var f := Descriptor(st.fd.value);
        if st.addr.None? then [Acquire(h), Acquire(f), Release(f), Release(h)]
        else
          var m := Mapping(st.addr.value);
          if st.local.None? then [Acquire(h), Acquire(f), Acquire(m), Release(m), Release(f), Release(h)]
          else [Acquire(h), Acquire(f), Acquire(m), Acquire(LocalCopy(st.local.value))]
  }

  /** Calls that cancel out still do between an acquisition and its release. */
  lemma Wrapped(calls: seq<Use>, x: Resource, uses: seq<Use>)
    requires Undone(calls + [Acquire(x)], calls + [Acquire(x)] + uses) && forall r :: Live(calls, r) >= 0
    ensures Undone(calls, calls + ([Acquire(x)] + uses + [Release(x)]))
    ensures forall r :: Live(calls + [Acquire(x)], r) >= 0
  {
    LiveAppend(calls, Acquire(x));
    hide Live, ReleasesLive;
    Undo(calls, x, calls + [Acquire(x)] + uses);
    assert calls + ([Acquire(x)] + uses + [Release(x)]) == calls + [Acquire(x)] + uses + [Release(x)];
  }

  /** The calls after the handle, and after the shared descriptor, of an allocation that fails there or later. */
  function UsesAfterDescriptor(st: Stages): seq<Use> {
    if st.addr.None? then [] else [Acquire(Mapping(st.addr.value))] + [] + [Release(Mapping(st.addr.value))]
  }

  function UsesAfterHandle(st: Stages): seq<Use> {
    if st.fd.None? then []
    else [Acquire(Descriptor(st.fd.value))] + UsesAfterDescriptor(st) + [Release(Descriptor(st.fd.value))]
  }

  lemma AfterDescriptorUndone(calls: seq<Use>, st: Stages)
    requires forall r :: Live(calls, r) >= 0
    ensures Undone(calls, calls + UsesAfterDescriptor(st))
  {
    hide Live, ReleasesLive;
    assert calls + [] == calls;
    if st.addr.Some? {
      var m := Mapping(st.addr.value);
      assert calls + [Acquire(m)] + [] == calls + [Acquire(m)];
      Wrapped(calls, m, []);
    }
  }

  lemma AfterHandleUndone(calls: seq<Use>, st: Stages)
    requires forall r :: Live(calls, r) >= 0
    ensures Undone(calls, calls + UsesAfterHandle(st))
  {
    assert calls + [] == calls;
    if st.fd.Some? {
      var f := Descriptor(st.fd.value);
      LiveAppend(calls, Acquire(f));
      hide Live, ReleasesLive, UsesAfterDescriptor, Undone;
      AfterDescriptorUndone(calls + [Acquire(f)], st);
      Wrapped(calls, f, UsesAfterDescriptor(st));
    }
  }

  lemma FailedUses(st: Stages)
    requires !Complete(st) && st.handle.Some?
    ensures var h := Handle(st.handle.value);
            AllocUses(st) == [Acquire(h)] + UsesAfterHandle(st) + [Release(h)]
  {
  }

  /** Each failing stage undoes all earlier ones. */
  lemma FailedAllocUndone(calls: seq<Use>, st: Stages)
    requires !Complete(st) && forall r :: Live(calls, r) >= 0
    ensures Undone(calls, calls + AllocUses(st))
  {
    assert calls + [] == calls;
    if st.handle.Some? {
      var h := Handle(st.handle.value);
      FailedUses(st);
      LiveAppend(calls, Acquire(h));
      hide Live, ReleasesLive, UsesAfterHandle, AllocUses, Undone;
      AfterHandleUndone(calls + [Acquire(h)], st);
      Wrapped(calls, h, UsesAfterHandle(st));
    }
  }

  /** After an allocation the live resources are again those of the pool, grown or not. */
  lemma AllocAccounted(calls: seq<Use>, q: seq<Buffer>, ionFd: int, st: Stages, size: int)
    requires Accounted(calls, q, ionFd)
    ensures Accounted(calls + AllocUses(st), if Complete(st) then q + [Allocated(st, size)] else q, ionFd)
  {
    if Complete(st) {
      var b := Allocated(st, size);
      var c1 := calls + [Acquire(Handle(b.ionHandle))];
      var c2 := c1 + [Acquire(Descriptor(b.memFd))];
      var c3 := c2 + [Acquire(Mapping(b.memBuf))];
      var c4 := c3 + [Acquire(LocalCopy(b.localBuf))];
      LiveAppend(calls, Acquire(Handle(b.ionHandle)));
      LiveAppend(c1, Acquire(Descriptor(b.memFd)));
      LiveAppend(c2, Acquire(Mapping(b.memBuf)));
      LiveAppend(c3, Acquire(LocalCopy(b.localBuf)));
      assert calls + AllocUses(st) == c4;
      forall r ensures OwnedAll(q + [b], r) == OwnedAll(q, r) + Owned(b, r) {
        OwnedConcat(q, [b], r);
      }
    } else {
      FailedAllocUndone(calls, st);
    }
  }

  /** The release calls for one buffer, and for the buffers of `q`, in order. */
  function ReleasesOf(b: Buffer): seq<Use> {
    [Release(Mapping(b.memBuf)), Release(Descriptor(b.memFd)), Release(Handle(b.ionHandle)),
     Release(LocalCopy(b.localBuf))]
  }

  function Releases(q: seq<Buffer>): seq<Use> {
    if q == [] then [] else ReleasesOf(q[0]) + Releases(q[1..])
  }

  lemma {:induction false} ReleasesConcat(a: seq<Buffer>, b: seq<Buffer>)
    ensures Releases(a + b) == Releases(a) + Releases(b)
  {
    if a == [] {
      assert a + b == b;
    } else {
      hide ReleasesOf;
      ReleasesConcat(a[1..], b);
      assert (a + b)[1..] == a[1..] + b;
    }
  }

  /** Releasing the first buffer leaves the others accounted for. */
  lemma ReleaseAccounted(calls: seq<Use>, q: seq<Buffer>, ionFd: int)
    requires q != [] && Accounted(calls, q, ionFd)
    ensures Accounted(calls + Releases([q[0]]), q[1..], ionFd)
  {
    var b := q[0];
    var c1 := calls + [Release(Mapping(b.memBuf))];
    var c2 := c1 + [Release(Descriptor(b.memFd))];
    var c3 := c2 + [Release(Handle(b.ionHandle))];
    LiveAppend(calls, Release(Mapping(b.memBuf)));
    LiveAppend(c1, Release(Descriptor(b.memFd)));
    LiveAppend(c2, Release(Handle(b.ionHandle)));
    LiveAppend(c3, Release(LocalCopy(b.localBuf)));
    assert Releases([b]) == ReleasesOf(b);
    assert calls + ReleasesOf(b) == c3 + [Release(LocalCopy(b.localBuf))];
    hide Live, ReleasesLive, Releases, ReleasesOf;
  }

  /** The two queues can stand for the pool in the account. */
  lemma QueuesAccounted(calls: seq<Use>, s: Session, ionFd: int)
    requires Conserved(s) && Accounted(calls, s.pool, ionFd)
    ensures Accounted(calls, s.empty + s.filled, ionFd)
  {
    forall r ensures OwnedAll(s.empty + s.filled, r) == OwnedAll(s.pool, r) {
      QueuesOwnPool(s, r);
      OwnedConcat(s.empty, s.filled, r);
    }
  }

  /** Over every run of a session the live resources are those of its free and filled buffers and the device. */
  lemma RunAccounted(calls: seq<Use>, w: World, es: seq<Event>, ionFd: int)
    requires Conserved(w.s) && Accounted(calls, w.s.pool, ionFd) && ValidRun(w, es)
    ensures var s := Run(w, es).s;
            Accounted(calls, s.pool, ionFd) && Accounted(calls, s.empty + s.filled, ionFd)
  {
    PoolConserved(w, es);
    hide Accounted, Conserved;
    QueuesAccounted(calls, Run(w, es).s, ionFd);
  }

  lemma NothingLive(calls: seq<Use>, ionFd: int)
    requires Accounted(calls, [], ionFd) && ionFd < 0
    ensures ReleasesLive(calls) && forall r :: Live(calls, r) == 0
  {
  }

  lemma DeviceAccounted(calls: seq<Use>, q: seq<Buffer>, ionFd: int)
    requires ionFd >= 0
    ensures Accounted(calls, q, -1) ==> Accounted(calls + [Acquire(Descriptor(ionFd))], q, ionFd)
    ensures Accounted(calls, q, ionFd) ==> Accounted(calls + [Release(Descriptor(ionFd))], q, -1)
  {
    LiveAppend(calls, Acquire(Descriptor(ionFd)));
    LiveAppend(calls, Release(Descriptor(ionFd)));
  }

  /** A new free buffer at a new address keeps the pool conserved. */
  lemma GrowConserves(s: Session, b: Buffer)
    requires Conserved(s) && forall i | 0 <= i < |s.pool| :: s.pool[i].memBuf != b.memBuf
    ensures Conserved(s.(empty := s.empty + [b], pool := s.pool + [b]))
  {
    SlotsConcat(s.empty, [b]);
    SlotsConcat(s.pool, [b]);
    var free, full, one := multiset(Slots(s.empty)), multiset(Slots(s.filled)), multiset(Slots([b]));
    assert (free + one) + full == (free + full) + one;
  }

  /** However a run splits the pool, free and filled buffers own together what the pool owns. */
  lemma QueuesOwnPool(s: Session, r: Resource)
    requires Conserved(s)
    ensures OwnedAll(s.empty, r) + OwnedAll(s.filled, r) == OwnedAll(s.pool, r)
  {
    SlotsConcat(s.empty, s.filled);
    SameSlotsOwnSame(s.empty + s.filled, s.pool, r);
    OwnedConcat(s.empty, s.filled, r);
  }
}

/** The session object: its buffer lists, flags and buffer memory. */
module LpaSession {
  import opened Wrappers

  import opened LpaProtocol
  import opened LpaSafety
  import opened LpaResources

  const MAP_FAILED := -1
  const BUFFER_COUNT: nat := 2

  class AudioSessionOutLPA {
    var emptyQueue: seq<Buffer>
    var filledQueue: seq<Buffer>
    var bufPool: seq<Buffer>
    var paused: bool
    var isDriverStarted: bool
    var generateEos: bool
    var reachedEos: bool
    var skipWrite: bool
    var eosEventReceived: bool
    var observer: bool
    var ionFd: int
    ghost var calls: seq<Use>

    ghost function View(): Session
      reads this
    {
      Session(emptyQueue, filledQueue, bufPool, paused, isDriverStarted, generateEos, reachedEos,
              skipWrite, eosEventReceived, observer)
    }

    /** The buffers are conserved and the live kernel resources are exactly theirs and the device's. */
    ghost predicate Valid()
      reads this
    {
      Conserved(View()) && Accounted(calls, bufPool, ionFd)
    }

    constructor ()
      ensures View() == Session([], [], [], false, false, true, false, false, false, false)
      ensures ionFd == -1 && calls == [] && Valid()
    {
      emptyQueue, filledQueue, bufPool := [], [], [];
      paused, isDriverStarted, generateEos := false, false, true;
      reachedEos, skipWrite, eosEventReceived, observer := false, false, false, false;
      ionFd, calls := -1, [];
    }

    /* ---------- buffer memory ---------- */

    /** Allocates, shares, maps and shadows one buffer; a stage that fails undoes the earlier ones. */
    method MemBufferAlloc(size: int, st: Stages) returns (ionBuf: int)
      requires Valid()
      requires st.addr.Some? ==> forall i | 0 <= i < |bufPool| :: bufPool[i].memBuf != st.addr.value
      modifies `emptyQueue, `bufPool, `calls
      ensures Valid()
      ensures Complete(st) ==>
                var b := Allocated(st, size);
                bufPool == old(bufPool) + [b] && emptyQueue == old(emptyQueue) + [b] && ionBuf == b.memBuf
      ensures !Complete(st) ==>
                && unchanged(`bufPool) && unchanged(`emptyQueue)
                && Undone(old(calls), calls)
                && ionBuf == if st.handle.Some? && st.fd.Some? && st.addr.None? then MAP_FAILED else 0
    {
      hide Live, ReleasesLive, OwnedAll, Slots;
      ghost var uses := [];
      var buf: Option<Buffer> := None;
      ionBuf, buf, uses := Stage(size, st);
      AllocAccounted(calls, bufPool, ionFd, st, size);
      if !Complete(st) {
        FailedAllocUndone(calls, st);
      }
      calls := calls + uses;
      if buf.Some? {
        GrowConserves(View(), buf.value);
        emptyQueue := emptyQueue + [buf.value];
        bufPool := bufPool + [buf.value];
      }
    }

    /** The four stages, with the kernel calls they make. */
    static method Stage(size: int, st: Stages) returns (ionBuf: int, buf: Option<Buffer>, ghost uses: seq<Use>)
      ensures uses == AllocUses(st)
      ensures buf == if Complete(st) then Some(Allocated(st, size)) else None
      ensures ionBuf == if Complete(st) then st.addr.value
                        else if st.handle.Some? && st.fd.Some? && st.addr.None? then MAP_FAILED else 0
    {
      ionBuf, buf, uses := 0, None, [];
      if st.handle.None? {
        return;
      }
      var h := Handle(st.handle.value);
      uses := uses + [Acquire(h)];
      if st.fd.None? {
        uses := uses + [Release(h)];
        return;
      }
      var f := Descriptor(st.fd.value);
      uses := uses + [Acquire(f)];
      if st.addr.None? {
        ionBuf := MAP_FAILED;
        uses := uses + [Release(f)];
        uses := uses + [Release(h)];
        return;
      }
      var m := Mapping(st.addr.value);
      uses := uses + [Acquire(m)];
      if st.local.None? {
        uses := uses + [Release(m)];
        uses := uses + [Release(f)];
        uses := uses + [Release(h)];
        return;
      }
      uses := uses + [Acquire(LocalCopy(st.local.value))];
      ionBuf := st.addr.value;
      buf := Some(Buffer(st.handle.value, st.local.value, st.addr.value, size, st.fd.value, 0));
    }

    /** Opens the ION device and tries BUFFER_COUNT allocations; failed ones are skipped. */
    method BufferAlloc(device: int, stages: seq<Stages>)
      requires Valid() && bufPool == emptyQueue == filledQueue == [] && ionFd == -1
      requires |stages| == BUFFER_COUNT
      requires forall i, j | 0 <= i < j < |stages| && stages[i].addr.Some? && stages[j].addr.Some? ::
                 stages[i].addr != stages[j].addr
      modifies `emptyQueue, `bufPool, `calls, `ionFd
      ensures Valid() && emptyQueue == bufPool && ionFd == (if device < 0 then -1 else device)
      ensures bufPool == if device < 0 then [] else AllAllocated(stages, |stages|)
    {
      hide Conserved, Accounted;
      if device < 0 {
        return;
      }
      DeviceAccounted(calls, bufPool, device);
      calls := calls + [Acquire(Descriptor(device))];
      ionFd := device;
      for i := 0 to |stages|
        invariant Valid() && emptyQueue == bufPool && filledQueue == [] && ionFd == device
        invariant bufPool == AllAllocated(stages, i)
        invariant forall k, j | 0 <= k < |bufPool| && i <= j < |stages| :: stages[j].addr != Some(bufPool[k].memBuf)
      {
        var ionBuf := MemBufferAlloc(LPA_BUFFER_SIZE, stages[i]);
      }
    }

    /** Unmaps, closes and frees the first of the buffers still to go. */
    ghost method ReleaseFirst(q: seq<Buffer>)
      requires q != [] && Accounted(calls, q, ionFd)
      modifies `calls
      ensures Accounted(calls, q[1..], ionFd)
      ensures calls + Releases(q[1..]) == old(calls) + Releases(q)
    {
      ReleaseAccounted(calls, q, ionFd);
      assert [q[0]] + q[1..] == q;
      ReleasesConcat([q[0]], q[1..]);
      calls := calls + Releases([q[0]]);
    }

    /** Unmaps, closes and frees every buffer of both queues, empties the pool and closes the ION device. */
    method BufferDeAlloc()
      requires Valid()
      modifies `emptyQueue, `filledQueue, `bufPool, `calls, `ionFd
      ensures emptyQueue == filledQueue == bufPool == [] && ionFd < 0
      ensures calls == old(calls) + Releases(old(emptyQueue + filledQueue))
                       + if old(ionFd) >= 0 then [Release(Descriptor(old(ionFd)))] else []
      ensures ReleasesLive(calls) && forall r :: Live(calls, r) == 0
    {
      hide Conserved, Accounted, ReleasesOf, Live, ReleasesLive, OwnedAll;
      QueuesAccounted(calls, View(), ionFd);
      ghost var all := emptyQueue + filledQueue;
      while emptyQueue != []
        invariant filledQueue == old(filledQueue) && ionFd == old(ionFd)
        invariant Accounted(calls, emptyQueue + filledQueue, ionFd)
        invariant calls + Releases(emptyQueue + filledQueue) == old(calls) + Releases(all)
        decreases |emptyQueue|
      {
        ghost var q := emptyQueue + filledQueue;
        ReleaseFirst(q);
        emptyQueue := emptyQueue[1..];
        assert q[1..] == emptyQueue + filledQueue;
      }
      assert emptyQueue + filledQueue == filledQueue;
      while filledQueue != []
        invariant emptyQueue == [] && ionFd == old(ionFd) && Accounted(calls, filledQueue, ionFd)
        invariant calls + Releases(filledQueue) == old(calls) + Releases(all)
        decreases |filledQueue|
      {
        ReleaseFirst(filledQueue);
        filledQueue := filledQueue[1..];
      }
      while bufPool != []
        invariant emptyQueue == filledQueue == [] && ionFd == old(ionFd) && Accounted(calls, [], ionFd)
        invariant calls == old(calls) + Releases(all)
        decreases |bufPool|
      {
        bufPool := bufPool[1..];
      }
      if ionFd >= 0 {
        DeviceAccounted(calls, [], ionFd);
        calls := calls + [Release(Descriptor(ionFd))];
        ionFd := -1;
      }
      NothingLive(calls, ionFd);
    }

    /* ---------- playback ---------- */

    /** A write, a completion and a flush each run under the lock; each section keeps the object valid. */
    method Write(bytes: nat) returns (outcome: WriteOutcome)
      requires Valid() && WriteDefined(View(), bytes)
      modifies this
      ensures Valid()
      ensures (View(), outcome) == WriteStep(old(View()), bytes)
      ensures unchanged(`calls, `ionFd)
    {
      WriteConserves(View(), bytes);
      hide Conserved, Accounted, WriteStep, WriteDefined;
      outcome := WriteLocked(bytes);
    }

    method WriteDone(addr: int) returns (raised: bool)
      requires Valid()
      modifies this
      ensures Valid()
      ensures (View(), raised) == DoneStep(old(View()), addr)
      ensures unchanged(`calls, `ionFd)
    {
      DoneConserves(View(), addr);
      hide Conserved, Accounted, DoneStep;
      raised := WriteDoneLocked(addr);
    }

    method Flush(pauseOk: bool, flushOk: bool) returns (ok: bool)
      requires Valid()
      modifies this
      ensures Valid()
      ensures (View(), ok) == FlushStep(old(View()), pauseOk, flushOk)
      ensures unchanged(`calls, `ionFd)
    {
      FlushConserves(View(), pauseOk, flushOk);
      hide Conserved, Accounted, FlushStep;
      ok := FlushLocked(pauseOk, flushOk);
    }

    method WriteLocked(bytes: nat) returns (outcome: WriteOutcome)
      requires WriteDefined(View(), bytes)
      modifies this
      ensures (View(), outcome) == WriteStep(old(View()), bytes)
      ensures unchanged(`calls, `ionFd)
    {
      var length := bytes;
      if skipWrite {
        skipWrite := false;
        if bytes < LPA_BUFFER_SIZE {
          length := 0;
        } else {
          return Rejected;
        }
      }
      var buf := emptyQueue[0];
      emptyQueue := emptyQueue[1..];
      buf := buf.(bytesToWrite := length);
      if length == 0 {
        emptyQueue := emptyQueue + [buf];
        reachedEos := true;
        var raised := false;
        if filledQueue == [] && !eosEventReceived {
          eosEventReceived := true;
          raised := true;
        }
        return EndMarked(raised);
      }
      filledQueue := filledQueue + [buf];
      if length < LPA_BUFFER_SIZE {
        reachedEos := true;
      }
      return Accepted(buf, isDriverStarted);
    }

    /** A completion: scans the filled queue for the address and moves its buffer to the free ones. */
    method WriteDoneLocked(addr: int) returns (raised: bool)
      modifies this
      ensures (View(), raised) == DoneStep(old(View()), addr)
      ensures unchanged(`calls, `ionFd)
    {
      raised := false;
      var i := 0;
      while i < |filledQueue|
        invariant i <= |filledQueue| && !raised && View() == old(View())
        invariant calls == old(calls) && ionFd == old(ionFd)
        invariant forall j | 0 <= j < i :: filledQueue[j].memBuf != addr
      {
        if filledQueue[i].memBuf == addr {
          var buf := filledQueue[i];
          filledQueue := filledQueue[..i] + filledQueue[i + 1..];
          emptyQueue := emptyQueue + [buf];
          if filledQueue == [] && reachedEos && generateEos {
            eosEventReceived := true;
            raised := true;
          }
          assert IndexOf(old(filledQueue), addr) == i;
          return;
        }
        i := i + 1;
      }
      assert IndexOf(filledQueue, addr) == |filledQueue|;
    }

    /** Both queues are cleared and every pool buffer becomes free again, in pool order. */
    method RestorePool()
      modifies `emptyQueue, `filledQueue
      ensures emptyQueue == bufPool && filledQueue == []
    {
      emptyQueue := [];
      filledQueue := [];
      for i := 0 to |bufPool|
        invariant emptyQueue == bufPool[..i] && filledQueue == []
      {
        emptyQueue := emptyQueue + [bufPool[i]];
      }
    }

    method FlushLocked(pauseOk: bool, flushOk: bool) returns (ok: bool)
      modifies this
      ensures (View(), ok) == FlushStep(old(View()), pauseOk, flushOk)
      ensures unchanged(`calls, `ionFd)
    {
      RestorePool();
      reachedEos := false;
      if !paused {
        if !eosEventReceived {
          if !pauseOk { return false; }
          skipWrite := true;
          if !flushOk { return false; }
        }
      } else {
        skipWrite := true;
        if !flushOk { return false; }
        if !pauseOk { return false; }
      }
      eosEventReceived := false;
      return true;
    }

    /** The availability query up to any wait: what the client asks in a world with this session. */
    method AskForBuffer(ghost w: World) returns (available: bool)
      requires w.s == View() && Enabled(w, AskBuffer)
      ensures Next(w, AskBuffer) == w.(client := if available then Granted else Waiting(false))
    {
      available := false;
      if emptyQueue == [] {
        return;
      }
      available := true;
    }

    /** The query after the wait. Nothing is rechecked: a positive answer can come with an empty queue. */
    method AfterWait(ghost w: World) returns (available: bool)
      requires Valid() && w.s == View() && w.client.Waiting?
      modifies `skipWrite
      ensures Valid()
      ensures WakeUp(w) == w.(s := View(), client := if available then Granted else Idle)
    {
      SameQueuesConserve(View(), View().(skipWrite := false));
      hide Conserved, Accounted;
      if skipWrite {
        skipWrite := false;
        return false;
      }
      return true;
    }

    method Start(ok: bool)
      requires Valid()
      modifies `paused, `isDriverStarted
      ensures Valid()
      ensures View() == StartStep(old(View()), ok)
    {
      SameQueuesConserve(View(), StartStep(View(), ok));
      hide Conserved, Accounted;
      if paused && isDriverStarted {
        paused := false;
      } else {
        paused := false;
        if ok {
          isDriverStarted := true;
        }
      }
    }
  }
}
