/**
 Safety of the LPA playback session over every run: buffer conservation, the hand-off of free
 buffers to the writer, and the discipline of the end-of-stream notification.
 */
module LpaSafety {
  import opened LpaProtocol

  /* ---------- conservation of the pool ---------- */

  /** Free and filled buffers together are exactly the pool's slots, and pool slots have distinct addresses. */
  ghost predicate Conserved(s: Session) {
    && DistinctAddresses(s.pool)
    && multiset(Slots(s.empty)) + multiset(Slots(s.filled)) == multiset(Slots(s.pool))
  }

  lemma SlotsConcat(a: seq<Buffer>, b: seq<Buffer>)
    ensures Slots(a + b) == Slots(a) + Slots(b)
    ensures multiset(Slots(a + b)) == multiset(Slots(a)) + multiset(Slots(b))
  {
    assert Slots(a + b) == Slots(a) + Slots(b);
  }

  /** Moving one buffer from one queue to the end of another keeps the bag of both. */
  lemma MoveSlot(from: seq<Buffer>, i: nat, to: seq<Buffer>, moved: Buffer)
    requires i < |from| && Slot(moved) == Slot(from[i])
    ensures multiset(Slots(from[..i] + from[i + 1..])) + multiset(Slots(to + [moved]))
         == multiset(Slots(from)) + multiset(Slots(to))
  {
    SlotsConcat(from[..i], from[i + 1..]);
    SlotsConcat(from[..i], [from[i]] + from[i + 1..]);
    SlotsConcat([from[i]], from[i + 1..]);
    assert from == from[..i] + ([from[i]] + from[i + 1..]);
    SlotsConcat(to, [moved]);
    assert Slots([moved]) == [Slot(from[i])] == Slots([from[i]]);
  }

  lemma SwapBags<T>(a: multiset<T>, b: multiset<T>, a': multiset<T>, b': multiset<T>)
    requires b' + a' == b + a
    ensures a' + b' == a + b
  {
    assert a' + b' == b' + a' && a + b == b + a;
  }

  /** The flags play no part. */
  lemma SameQueuesConserve(s: Session, s': Session)
    requires Conserved(s) && s'.empty == s.empty && s'.filled == s.filled && s'.pool == s.pool
    ensures Conserved(s')
  {
  }

  /** Moving the first buffer of a queue to its end keeps the bag. */
  lemma RotateSlot(q: seq<Buffer>, moved: Buffer)
    requires q != [] && Slot(moved) == Slot(q[0])
    ensures multiset(Slots(q[1..] + [moved])) == multiset(Slots(q))
  {
    SlotsConcat(q[1..], [moved]);
    SlotsConcat([q[0]], q[1..]);
    assert [q[0]] + q[1..] == q;
    assert Slots([moved]) == Slots([q[0]]);
  }

  lemma WriteConserves(s: Session, bytes: nat)
    requires Conserved(s) && WriteDefined(s, bytes)
    ensures Conserved(WriteStep(s, bytes).0) && WriteStep(s, bytes).0.pool == s.pool
  {
    if !(s.skipWrite && bytes >= LPA_BUFFER_SIZE) {
      var length := if s.skipWrite then 0 else bytes;
      var buf := s.empty[0].(bytesToWrite := length);
      var s' := WriteStep(s, bytes).0;
      if length == 0 {
        RotateSlot(s.empty, buf);
        assert s'.empty == s.empty[1..] + [buf] && s'.filled == s.filled;
      } else {
        MoveSlot(s.empty, 0, s.filled, buf);
        assert s.empty[..0] + s.empty[1..] == s.empty[1..];
        assert s'.empty == s.empty[1..] && s'.filled == s.filled + [buf];
      }
      hide Slots, WriteStep;
    }
  }

  lemma DoneConserves(s: Session, addr: int)
    requires Conserved(s)
    ensures Conserved(DoneStep(s, addr).0) && DoneStep(s, addr).0.pool == s.pool
  {
    var i := IndexOf(s.filled, addr);
    if i < |s.filled| {
      MoveSlot(s.filled, i, s.empty, s.filled[i]);
      var s' := DoneStep(s, addr).0;
      assert s'.filled == s.filled[..i] + s.filled[i + 1..] && s'.empty == s.empty + [s.filled[i]];
      var free, full, free', full' := multiset(Slots(s.empty)), multiset(Slots(s.filled)),
                                      multiset(Slots(s'.empty)), multiset(Slots(s'.filled));
      SwapBags(free, full, free', full');
    }
  }

  lemma FlushConserves(s: Session, pauseOk: bool, flushOk: bool)
    requires Conserved(s)
    ensures Conserved(FlushStep(s, pauseOk, flushOk).0) && FlushStep(s, pauseOk, flushOk).0.pool == s.pool
  {
    assert Slots([]) == [];
  }

  lemma NextConserves(w: World, e: Event)
    requires Conserved(w.s) && Enabled(w, e)
    ensures Conserved(Next(w, e).s) && Next(w, e).s.pool == w.s.pool
  {
    hide Conserved, WriteStep, DoneStep, FlushStep, LogWrite, Posted;
    match e
    case Write(bytes) =>
      WriteConserves(w.s, bytes);
    case Done(addr) =>
      DoneConserves(w.s, addr);
    case Flush(pauseOk, flushOk) =>
      FlushConserves(w.s, pauseOk, flushOk);
    case _ =>
      SameQueuesConserve(w.s, Next(w, e).s);
  }

  /** Over every interleaving the two queues hold each pool buffer exactly once. */
  lemma {:induction false} PoolConserved(w: World, es: seq<Event>)
    requires Conserved(w.s) && ValidRun(w, es)
    ensures Conserved(Run(w, es).s) && Run(w, es).s.pool == w.s.pool
    decreases |es|
  {
    if es != [] {
      NextConserves(w, es[0]);
      PoolConserved(Next(w, es[0]), es[1..]);
    }
  }

  lemma InBag(q: seq<Buffer>, x: Buffer)
    ensures x in multiset(Slots(q)) <==> exists i :: 0 <= i < |q| && Slot(q[i]) == x
  {
    if x in multiset(Slots(q)) {
      var i :| 0 <= i < |Slots(q)| && Slots(q)[i] == x;
      assert Slot(q[i]) == x;
    }
    if i :| 0 <= i < |q| && Slot(q[i]) == x {
      assert Slots(q)[i] == x;
    }
  }

  /** In a sequence with distinct addresses every slot occurs once. */
  lemma {:induction false} SlotOnce(q: seq<Buffer>, x: Buffer)
    requires DistinctAddresses(q)
    ensures multiset(Slots(q))[x] <= 1
  {
    if q != [] {
      SlotOnce(q[1..], x);
      SlotsConcat([q[0]], q[1..]);
      assert [q[0]] + q[1..] == q;
      InBag(q[1..], x);
    }
  }

  /** Two places of the queues that share an address would be one pool slot counted twice. */
  lemma {:induction false} QueuedOnce(s: Session, i: nat, j: nat)
    requires Conserved(s) && i < j < |s.empty + s.filled|
    ensures (s.empty + s.filled)[i].memBuf != (s.empty + s.filled)[j].memBuf
  {
    var q := s.empty + s.filled;
    if q[i].memBuf == q[j].memBuf {
      SlotsConcat(s.empty, s.filled);
      var x, y := Slot(q[i]), Slot(q[j]);
      InBag(q, x);
      InBag(q, y);
      InBag(s.pool, x);
      InBag(s.pool, y);
      var a :| 0 <= a < |s.pool| && Slot(s.pool[a]) == x;
      var b :| 0 <= b < |s.pool| && Slot(s.pool[b]) == y;
      assert a == b;
      assert q == q[..j] + [q[j]] + q[j + 1..];
      SlotsConcat(q[..j] + [q[j]], q[j + 1..]);
      SlotsConcat(q[..j], [q[j]]);
      InBag(q[..j], x);
      assert q[..j][i] == q[i];
      SlotOnce(s.pool, x);
      assert false;
    }
  }

  /** Every address of the pool is in exactly one place of exactly one queue. */
  lemma {:induction false} AddressPlaced(s: Session, k: nat)
    requires Conserved(s) && k < |s.pool|
    ensures (exists i :: 0 <= i < |s.empty| && s.empty[i].memBuf == s.pool[k].memBuf)
         != (exists i :: 0 <= i < |s.filled| && s.filled[i].memBuf == s.pool[k].memBuf)
  {
    var x := Slot(s.pool[k]);
    InBag(s.pool, x);
    InBag(s.empty, x);
    InBag(s.filled, x);
    if x in multiset(Slots(s.empty)) {
      var i :| 0 <= i < |s.empty| && Slot(s.empty[i]) == x;
      assert s.empty[i].memBuf == s.pool[k].memBuf;
    } else {
      var i :| 0 <= i < |s.filled| && Slot(s.filled[i]) == x;
      assert s.filled[i].memBuf == s.pool[k].memBuf;
    }
    forall i, j | 0 <= i < |s.empty| && 0 <= j < |s.filled|
      ensures s.empty[i].memBuf != s.filled[j].memBuf
    {
      assert (s.empty + s.filled)[|s.empty| + j] == s.filled[j];
      QueuedOnce(s, i, |s.empty| + j);
    }
  }

  /* ---------- a free buffer when one was promised ---------- */

  /** No spurious wake-ups, and completions only for addresses of the pool (stale ones included). */
  predicate Regular(s: Session, e: Event) {
    && !e.SpuriousResume?
    && (e.Done? ==> IndexOf(s.pool, e.addr) < |s.pool|)
  }

  predicate RegularRun(s: Session, es: seq<Event>) {
    forall i | 0 <= i < |es| :: Regular(s, es[i])
  }

  ghost predicate HandOff(w: World) {
    && (w.client == Granted ==> w.s.empty != [])
    && (w.client == Waiting(true) ==> w.s.empty != [] || w.s.skipWrite)
    && (w.thread == Posting ==> w.s.empty != [])
    && (w.s.pool == [] ==> w.s.empty == [] && w.s.filled == [] && !w.s.eosReceived)
  }

  /** A completion for a pool address leaves a free buffer: the completed one, or the stale one already there. */
  lemma DoneFrees(s: Session, addr: int)
    requires Conserved(s) && IndexOf(s.pool, addr) < |s.pool|
    ensures DoneStep(s, addr).0.empty != []
  {
    var k := IndexOf(s.pool, addr);
    if IndexOf(s.filled, addr) == |s.filled| {
      AddressPlaced(s, k);
      assert forall i | 0 <= i < |s.filled| :: s.filled[i].memBuf != addr;
    }
  }

  lemma WriteHandsOff(w: World, bytes: nat)
    requires HandOff(w) && Enabled(w, Write(bytes))
    ensures HandOff(NextWrite(w, bytes))
  {
    hide LogWrite;
  }

  lemma DoneHandsOff(w: World, addr: int)
    requires Conserved(w.s) && HandOff(w) && Enabled(w, Done(addr)) && IndexOf(w.s.pool, addr) < |w.s.pool|
    ensures HandOff(NextDone(w, addr))
  {
    DoneFrees(w.s, addr);
    hide Conserved;
  }

  lemma FlushHandsOff(w: World, pauseOk: bool, flushOk: bool)
    requires HandOff(w) && Enabled(w, Flush(pauseOk, flushOk))
    ensures HandOff(NextFlush(w, pauseOk, flushOk))
  {
  }

  lemma NextHandsOff(w: World, e: Event)
    requires Conserved(w.s) && HandOff(w) && Enabled(w, e) && Regular(w.s, e)
    ensures HandOff(Next(w, e))
  {
    hide Conserved, NextWrite, NextDone, NextFlush, Posted;
    match e
    case Write(bytes) => WriteHandsOff(w, bytes);
    case Done(addr) => DoneHandsOff(w, addr);
    case Flush(pauseOk, flushOk) => FlushHandsOff(w, pauseOk, flushOk);
    case _ =>
  }

  /** Whenever the client has been told a buffer is available, its next write has one to dequeue. */
  lemma {:induction false} GrantedWriteDefined(w: World, es: seq<Event>, bytes: nat)
    requires Conserved(w.s) && HandOff(w) && ValidRun(w, es) && RegularRun(w.s, es)
    ensures HandOff(Run(w, es))
    ensures Run(w, es).client == Granted ==> WriteDefined(Run(w, es).s, bytes)
    decreases |es|
  {
    if es != [] {
      NextConserves(w, es[0]);
      NextHandsOff(w, es[0]);
      var w' := Next(w, es[0]);
      assert RegularRun(w'.s, es[1..]) by {
        forall i | 0 <= i < |es[1..]| ensures Regular(w'.s, es[1..][i]) {
          assert es[1..][i] == es[i + 1];
        }
      }
      GrantedWriteDefined(w', es[1..], bytes);
    }
  }

  /** One step of a run. */
  lemma RunOn(w: World, e: Event, es: seq<Event>)
    requires Enabled(w, e)
    ensures ValidRun(w, [e] + es) == ValidRun(Next(w, e), es)
    ensures ValidRun(w, [e] + es) ==> Run(w, [e] + es) == Run(Next(w, e), es)
  {
    assert ([e] + es)[1..] == es;
  }

  /** Two runs after each other. */
  lemma {:induction false} RunJoin(w: World, a: seq<Event>, b: seq<Event>)
    requires ValidRun(w, a)
    ensures ValidRun(w, a + b) == ValidRun(Run(w, a), b)
    ensures ValidRun(w, a + b) ==> Run(w, a + b) == Run(Run(w, a), b)
    decreases |a|
  {
    if a == [] {
      assert a + b == b;
    } else {
      assert (a + b)[1..] == a[1..] + b;
      RunJoin(Next(w, a[0]), a[1..], b);
    }
  }

  /** A spurious wake-up grants only what is there exactly when a buffer is free or a skip is pending. */
  lemma SpuriousGrantsExactly(w: World)
    requires Enabled(w, SpuriousResume)
    ensures var w' := Next(w, SpuriousResume);
            (w'.client == Granted ==> w'.s.empty != []) <==> w.s.empty != [] || w.s.skipWrite
  {
  }

  /** A completion keeps the hand-off exactly when nobody waits, a buffer is free or a skip pending anyway, or the
      address is that of a filled buffer. */
  lemma DoneHandsOffExactly(w: World, addr: int)
    requires HandOff(w) && Enabled(w, Done(addr))
    ensures HandOff(Next(w, Done(addr)))
            <==> !w.client.Waiting? || w.s.empty != [] || w.s.skipWrite || IndexOf(w.s.filled, addr) < |w.s.filled|
  {
  }

  /** Enough full writes to use up `n` free buffers. */
  function Fills(n: nat): seq<Event> {
    if n == 0 then [] else [Write(LPA_BUFFER_SIZE)] + Fills(n - 1)
  }

  predicate Foreign(s: Session, addr: int) {
    && (forall i | 0 <= i < |s.empty| :: s.empty[i].memBuf != addr)
    && (forall i | 0 <= i < |s.filled| :: s.filled[i].memBuf != addr)
  }

  /** A client that may write, and an event thread at rest. */
  predicate Ready(w: World) {
    w.client == Idle && w.thread == Polling && !w.s.skipWrite
  }

  lemma {:induction false} FillsUseAll(w: World, addr: int)
    requires Ready(w)
    ensures ValidRun(w, Fills(|w.s.empty|))
    ensures var w' := Run(w, Fills(|w.s.empty|));
            Ready(w') && w'.s.empty == [] && (Foreign(w.s, addr) ==> Foreign(w'.s, addr))
    decreases |w.s.empty|
  {
    if w.s.empty != [] {
      RunOn(w, Write(LPA_BUFFER_SIZE), Fills(|w.s.empty| - 1));
      FillsUseAll(Next(w, Write(LPA_BUFFER_SIZE)), addr);
    }
  }

  /** Rechecking is needed: whatever the pool, full writes, a wait and a wake-up nobody sent grant a buffer that is
      not there. */
  lemma SpuriousWakeMisgrants(w: World)
    requires Initial(w)
    ensures var es := Fills(|w.s.pool|) + [AskBuffer, SpuriousResume];
            ValidRun(w, es) && Run(w, es).client == Granted && Run(w, es).s.empty == []
  {
    FillsUseAll(w, 0);
    var fills := Fills(|w.s.pool|);
    var w1 := Run(w, fills);
    RunJoin(w, fills, [AskBuffer, SpuriousResume]);
    RunOn(w1, AskBuffer, [SpuriousResume]);
    RunOn(Next(w1, AskBuffer), SpuriousResume, []);
  }

  /** So does a completion for an address that is no buffer of the pool. */
  lemma ForeignDoneMisgrants(w: World, addr: int)
    requires Initial(w) && IndexOf(w.s.pool, addr) == |w.s.pool|
    ensures var es := Fills(|w.s.pool|) + [AskBuffer, Done(addr), ResumeWait];
            ValidRun(w, es) && Run(w, es).client == Granted && Run(w, es).s.empty == []
  {
    FillsUseAll(w, addr);
    var fills := Fills(|w.s.pool|);
    var w1 := Run(w, fills);
    var w2 := Next(w1, AskBuffer);
    RunJoin(w, fills, [AskBuffer, Done(addr), ResumeWait]);
    RunOn(w1, AskBuffer, [Done(addr), ResumeWait]);
    RunOn(w2, Done(addr), [ResumeWait]);
    RunOn(Next(w2, Done(addr)), ResumeWait, []);
  }

  /* ---------- single steps that the runs below take ---------- */

  /** The completion of the only filled buffer. */
  lemma LastDone(s: Session, b: Buffer)
    requires s.filled == [b]
    ensures var raised := s.reachedEos && s.generateEos;
            DoneStep(s, b.memBuf)
            == (s.(filled := [], empty := s.empty + [b], eosReceived := s.eosReceived || raised), raised)
  {
    assert IndexOf(s.filled, b.memBuf) == 0;
    assert s.filled[..0] + s.filled[1..] == [];
  }

  /** The completion of the only filled buffer where the end is reached. */
  lemma LastDoneRaises(w: World, b: Buffer)
    requires w.s.filled == [b] && w.s.reachedEos && w.s.generateEos && w.thread == Polling && w.client == Idle
    ensures Enabled(w, Done(b.memBuf))
    ensures Next(w, Done(b.memBuf))
            == World(w.s.(filled := [], empty := w.s.empty + [b], eosReceived := true), Idle,
                     if w.s.hasObserver then Posting else Polling,
                     w.log.(completed := w.log.completed + multiset{b}, raises := w.log.raises + 1))
  {
    LastDone(w.s, b);
    assert IndexOf(w.s.filled, b.memBuf) == 0;
  }

  /** A short write of data. */
  lemma ShortWrite(w: World, bytes: nat)
    requires Ready(w) && w.s.empty != [] && 0 < bytes < LPA_BUFFER_SIZE
    ensures Enabled(w, Write(bytes))
    ensures var b := w.s.empty[0].(bytesToWrite := bytes);
            Next(w, Write(bytes))
            == w.(s := w.s.(empty := w.s.empty[1..], filled := w.s.filled + [b], reachedEos := true),
                  log := w.log.(ended := true, accepted := w.log.accepted + multiset{b},
                                submitted := w.log.submitted + if w.s.driverStarted then multiset{b} else multiset{}))
  {
  }

  /* ---------- the observer is there when it is posted to ---------- */

  /** Between the test of the observer and the post to it: in a write, or around the unlocked fsync of a completion. */
  predicate AboutToPost(w: World) {
    w.thread == Posting || w.client == Raising
  }

  ghost predicate PostDefined(w: World) {
    AboutToPost(w) ==> w.s.hasObserver
  }

  /** A step leaves the post without its observer exactly when it removes it in between. */
  lemma PostDefinedExactly(w: World, e: Event)
    requires PostDefined(w) && Enabled(w, e)
    ensures PostDefined(Next(w, e)) <==> !(AboutToPost(w) && e == Observe(false))
  {
    hide LogWrite, Posted;
  }

  predicate KeepsObserver(w: World, es: seq<Event>)
    requires ValidRun(w, es)
    decreases |es|
  {
    es == [] || (!(AboutToPost(w) && es[0] == Observe(false)) && KeepsObserver(Next(w, es[0]), es[1..]))
  }

  ghost predicate AlwaysPostDefined(w: World, es: seq<Event>)
    requires ValidRun(w, es)
    decreases |es|
  {
    PostDefined(w) && (es == [] || AlwaysPostDefined(Next(w, es[0]), es[1..]))
  }

  /** So all posts of a run find their observer exactly when it is never removed in between. */
  lemma {:induction false} PostsDefinedExactly(w: World, es: seq<Event>)
    requires PostDefined(w) && ValidRun(w, es)
    ensures AlwaysPostDefined(w, es) <==> KeepsObserver(w, es)
    decreases |es|
  {
    if es != [] {
      PostDefinedExactly(w, es[0]);
      hide PostDefined, Next, Enabled;
      if PostDefined(Next(w, es[0])) {
        PostsDefinedExactly(Next(w, es[0]), es[1..]);
      } else {
        NotDefinedNow(Next(w, es[0]), es[1..]);
      }
    }
  }

  lemma NotDefinedNow(w: World, es: seq<Event>)
    requires !PostDefined(w) && ValidRun(w, es)
    ensures !AlwaysPostDefined(w, es)
  {
  }

  /** From every new session with a buffer, a completion can be left without an observer to post to. */
  lemma CompletionLosesObserver(w: World)
    requires Initial(w) && w.s.pool != []
    ensures var es := [Observe(true), Write(1), Done(w.s.pool[0].memBuf), Observe(false)];
            ValidRun(w, es) && Run(w, es).thread == Posting && !Run(w, es).s.hasObserver
  {
    var b := w.s.pool[0].(bytesToWrite := 1);
    hide NextWrite, NextDone, WriteDefined;
    var w1 := Next(w, Observe(true));
    ShortWrite(w1, 1);
    var w2 := Next(w1, Write(1));
    LastDoneRaises(w2, b);
    var w3 := Next(w2, Done(b.memBuf));
    RunOn(w, Observe(true), [Write(1), Done(b.memBuf), Observe(false)]);
    RunOn(w1, Write(1), [Done(b.memBuf), Observe(false)]);
    RunOn(w2, Done(b.memBuf), [Observe(false)]);
    RunOn(w3, Observe(false), []);
  }

  /** And so can a write that marks the end. */
  lemma WriteLosesObserver(w: World)
    requires Initial(w) && w.s.pool != []
    ensures var es := [Observe(true), Write(0), Observe(false)];
            ValidRun(w, es) && Run(w, es).client == Raising && !Run(w, es).s.hasObserver
  {
    var w1 := Next(w, Observe(true));
    var w2 := Next(w1, Write(0));
    RunOn(w, Observe(true), [Write(0), Observe(false)]);
    RunOn(w1, Write(0), [Observe(false)]);
    RunOn(w2, Observe(false), []);
  }

  /* ---------- end of stream: not early, not lost ---------- */

  /** A reached end with nothing filled has been raised. */
  ghost predicate EosFlagged(s: Session) {
    s.generateEos && s.reachedEos && s.filled == [] ==> s.eosReceived
  }

  ghost predicate PostsPending(w: World) {
    AboutToPost(w) ==> w.s.filled == [] && w.s.eosReceived
  }

  /** Every accepted buffer is completed, flushed or still filled. */
  ghost predicate Balanced(log: Log, filled: seq<Buffer>) {
    log.accepted == log.completed + log.flushed + multiset(filled)
  }

  ghost predicate EosSound(w: World) {
    EosFlagged(w.s) && PostsPending(w) && Balanced(w.log, w.s.filled)
  }

  lemma WriteFlags(s: Session, bytes: nat)
    requires EosFlagged(s) && WriteDefined(s, bytes)
    ensures var (s', outcome) := WriteStep(s, bytes);
            && EosFlagged(s')
            && (outcome == Rejected ==> s'.filled == s.filled && s'.eosReceived == s.eosReceived)
            && (outcome == EndMarked(true) ==> s'.filled == [] && s'.eosReceived)
  {
  }

  lemma DoneFlags(s: Session, addr: int)
    requires EosFlagged(s)
    ensures var (s', raised) := DoneStep(s, addr);
            EosFlagged(s') && (raised ==> s'.filled == [] && s'.eosReceived)
  {
  }

  lemma NextFlags(w: World, e: Event)
    requires EosFlagged(w.s) && PostsPending(w) && Enabled(w, e)
    ensures EosFlagged(Next(w, e).s) && PostsPending(Next(w, e))
    ensures Raises(w, e) || e.PostEos? || e.PostWrite? ==> Next(w, e).s.filled == []
  {
    hide LogWrite, Posted;
    match e
    case Write(bytes) =>
      WriteFlags(w.s, bytes);
      hide EosFlagged, WriteStep;
    case Done(addr) =>
      DoneFlags(w.s, addr);
      hide EosFlagged, DoneStep;
    case _ =>
  }

  lemma TakeOut(q: seq<Buffer>, i: nat)
    requires i < |q|
    ensures multiset(q) == multiset(q[..i] + q[i + 1..]) + multiset{q[i]}
  {
    assert q == q[..i] + [q[i]] + q[i + 1..];
  }

  lemma MoveInBags<T>(accepted: multiset<T>, completed: multiset<T>, flushed: multiset<T>, rest: multiset<T>,
                      one: multiset<T>)
    requires accepted == completed + flushed + (rest + one)
    ensures accepted == (completed + one) + flushed + rest
  {
  }

  lemma DropInBags<T>(accepted: multiset<T>, completed: multiset<T>, flushed: multiset<T>, filled: multiset<T>)
    requires accepted == completed + flushed + filled
    ensures accepted == completed + (flushed + filled) + multiset{}
  {
  }

  lemma AddToBags<T>(accepted: multiset<T>, completed: multiset<T>, flushed: multiset<T>, filled: multiset<T>,
                     one: multiset<T>)
    requires accepted == completed + flushed + filled
    ensures accepted + one == completed + flushed + (filled + one)
  {
  }

  lemma AddedBalanced(log: Log, log': Log, filled: seq<Buffer>, filled': seq<Buffer>, x: Buffer)
    requires Balanced(log, filled) && multiset(filled') == multiset(filled) + multiset{x}
    requires log'.accepted == log.accepted + multiset{x}
    requires log'.completed == log.completed && log'.flushed == log.flushed
    ensures Balanced(log', filled')
  {
    AddToBags(log.accepted, log.completed, log.flushed, multiset(filled), multiset{x});
  }

  lemma SameBalanced(log: Log, log': Log, filled: seq<Buffer>)
    requires Balanced(log, filled)
    requires log'.accepted == log.accepted && log'.completed == log.completed && log'.flushed == log.flushed
    ensures Balanced(log', filled)
  {
  }

  lemma WriteBalanced(w: World, bytes: nat)
    requires Balanced(w.log, w.s.filled) && Enabled(w, Write(bytes))
    ensures Balanced(NextWrite(w, bytes).log, NextWrite(w, bytes).s.filled)
  {
    hide Balanced;
    var outcome := WriteStep(w.s, bytes).1;
    var w' := NextWrite(w, bytes);
    if outcome.Accepted? {
      assert w'.s.filled == w.s.filled + [outcome.buffer];
      hide WriteStep, NextWrite;
      AddedBalanced(w.log, w'.log, w.s.filled, w'.s.filled, outcome.buffer);
    } else {
      SameBalanced(w.log, w'.log, w.s.filled);
    }
  }

  lemma MovedBalanced(log: Log, log': Log, filled: seq<Buffer>, filled': seq<Buffer>, x: Buffer)
    requires Balanced(log, filled) && multiset(filled) == multiset(filled') + multiset{x}
    requires log'.completed == log.completed + multiset{x}
    requires log'.accepted == log.accepted && log'.flushed == log.flushed
    ensures Balanced(log', filled')
  {
    MoveInBags(log.accepted, log.completed, log.flushed, multiset(filled'), multiset{x});
  }

  lemma DoneBalanced(w: World, addr: int)
    requires Balanced(w.log, w.s.filled) && Enabled(w, Done(addr))
    ensures Balanced(NextDone(w, addr).log, NextDone(w, addr).s.filled)
  {
    var i := IndexOf(w.s.filled, addr);
    hide Balanced, IndexOf;
    if i < |w.s.filled| {
      var w' := NextDone(w, addr);
      TakeOut(w.s.filled, i);
      MovedBalanced(w.log, w'.log, w.s.filled, w'.s.filled, w.s.filled[i]);
    }
  }

  lemma FlushBalanced(w: World, pauseOk: bool, flushOk: bool)
    requires Balanced(w.log, w.s.filled) && Enabled(w, Flush(pauseOk, flushOk))
    ensures Balanced(NextFlush(w, pauseOk, flushOk).log, NextFlush(w, pauseOk, flushOk).s.filled)
  {
    DropInBags(w.log.accepted, w.log.completed, w.log.flushed, multiset(w.s.filled));
  }

  lemma NextBalanced(w: World, e: Event)
    requires Balanced(w.log, w.s.filled) && Enabled(w, e)
    ensures Balanced(Next(w, e).log, Next(w, e).s.filled)
  {
    match e
    case Write(bytes) =>
      WriteBalanced(w, bytes);
      hide Balanced, NextWrite;
    case Done(addr) =>
      DoneBalanced(w, addr);
      hide Balanced, NextDone;
    case Flush(pauseOk, flushOk) =>
      FlushBalanced(w, pauseOk, flushOk);
      hide Balanced, NextFlush;
    case _ =>
  }

  lemma NextEosSound(w: World, e: Event)
    requires EosSound(w) && Enabled(w, e)
    ensures EosSound(Next(w, e))
    ensures Raises(w, e) || e.PostEos? || e.PostWrite? ==>
              && Next(w, e).s.filled == []
              && Next(w, e).log.accepted == Next(w, e).log.completed + Next(w, e).log.flushed
  {
    NextFlags(w, e);
    NextBalanced(w, e);
    hide Next, EosFlagged, PostsPending, Raises;
  }

  /** Over every run: end of stream is pending only while buffers are still filled. */
  lemma {:induction false} EosNeverLost(w: World, es: seq<Event>)
    requires EosSound(w) && ValidRun(w, es)
    ensures EosSound(Run(w, es))
    decreases |es|
  {
    if es != [] {
      NextEosSound(w, es[0]);
      EosNeverLost(Next(w, es[0]), es[1..]);
    }
  }

  /** Over every run: when end of stream is raised or posted, every accepted buffer was completed or flushed. */
  lemma {:induction false} EosNeverEarly(w: World, es: seq<Event>, e: Event)
    requires Initial(w) && ValidRun(w, es) && Enabled(Run(w, es), e)
    requires Raises(Run(w, es), e) || e.PostEos? || e.PostWrite?
    ensures var w' := Next(Run(w, es), e);
            w'.s.filled == [] && w'.log.accepted == w'.log.completed + w'.log.flushed
  {
    EosNeverLost(w, es);
    NextEosSound(Run(w, es), e);
  }

  /* ---------- end of stream: at most once ---------- */

  /** No data is accepted while end of stream is received. */
  predicate Quiet(w: World, e: Event)
    requires Enabled(w, e)
  {
    e.Write? && w.s.eosReceived ==> !WriteStep(w.s, e.bytes).1.Accepted?
  }

  predicate QuietRun(w: World, es: seq<Event>)
    requires ValidRun(w, es)
    decreases |es|
  {
    es == [] || (Quiet(w, es[0]) && QuietRun(Next(w, es[0]), es[1..]))
  }

  ghost predicate RaisedOnce(w: World) {
    && w.log.raises <= 1
    && (w.s.eosReceived <==> w.log.raises == 1)
    && (w.s.eosReceived ==> w.s.filled == [])
    && w.log.posts + (if AboutToPost(w) then 1 else 0) <= w.log.raises
    && !(w.thread == Posting && w.client == Raising)
  }

  lemma WriteRaisedOnce(w: World, bytes: nat)
    requires RaisedOnce(w) && Enabled(w, Write(bytes)) && Quiet(w, Write(bytes))
    ensures RaisedOnce(NextWrite(w, bytes))
  {
  }

  lemma DoneRaisedOnce(w: World, addr: int)
    requires RaisedOnce(w) && Enabled(w, Done(addr))
    ensures RaisedOnce(NextDone(w, addr))
  {
  }

  lemma NextRaisedOnce(w: World, e: Event)
    requires RaisedOnce(w) && Enabled(w, e) && Quiet(w, e)
    ensures RaisedOnce(Next(w, e))
  {
    hide NextWrite, NextDone;
    match e
    case Write(bytes) => WriteRaisedOnce(w, bytes);
    case Done(addr) => DoneRaisedOnce(w, addr);
    case _ =>
  }

  /** As long as no data is accepted while end of stream is received, it is raised, and posted, at most once between
      successful flushes. */
  lemma {:induction false} QuietEosAtMostOnce(w: World, es: seq<Event>)
    requires RaisedOnce(w) && ValidRun(w, es) && QuietRun(w, es)
    ensures RaisedOnce(Run(w, es))
    decreases |es|
  {
    if es != [] {
      NextRaisedOnce(w, es[0]);
      QuietEosAtMostOnce(Next(w, es[0]), es[1..]);
    }
  }

  /** That is needed: completing the data of an unquiet write raises it again exactly when the data is a short buffer
      or the end is still reached. */
  lemma UnquietRaisesExactly(w: World, bytes: nat)
    requires RaisedOnce(w) && w.s.generateEos && w.thread == Polling
    requires Enabled(w, Write(bytes)) && !Quiet(w, Write(bytes))
    ensures w.s.empty != []
    ensures var es := [Write(bytes), Done(w.s.empty[0].memBuf)];
            && ValidRun(w, es)
            && Run(w, es).log.raises == if bytes < LPA_BUFFER_SIZE || w.s.reachedEos then 2 else 1
  {
    var done := Done(w.s.empty[0].memBuf);
    RunOn(w, Write(bytes), [done]);
    var w1 := Next(w, Write(bytes));
    LastDone(w1.s, w.s.empty[0].(bytesToWrite := bytes));
    hide DoneStep;
    RunOn(w1, done, []);
  }

  /** A short buffer, written and completed, raises it once. */
  lemma ShortBufferRaises(w: World, bytes: nat)
    requires Initial(w) && w.s.pool != [] && 0 < bytes < LPA_BUFFER_SIZE
    ensures var es := [Write(bytes), Done(w.s.pool[0].memBuf)];
            && ValidRun(w, es)
            && var w' := Run(w, es);
               && RaisedOnce(w') && w'.s.eosReceived && w'.s.generateEos && w'.client == Idle && w'.thread == Polling
               && !w'.s.skipWrite && w'.s.empty == w.s.pool[1..] + [w.s.pool[0].(bytesToWrite := bytes)]
  {
    var b := w.s.pool[0].(bytesToWrite := bytes);
    hide NextWrite, NextDone, WriteDefined;
    ShortWrite(w, bytes);
    var w1 := Next(w, Write(bytes));
    LastDoneRaises(w1, b);
    RunOn(w, Write(bytes), [Done(b.memBuf)]);
    RunOn(w1, Done(b.memBuf), []);
  }

  /** A run from a new session that raises it twice, for every non-empty pool. */
  lemma DataAfterEndRaisesTwice(w: World)
    requires Initial(w) && w.s.pool != []
    ensures var a, b := w.s.pool[0].memBuf, w.s.pool[if |w.s.pool| == 1 then 0 else 1].memBuf;
            var es := [Write(1), Done(a)] + [Write(1), Done(b)];
            ValidRun(w, es) && Run(w, es).log.raises == 2
  {
    var a, b := w.s.pool[0].memBuf, w.s.pool[if |w.s.pool| == 1 then 0 else 1].memBuf;
    ShortBufferRaises(w, 1);
    RunJoin(w, [Write(1), Done(a)], [Write(1), Done(b)]);
    var w2 := Run(w, [Write(1), Done(a)]);
    assert Enabled(w2, Write(1)) && !Quiet(w2, Write(1));
    hide *;
    UnquietRaisesExactly(Run(w, [Write(1), Done(a)]), 1);
  }

  /** A client that sends no data between marking the end and the next successful flush. */
  predicate Disciplined(w: World, e: Event)
    requires Enabled(w, e)
  {
    e.Write? && w.log.ended ==> !WriteStep(w.s, e.bytes).1.Accepted?
  }

  predicate DisciplinedRun(w: World, es: seq<Event>)
    requires ValidRun(w, es)
    decreases |es|
  {
    es == [] || (Disciplined(w, es[0]) && DisciplinedRun(Next(w, es[0]), es[1..]))
  }

  /** The end is reached or received only after the client marked it. */
  ghost predicate EndMarkedFirst(w: World) {
    w.s.reachedEos || w.s.eosReceived ==> w.log.ended
  }

  lemma WriteEndMarkedFirst(w: World, bytes: nat)
    requires EndMarkedFirst(w) && Enabled(w, Write(bytes))
    ensures EndMarkedFirst(NextWrite(w, bytes))
  {
  }

  lemma DoneEndMarkedFirst(w: World, addr: int)
    requires EndMarkedFirst(w) && Enabled(w, Done(addr))
    ensures EndMarkedFirst(NextDone(w, addr))
  {
    hide IndexOf;
  }

  lemma NextEndMarkedFirst(w: World, e: Event)
    requires EndMarkedFirst(w) && Enabled(w, e)
    ensures EndMarkedFirst(Next(w, e))
  {
    hide NextWrite, NextDone;
    match e
    case Write(bytes) => WriteEndMarkedFirst(w, bytes);
    case Done(addr) => DoneEndMarkedFirst(w, addr);
    case _ =>
  }

  lemma {:induction false} DisciplinedIsQuiet(w: World, es: seq<Event>)
    requires EndMarkedFirst(w) && ValidRun(w, es) && DisciplinedRun(w, es)
    ensures QuietRun(w, es)
    decreases |es|
  {
    if es != [] {
      NextEndMarkedFirst(w, es[0]);
      DisciplinedIsQuiet(Next(w, es[0]), es[1..]);
    }
  }

  /** In particular under that discipline. */
  lemma EosAtMostOnce(w: World, es: seq<Event>)
    requires RaisedOnce(w) && EndMarkedFirst(w) && ValidRun(w, es) && DisciplinedRun(w, es)
    ensures RaisedOnce(Run(w, es))
  {
    DisciplinedIsQuiet(w, es);
    QuietEosAtMostOnce(w, es);
  }

  /** A new session meets every invariant above. */
  lemma InitialMeetsAll(w: World)
    requires Initial(w)
    ensures Conserved(w.s) && HandOff(w) && EosSound(w) && RaisedOnce(w) && EndMarkedFirst(w) && PostDefined(w)
  {
    assert Slots(w.s.filled) == [];
  }
}
