/**
 What the steps of the LPA session do, told by its events: the flags as folds over a run, the order in which buffers
 travel, and when the client is granted, woken and rejected.
 */
module LpaLaws {
  import opened LpaProtocol
  import opened LpaSafety

  /* ---------- flags over a run ---------- */

  /** A start that goes well switches the driver on; a suspend that stops it, or a reset, switches it off. */
  function DriverStep(on: bool, e: Event): bool {
    match e
    case Start(ok) => ok || on
    case SuspendStopsDriver => false
    case BeginReset => false
    case _ => on
  }

  function PausedStep(paused: bool, e: Event): bool {
    match e
    case Pause => true
    case Start(_) => false
    case _ => paused
  }

  function ObservedStep(observed: bool, e: Event): bool {
    match e
    case Observe(present) => present
    case _ => observed
  }

  function DriverOn(on: bool, es: seq<Event>): bool
    decreases |es|
  {
    if es == [] then on else DriverOn(DriverStep(on, es[0]), es[1..])
  }

  function PausedAfter(paused: bool, es: seq<Event>): bool
    decreases |es|
  {
    if es == [] then paused else PausedAfter(PausedStep(paused, es[0]), es[1..])
  }

  function ObservedAfter(observed: bool, es: seq<Event>): bool
    decreases |es|
  {
    if es == [] then observed else ObservedAfter(ObservedStep(observed, es[0]), es[1..])
  }

  /** What a completion, a write and a flush leave of a session's flags. */
  lemma DoneFrame(s: Session, addr: int)
    ensures var s' := DoneStep(s, addr).0;
            && s'.driverStarted == s.driverStarted && s'.paused == s.paused && s'.hasObserver == s.hasObserver
            && s'.generateEos == s.generateEos && s'.skipWrite == s.skipWrite
  {
    hide IndexOf;
  }

  lemma WriteFrame(s: Session, bytes: nat)
    requires WriteDefined(s, bytes)
    ensures var s' := WriteStep(s, bytes).0;
            && s'.driverStarted == s.driverStarted && s'.paused == s.paused && s'.hasObserver == s.hasObserver
            && s'.generateEos == s.generateEos && !s'.skipWrite
  {
  }

  lemma FlushFrame(s: Session, pauseOk: bool, flushOk: bool)
    ensures var s' := FlushStep(s, pauseOk, flushOk).0;
            && s'.driverStarted == s.driverStarted && s'.paused == s.paused && s'.hasObserver == s.hasObserver
            && s'.generateEos == s.generateEos
            && s'.skipWrite == (s.skipWrite || s.paused || (!s.eosReceived && pauseOk))
  {
  }

  lemma DoneSession(w: World, addr: int)
    ensures NextDone(w, addr).s == DoneStep(w.s, addr).0
  {
    hide DoneStep, IndexOf;
  }

  lemma NextFlagsOnly(w: World, e: Event)
    requires Enabled(w, e)
    ensures var s, s' := w.s, Next(w, e).s;
            && s'.driverStarted == DriverStep(s.driverStarted, e)
            && s'.paused == PausedStep(s.paused, e)
            && s'.hasObserver == ObservedStep(s.hasObserver, e)
            && s'.generateEos == (s.generateEos && !e.BeginReset?)
  {
    hide LogWrite, Posted, NextDone, DoneStep, WriteStep, FlushStep;
    match e
    case Write(bytes) => WriteFrame(w.s, bytes);
    case Done(addr) =>
      DoneSession(w, addr);
      DoneFrame(w.s, addr);
    case Flush(pauseOk, flushOk) => FlushFrame(w.s, pauseOk, flushOk);
    case _ =>
  }

  /** Driver, pause, observer and end-of-stream generation are what the events of the run say. */
  lemma {:induction false} FlagsAfterRun(w: World, es: seq<Event>)
    requires ValidRun(w, es)
    ensures var s, s' := w.s, Run(w, es).s;
            && s'.driverStarted == DriverOn(s.driverStarted, es)
            && s'.paused == PausedAfter(s.paused, es)
            && s'.hasObserver == ObservedAfter(s.hasObserver, es)
            && s'.generateEos == (s.generateEos && BeginReset !in es)
    decreases |es|
  {
    if es != [] {
      NextFlagsOnly(w, es[0]);
      assert es == [es[0]] + es[1..];
      hide Next, Enabled, DriverStep, PausedStep, ObservedStep;
      FlagsAfterRun(Next(w, es[0]), es[1..]);
    }
  }

  /* ---------- buffers go to the driver ---------- */

  /** In every run, a write of data takes the first free buffer, and hands it to the driver exactly when the events so
      far have left the driver on; with a pending skip or without data it takes and hands over nothing. */
  lemma SubmittedExactly(w: World, es: seq<Event>, bytes: nat)
    requires ValidRun(w, es) && Enabled(Run(w, es), Write(bytes))
    ensures var w1 := Run(w, es);
            var w2 := Next(w1, Write(bytes));
            if w1.s.skipWrite || bytes == 0 then
              w2.s.filled == w1.s.filled && w2.log.accepted == w1.log.accepted && w2.log.submitted == w1.log.submitted
            else
              var b := w1.s.empty[0].(bytesToWrite := bytes);
              && w2.s.filled == w1.s.filled + [b] && w2.s.empty == w1.s.empty[1..]
              && w2.log.accepted == w1.log.accepted + multiset{b}
              && w2.log.submitted == w1.log.submitted
                                     + if DriverOn(w.s.driverStarted, es) then multiset{b} else multiset{}
  {
    FlagsAfterRun(w, es);
    hide DriverOn, Run, ValidRun;
  }

  /** No other step accepts or hands over anything. */
  lemma OnlyWritesSubmit(w: World, e: Event)
    requires Enabled(w, e) && !e.Write?
    ensures Next(w, e).log.accepted == w.log.accepted && Next(w, e).log.submitted == w.log.submitted
  {
    hide WriteStep, DoneStep, FlushStep;
  }

  /** A driver that is never on is handed nothing. */
  lemma {:induction false} NothingSubmittedWhileOff(w: World, es: seq<Event>)
    requires ValidRun(w, es) && !w.s.driverStarted && Start(true) !in es
    ensures Run(w, es).log.submitted == w.log.submitted
    decreases |es|
  {
    if es != [] {
      NextFlagsOnly(w, es[0]);
      if es[0].Write? {
        SubmittedExactly(w, [], es[0].bytes);
      } else {
        OnlyWritesSubmit(w, es[0]);
      }
      hide Next, Enabled;
      NothingSubmittedWhileOff(Next(w, es[0]), es[1..]);
    }
  }

  /* ---------- skipping and flushing ---------- */

  /** When a skip is pending: a stop, a reset and a flush that reaches the driver set it, a write or a wake-up uses it
      up. */
  lemma NextSkipExactly(w: World, e: Event)
    requires Enabled(w, e)
    ensures Next(w, e).s.skipWrite
            <==> match e
                 case Stop => true
                 case BeginReset => true
                 case Write(_) => false
                 case ResumeWait => false
                 case SpuriousResume => false
                 case Flush(pauseOk, _) => w.s.skipWrite || w.s.paused || (!w.s.eosReceived && pauseOk)
                 case _ => w.s.skipWrite
  {
    hide LogWrite, Posted, NextDone, DoneStep, WriteStep, FlushStep;
    match e
    case Write(bytes) => WriteFrame(w.s, bytes);
    case Done(addr) =>
      DoneSession(w, addr);
      DoneFrame(w.s, addr);
    case Flush(pauseOk, flushOk) => FlushFrame(w.s, pauseOk, flushOk);
    case _ =>
  }

  /** A pending skip turns a full write down and nothing else changes; it empties a short one, which marks the end. */
  lemma SkippedWriteExactly(w: World, bytes: nat)
    requires Enabled(w, Write(bytes)) && w.s.skipWrite
    ensures var s' := Next(w, Write(bytes)).s;
            if bytes >= LPA_BUFFER_SIZE then s' == w.s.(skipWrite := false)
            else
              && s'.reachedEos && !s'.skipWrite && s'.filled == w.s.filled
              && s'.empty == w.s.empty[1..] + [w.s.empty[0].(bytesToWrite := 0)]
  {
    hide LogWrite;
  }

  predicate FlushSucceeds(s: Session, pauseOk: bool, flushOk: bool) {
    (!s.paused && s.eosReceived) || (pauseOk && flushOk)
  }

  /** A flush frees the whole pool in its order whatever the driver says; end of stream is forgotten, and the client
      woken, exactly when it succeeds. */
  lemma FlushExactly(w: World, pauseOk: bool, flushOk: bool)
    requires Enabled(w, Flush(pauseOk, flushOk))
    ensures var w' := Next(w, Flush(pauseOk, flushOk));
            && w'.s.empty == w.s.pool && w'.s.filled == [] && !w'.s.reachedEos
            && (w'.s.eosReceived <==> w.s.eosReceived && !FlushSucceeds(w.s, pauseOk, flushOk))
            && w'.log.flushed == w.log.flushed + multiset(w.s.filled)
            && w'.client
               == if FlushSucceeds(w.s, pauseOk, flushOk) && w.client.Waiting? then Waiting(true) else w.client
  {
  }

  /* ---------- granting and waking ---------- */

  /** Who asks is granted at once exactly when a buffer is free, and waits otherwise. */
  lemma AskGrantsExactly(w: World)
    requires Enabled(w, AskBuffer)
    ensures Next(w, AskBuffer) == w.(client := if |w.s.empty| > 0 then Granted else Waiting(false))
  {
  }

  /** A waiting client becomes able to resume exactly by a completion with nothing left to post, the post of one, a
      flush that succeeds, a stop or a reset. */
  lemma SignalledExactly(w: World, e: Event)
    requires Enabled(w, e) && w.client == Waiting(false)
    ensures Next(w, e).client == Waiting(true)
            <==> match e
                 case Done(addr) => !(Raises(w, e) && w.s.hasObserver)
                 case PostEos => true
                 case Flush(pauseOk, flushOk) => FlushSucceeds(w.s, pauseOk, flushOk)
                 case Stop => true
                 case BeginReset => true
                 case _ => false
  {
    hide LogWrite, Posted, IndexOf;
  }

  /** Who resumes is granted exactly when no skip is pending. */
  lemma ResumeGrantsExactly(w: World, e: Event)
    requires Enabled(w, e) && (e.ResumeWait? || e.SpuriousResume?)
    ensures Next(w, e) == w.(s := w.s.(skipWrite := false), client := if w.s.skipWrite then Idle else Granted)
  {
  }

  /** A completion raises end of stream exactly when it takes the last filled buffer of a reached end that is to be
      reported; a write exactly when it marks the end with nothing filled and nothing raised. */
  lemma RaisesExactly(w: World, e: Event)
    requires Enabled(w, e)
    ensures Raises(w, e)
            <==> match e
                 case Done(addr) =>
                   |w.s.filled| == 1 && w.s.filled[0].memBuf == addr && w.s.reachedEos && w.s.generateEos
                 case Write(bytes) =>
                   && |w.s.filled| == 0 && !w.s.eosReceived
                   && (bytes == 0 || (w.s.skipWrite && bytes < LPA_BUFFER_SIZE))
                 case _ => false
  {
  }

  lemma DoneReceives(w: World, addr: int)
    ensures var w', raised := NextDone(w, addr), DoneStep(w.s, addr).1;
            && w'.s.eosReceived == (w.s.eosReceived || raised) && w'.s.reachedEos == w.s.reachedEos
            && w'.log.raises == (if raised then w.log.raises + 1 else w.log.raises) && w'.log.posts == w.log.posts
  {
    hide IndexOf;
  }

  lemma WriteReceives(w: World, bytes: nat)
    requires WriteDefined(w.s, bytes)
    ensures var w', raised := NextWrite(w, bytes), WriteStep(w.s, bytes).1 == EndMarked(true);
            && w'.s.eosReceived == (w.s.eosReceived || raised)
            && w'.log.raises == (if raised then w.log.raises + 1 else w.log.raises) && w'.log.posts == w.log.posts
            && w'.s.reachedEos == (w.s.reachedEos || bytes < LPA_BUFFER_SIZE)
  {
  }

  lemma FlushReceives(w: World, pauseOk: bool, flushOk: bool)
    ensures var w' := NextFlush(w, pauseOk, flushOk);
            if FlushSucceeds(w.s, pauseOk, flushOk) then !w'.s.eosReceived && w'.log.raises == w'.log.posts == 0
            else w'.s.eosReceived == w.s.eosReceived && w'.log.raises == w.log.raises && w'.log.posts == w.log.posts
  {
  }

  /** The end is reached by a short write, with a pending skip or without, and forgotten by a suspend or a flush. */
  lemma ReachedExactly(w: World, e: Event)
    requires Enabled(w, e)
    ensures Next(w, e).s.reachedEos
            <==> match e
                 case Write(bytes) => w.s.reachedEos || bytes < 0x8_0000
                 case SuspendClearsEos => false
                 case Flush(_, _) => false
                 case _ => w.s.reachedEos
  {
    hide LogWrite, Posted, NextDone, NextWrite, FlushSucceeds;
    match e
    case Write(bytes) => WriteReceives(w, bytes);
    case Done(addr) => DoneReceives(w, addr);
    case _ =>
  }

  /** End of stream counts as received from a raise to the next flush that succeeds, and so are raises and posts. */
  lemma ReceivedExactly(w: World, e: Event)
    requires Enabled(w, e)
    ensures var w' := Next(w, e);
            var forgets := e.Flush? && FlushSucceeds(w.s, e.pauseOk, e.flushOk);
            && (w'.s.eosReceived <==> Raises(w, e) || (w.s.eosReceived && !forgets))
            && w'.log.raises == (if forgets then 0 else if Raises(w, e) then w.log.raises + 1 else w.log.raises)
            && w'.log.posts
               == if forgets then 0 else if e.PostEos? || e.PostWrite? then w.log.posts + 1 else w.log.posts
  {
    hide NextDone, NextWrite, NextFlush, DoneStep, WriteStep, FlushSucceeds;
    match e
    case Write(bytes) => WriteReceives(w, bytes);
    case Done(addr) => DoneReceives(w, addr);
    case Flush(pauseOk, flushOk) => FlushReceives(w, pauseOk, flushOk);
    case _ =>
  }

  /** Whoever raises with an observer present posts next: the client inside its write, or the event thread, which also
      takes a suspend through its two halves. */
  lemma PostersExactly(w: World, e: Event)
    requires Enabled(w, e)
    ensures var w' := Next(w, e);
            && (w'.client.Raising?
                <==> (e.Write? && Raises(w, e) && w.s.hasObserver) || (w.client.Raising? && !e.PostWrite?))
            && ((e.Write? && !(Raises(w, e) && w.s.hasObserver)) || e.PostWrite? ==> w'.client == Idle)
            && w'.thread
               == match e
                  case Done(_) => if Raises(w, e) && w.s.hasObserver then Posting else Polling
                  case PostEos => Polling
                  case SuspendSeen => Suspending(false)
                  case SuspendClearsEos => Suspending(true)
                  case SuspendStopsDriver => Polling
                  case _ => w.thread
  {
    hide LogWrite, Posted, IndexOf;
  }

  /* ---------- the order of buffers ---------- */

  function Full(q: seq<Buffer>): seq<Buffer> {
    seq(|q|, i requires 0 <= i < |q| => q[i].(bytesToWrite := LPA_BUFFER_SIZE))
  }

  lemma FullWrite(w: World)
    requires Ready(w) && w.s.empty != []
    ensures Enabled(w, Write(LPA_BUFFER_SIZE))
    ensures var w' := Next(w, Write(LPA_BUFFER_SIZE));
            && Ready(w') && w'.s.empty == w.s.empty[1..]
            && w'.s.filled == w.s.filled + [w.s.empty[0].(bytesToWrite := LPA_BUFFER_SIZE)]
            && w'.s.reachedEos == w.s.reachedEos && w'.log.raises == w.log.raises
  {
  }

  lemma FullPrefix(q: seq<Buffer>, k: nat)
    requires 0 < k <= |q|
    ensures q[1..][k - 1..] == q[k..]
    ensures Full(q[..k]) == [q[0].(bytesToWrite := LPA_BUFFER_SIZE)] + Full(q[1..][..k - 1])
  {
  }

  /** Full writes take the free buffers in order, each to the end of the filled ones, and mark no end. */
  lemma {:induction false} FillsInOrder(w: World, q: seq<Buffer>, k: nat)
    requires Ready(w) && w.s.empty == q && k <= |q|
    ensures ValidRun(w, Fills(k))
    ensures var w' := Run(w, Fills(k));
            && Ready(w') && w'.s.empty == q[k..] && w'.s.filled == w.s.filled + Full(q[..k])
            && w'.s.reachedEos == w.s.reachedEos && w'.log.raises == w.log.raises
    decreases k
  {
    if k == 0 {
      assert q[0..] == q && w.s.filled + Full(q[..0]) == w.s.filled;
    } else {
      FullWrite(w);
      var w1 := Next(w, Write(LPA_BUFFER_SIZE));
      var first := q[0].(bytesToWrite := LPA_BUFFER_SIZE);
      hide Next, Enabled, Run, ValidRun, Ready, Full;
      RunOn(w, Write(LPA_BUFFER_SIZE), Fills(k - 1));
      FillsInOrder(w1, q[1..], k - 1);
      FullPrefix(q, k);
      var rest := Full(q[1..][..k - 1]);
      assert (w.s.filled + [first]) + rest == w.s.filled + ([first] + rest);
    }
  }

  /** The completions of a queue, in order. */
  function Dones(q: seq<Buffer>): seq<Event> {
    if q == [] then [] else [Done(q[0].memBuf)] + Dones(q[1..])
  }

  lemma HeadDone(w: World)
    requires Ready(w) && !w.s.reachedEos && w.s.filled != []
    ensures Enabled(w, Done(w.s.filled[0].memBuf))
    ensures var w' := Next(w, Done(w.s.filled[0].memBuf));
            && Ready(w') && !w'.s.reachedEos && w'.log.raises == w.log.raises
            && w'.s.filled == w.s.filled[1..] && w'.s.empty == w.s.empty + [w.s.filled[0]]
  {
    assert IndexOf(w.s.filled, w.s.filled[0].memBuf) == 0;
    assert w.s.filled[..0] + w.s.filled[1..] == w.s.filled[1..];
  }

  /** Completions in order return the filled buffers in order to the end of the free ones. */
  lemma {:induction false} DonesInOrder(w: World, q: seq<Buffer>)
    requires Ready(w) && !w.s.reachedEos && w.s.filled == q
    ensures ValidRun(w, Dones(q))
    ensures var w' := Run(w, Dones(q));
            Ready(w') && w'.s.filled == [] && w'.s.empty == w.s.empty + q && w'.log.raises == w.log.raises
    decreases |q|
  {
    if q == [] {
      assert w.s.empty + [] == w.s.empty;
    } else {
      HeadDone(w);
      var w1 := Next(w, Done(q[0].memBuf));
      hide Next, Enabled, Run, ValidRun, Ready;
      RunOn(w, Done(q[0].memBuf), Dones(q[1..]));
      DonesInOrder(w1, q[1..]);
      Regroup(w.s.empty, q);
    }
  }

  lemma Regroup(a: seq<Buffer>, q: seq<Buffer>)
    requires q != []
    ensures (a + [q[0]]) + q[1..] == a + q
  {
  }

  /** Filling the pool and having it completed brings every buffer back to its place, and raises nothing. */
  lemma CycleRestoresPool(w: World)
    requires Initial(w)
    ensures var es := Fills(|w.s.pool|) + Dones(Full(w.s.pool));
            && ValidRun(w, es)
            && var w' := Run(w, es);
               w'.s.filled == [] && w'.s.empty == Full(w.s.pool) && Slots(w'.s.empty) == Slots(w.s.pool)
               && w'.log.raises == 0
  {
    var fills, q := Fills(|w.s.pool|), Full(w.s.pool);
    FillsInOrder(w, w.s.empty, |w.s.pool|);
    assert w.s.pool[..|w.s.pool|] == w.s.pool;
    var w1 := Run(w, fills);
    assert w1.s.filled == q && w1.s.empty == [] && !w1.s.reachedEos;
    hide Run, ValidRun, Ready, Initial;
    DonesInOrder(w1, q);
    RunJoin(w, fills, Dones(q));
    assert [] + q == q;
  }

  /** After `k` full writes a new session still grants a buffer exactly when the pool has more. */
  lemma AskAfterFills(w: World, k: nat)
    requires Initial(w) && k <= |w.s.pool|
    ensures var es := Fills(k) + [AskBuffer];
            ValidRun(w, es) && Run(w, es).client == if k < |w.s.pool| then Granted else Waiting(false)
  {
    FillsInOrder(w, w.s.empty, k);
    var w1 := Run(w, Fills(k));
    RunJoin(w, Fills(k), [AskBuffer]);
    RunOn(w1, AskBuffer, []);
  }
}
