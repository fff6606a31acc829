/**
 The low-power-audio (LPA) playback session as a transition system.

 A client thread writes buffers and asks for free ones, a driver event thread
 returns completed buffers, and a control thread pauses, flushes, stops and
 resets the session. Every step below is one critical section of the session's
 lock, or one unlocked flag update. `Session` holds the session's own fields;
 `World` adds what the three threads are doing and a log of what happened.
 */
module LpaProtocol {

  const LPA_BUFFER_SIZE := 512 * 1024

  datatype Buffer = Buffer(
    ionHandle: int, localBuf: int, memBuf: int, memBufsize: int, memFd: int, bytesToWrite: int)

  /** What a buffer is, apart from how much data it currently holds. */
  function Slot(b: Buffer): Buffer {
    b.(bytesToWrite := 0)
  }

  function Slots(q: seq<Buffer>): seq<Buffer> {
    seq(|q|, i requires 0 <= i < |q| => Slot(q[i]))
  }

  predicate DistinctAddresses(q: seq<Buffer>) {
    forall i, j | 0 <= i < j < |q| :: q[i].memBuf != q[j].memBuf
  }

  /** Index of the first buffer mapped at `addr`, or the length when there is none. */
  function IndexOf(q: seq<Buffer>, addr: int): (i: nat)
    ensures i <= |q|
    ensures i < |q| ==> q[i].memBuf == addr
    ensures forall j | 0 <= j < i :: q[j].memBuf != addr
  {
    if q == [] then 0
    else if q[0].memBuf == addr then 0
    else
      var rest := IndexOf(q[1..], addr);
      assert forall j | 0 < j <= rest && j < |q| :: q[1..][j - 1] == q[j];
      1 + rest
  }

  /* ---------- one session ---------- */

  datatype Session = Session(
    empty: seq<Buffer>, filled: seq<Buffer>, pool: seq<Buffer>,
    paused: bool, driverStarted: bool, generateEos: bool,
    reachedEos: bool, skipWrite: bool, eosReceived: bool, hasObserver: bool)

  datatype WriteOutcome =
    | Rejected
    | EndMarked(raised: bool)
    | Accepted(buffer: Buffer, submitted: bool)

  /** A write that is neither rejected nor given a free buffer dereferences the end of a list. */
  predicate WriteDefined(s: Session, bytes: nat) {
    (s.skipWrite && bytes >= LPA_BUFFER_SIZE) || s.empty != []
  }

  function WriteStep(s: Session, bytes: nat): (Session, WriteOutcome)
    requires WriteDefined(s, bytes)
  {
    if s.skipWrite && bytes >= LPA_BUFFER_SIZE then
      (s.(skipWrite := false), Rejected)
    else
      var length := if s.skipWrite then 0 else bytes;
      var buf := s.empty[0].(bytesToWrite := length);
      if length == 0 then
        var raised := s.filled == [] && !s.eosReceived;
        (s.(empty := s.empty[1..] + [buf], skipWrite := false, reachedEos := true,
            eosReceived := s.eosReceived || raised),
         EndMarked(raised))
      else
        (s.(empty := s.empty[1..], filled := s.filled + [buf], skipWrite := false,
            reachedEos := s.reachedEos || length < LPA_BUFFER_SIZE),
         Accepted(buf, s.driverStarted))
  }

  /** WRITE_DONE for `addr`; the flag tells whether end of stream was raised. */
  function DoneStep(s: Session, addr: int): (Session, bool) {
    var i := IndexOf(s.filled, addr);
    if i == |s.filled| then (s, false)
    else
      var filled := s.filled[..i] + s.filled[i + 1..];
      var raised := filled == [] && s.reachedEos && s.generateEos;
      (s.(filled := filled, empty := s.empty + [s.filled[i]], eosReceived := s.eosReceived || raised), raised)
  }

  /** Flush under the given results of the two ioctls; the flag tells whether it succeeded. */
  function FlushStep(s: Session, pauseOk: bool, flushOk: bool): (Session, bool) {
    var cleared := s.(empty := s.pool, filled := [], reachedEos := false);
    if !s.paused && s.eosReceived then (cleared.(eosReceived := false), true)
    else if !s.paused && !pauseOk then (cleared, false)
    else
      var skipping := cleared.(skipWrite := true);
      if flushOk && pauseOk then (skipping.(eosReceived := false), true) else (skipping, false)
  }

  /** A resume of a started driver, or a (re)start whose configuration and start ioctls all went well. */
  function StartStep(s: Session, ok: bool): Session {
    s.(paused := false, driverStarted := s.driverStarted || ok)
  }

  /* ---------- the session among its threads ---------- */

  /**
   The client: idle, blocked for a free buffer (perhaps already signalled), told there is one, or inside a write
   that has tested the observer and is about to post to it.
   */
  datatype Client = Idle | Waiting(signalled: bool) | Granted | Raising

  /** The event thread: polling, inside the unlocked fsync before posting, or honouring a suspend. */
  datatype EventThread = Polling | Posting | Suspending(eosCleared: bool)

  /**
   Buffers accepted from the client, handed to the driver, completed by it and dropped by a flush; whether the
   client has marked the end since the last successful flush; and, since that flush, how often end
   of stream was raised and posted to the observer.
   */
  datatype Log = Log(accepted: multiset<Buffer>, submitted: multiset<Buffer>, completed: multiset<Buffer>,
                     flushed: multiset<Buffer>,
                     ended: bool, raises: nat, posts: nat)

  datatype World = World(s: Session, client: Client, thread: EventThread, log: Log)

  datatype Event =
    | Write(bytes: nat)
    | AskBuffer
    | ResumeWait
    | SpuriousResume
    | Done(addr: int)
    | PostEos
    | PostWrite
    | SuspendSeen
    | SuspendClearsEos
    | SuspendStopsDriver
    | Flush(pauseOk: bool, flushOk: bool)
    | Stop
    | Start(ok: bool)
    | Pause
    | Observe(present: bool)
    | BeginReset

  /**
   `Raising` holds the session's lock and the filled-queue mutex. `Posting` holds that mutex, which writes that reach
   the queues, flushes and completions need. Neither stops a step that takes no lock, and a post dereferences the
   observer.
   */
  predicate Enabled(w: World, e: Event) {
    match e
    case Write(bytes) =>
      && !w.client.Waiting? && !w.client.Raising?
      && WriteDefined(w.s, bytes)
      && (w.thread.Posting? ==> w.s.skipWrite && bytes >= LPA_BUFFER_SIZE)
    case AskBuffer => !w.client.Waiting? && !w.client.Raising?
    case ResumeWait => w.client == Waiting(true)
    case SpuriousResume => w.client == Waiting(false)
    case Done(_) => w.thread.Polling? && !w.client.Raising?
    case PostEos => w.thread.Posting? && w.s.hasObserver && !w.client.Raising?
    case PostWrite => w.client.Raising? && w.s.hasObserver
    case SuspendSeen => w.thread.Polling? && w.s.paused
    case SuspendClearsEos => w.thread == Suspending(false)
    case SuspendStopsDriver => w.thread == Suspending(true)
    case Flush(_, _) => !w.thread.Posting? && !w.client.Raising?
    case Stop => !w.client.Raising?
    case _ => true
  }

  function Signal(c: Client): Client {
    if c.Waiting? then Waiting(true) else c
  }

  /** After the wait, or at once: a pending skip is consumed and reported as no buffer. */
  function WakeUp(w: World): World {
    if w.s.skipWrite then w.(s := w.s.(skipWrite := false), client := Idle) else w.(client := Granted)
  }

  function LogWrite(log: Log, bytes: nat, outcome: WriteOutcome): Log {
    var log' := log.(ended := log.ended || bytes < LPA_BUFFER_SIZE);
    match outcome
    case Rejected => log'
    case EndMarked(raised) => if raised then log'.(raises := log.raises + 1) else log'
    case Accepted(buf, submitted) =>
      log'.(accepted := log.accepted + multiset{buf},
            submitted := if submitted then log.submitted + multiset{buf} else log.submitted)
  }

  function Posted(log: Log): Log {
    log.(posts := log.posts + 1)
  }

  function NextWrite(w: World, bytes: nat): World
    requires WriteDefined(w.s, bytes)
  {
    var (s', outcome) := WriteStep(w.s, bytes);
    World(s', if outcome == EndMarked(true) && w.s.hasObserver then Raising else Idle, w.thread,
          LogWrite(w.log, bytes, outcome))
  }

  function NextDone(w: World, addr: int): World {
    var (s', raised) := DoneStep(w.s, addr);
    var i := IndexOf(w.s.filled, addr);
    var log := if i == |w.s.filled| then w.log
               else w.log.(completed := w.log.completed + multiset{w.s.filled[i]});
    var log' := if raised then log.(raises := log.raises + 1) else log;
    if raised && w.s.hasObserver then World(s', w.client, Posting, log')
    else World(s', Signal(w.client), w.thread, log')
  }

  function NextFlush(w: World, pauseOk: bool, flushOk: bool): World {
    var (s', ok) := FlushStep(w.s, pauseOk, flushOk);
    var log := w.log.(flushed := w.log.flushed + multiset(w.s.filled));
    if ok then World(s', Signal(w.client), w.thread, log.(ended := false, raises := 0, posts := 0))
    else World(s', w.client, w.thread, log)
  }

  function Next(w: World, e: Event): World
    requires Enabled(w, e)
  {
    match e
    case Write(bytes) => NextWrite(w, bytes)
    case AskBuffer => w.(client := if w.s.empty == [] then Waiting(false) else Granted)
    case ResumeWait => WakeUp(w)
    case SpuriousResume => WakeUp(w)
    case Done(addr) => NextDone(w, addr)
    case PostEos => w.(thread := Polling, client := Signal(w.client), log := Posted(w.log))
    case PostWrite => w.(client := Idle, log := Posted(w.log))
    case SuspendSeen => w.(thread := Suspending(false))
    case SuspendClearsEos => w.(s := w.s.(reachedEos := false), thread := Suspending(true))
    case SuspendStopsDriver => w.(s := w.s.(driverStarted := false), thread := Polling)
    case Flush(pauseOk, flushOk) => NextFlush(w, pauseOk, flushOk)
    case Stop => w.(s := w.s.(skipWrite := true), client := Signal(w.client))
    case Start(ok) => w.(s := StartStep(w.s, ok))
    case Pause => w.(s := w.s.(paused := true))
    case Observe(present) => w.(s := w.s.(hasObserver := present))
    case BeginReset =>
      w.(s := w.s.(skipWrite := true, generateEos := false, driverStarted := false), client := Signal(w.client))
  }

  /** Whether step `e` raises end of stream. */
  predicate Raises(w: World, e: Event)
    requires Enabled(w, e)
  {
    match e
    case Write(bytes) => WriteStep(w.s, bytes).1 == EndMarked(true)
    case Done(addr) => DoneStep(w.s, addr).1
    case _ => false
  }

  /* ---------- runs ---------- */

  predicate ValidRun(w: World, es: seq<Event>)
    decreases |es|
  {
    es == [] || (Enabled(w, es[0]) && ValidRun(Next(w, es[0]), es[1..]))
  }

  function Run(w: World, es: seq<Event>): World
    requires ValidRun(w, es)
    decreases |es|
  {
    if es == [] then w else Run(Next(w, es[0]), es[1..])
  }

  const EMPTY_LOG := Log(multiset{}, multiset{}, multiset{}, multiset{}, false, 0, 0)

  /** A session just constructed: every allocated buffer is free and no flag but `generateEos` is set. */
  predicate Initial(w: World) {
    && w.s.empty == w.s.pool && w.s.filled == [] && DistinctAddresses(w.s.pool)
    && !w.s.paused && w.s.generateEos && !w.s.reachedEos && !w.s.skipWrite && !w.s.eosReceived
    && !w.s.hasObserver
    && w.client == Idle && w.thread == Polling && w.log == EMPTY_LOG
  }
}
