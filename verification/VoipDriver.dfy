/**
 The MVS driver shared by one VoIP input stream and one direct output stream (8 kHz PCM).

 The descriptor lives in the hardware object; each stream keeps its own copy of it. Whichever
 stream is first to need the driver opens it, and a stream that stands by closes it only when the
 other is not marked active.
 */
module VoipProtocol {
  import opened Wrappers

  datatype Hardware = Hardware(voipFd: int, inActive: bool, outActive: bool)

  datatype InputState = InputClosed | InputOpened | InputStarted

  datatype Input = Input(fd: int, state: InputState)

  datatype Output = Output(fd: int, standby: bool)

  /** What opening and configuring the driver would yield. */
  datatype Driver = NoDevice | ConfigFails(fd: nat) | Ready(fd: nat)

  function InSet(hw: Hardware, i: Input, d: Driver): (Hardware, Input, bool) {
    if hw.voipFd >= 0 then
      (hw.(inActive := true), Input(hw.voipFd, InputOpened), true)
    else if d.Ready? then
      (Hardware(d.fd, true, hw.outActive), Input(d.fd, InputOpened), true)
    else if d.ConfigFails? || i.fd >= 0 then
      (hw.(voipFd := -1), i.(fd := -1), false)
    else
      (hw, i, false)
  }

  function InRead(hw: Hardware, i: Input, d: Driver): (Hardware, Input, bool) {
    if i.state == InputClosed || hw.voipFd == -1 then
      var (hw', i', ok) := InSet(hw, i, d);
      (hw', if ok then i'.(state := InputStarted) else i', ok)
    else (hw, i, true)
  }

  function InStandby(hw: Hardware, i: Input): (Hardware, Input) {
    if i.state == InputClosed || hw.outActive then (hw.(inActive := false), i)
    else if hw.voipFd >= 0 then (Hardware(-1, false, hw.outActive), Input(-1, InputClosed))
    else (hw.(inActive := false), i.(state := InputClosed))
  }

  function OutWrite(hw: Hardware, o: Output, d: Driver): (Hardware, Output, bool) {
    if !o.standby then (hw, o, true)
    else if hw.voipFd >= 0 then (hw.(outActive := true), Output(hw.voipFd, false), true)
    else if d.Ready? then (Hardware(d.fd, hw.inActive, true), Output(d.fd, false), true)
    else if d.ConfigFails? || o.fd >= 0 then (hw.(voipFd := -1), o.(fd := -1), false)
    else (hw, o, false)
  }

  function OutStandby(hw: Hardware, o: Output): (Hardware, Output) {
    if hw.voipFd >= 0 && !hw.inActive then (Hardware(-1, false, false), Output(-1, true))
    else (hw.(outActive := false), o.(standby := true))
  }

  /* ---------- both streams ---------- */

  datatype System = System(hw: Hardware, input: Option<Input>, output: Option<Output>, outRefs: int)

  datatype Event =
    | OpenInput(d: Driver) | Read(d: Driver) | StandbyInput | CloseInput
    | OpenOutput | Write(d: Driver) | StandbyOutput | CloseOutput

  /** One input at a time; the direct output is shared by reference count. */
  predicate Enabled(s: System, e: Event) {
    match e
    case OpenInput(_) => s.input.None?
    case Read(_) => s.input.Some?
    case StandbyInput => s.input.Some?
    case CloseInput => s.input.Some?
    case OpenOutput => true
    case Write(_) => s.output.Some?
    case StandbyOutput => s.output.Some?
    case CloseOutput => s.output.Some?
  }

  function Next(s: System, e: Event): System
    requires Enabled(s, e)
  {
    match e
    case OpenInput(d) =>
      var (hw, i, ok) := InSet(s.hw, Input(-1, InputClosed), d);
      if ok then s.(hw := hw, input := Some(i))
      else s.(hw := InStandby(hw.(inActive := false), i).0)
    case Read(d) =>
      var (hw, i, _) := InRead(s.hw, s.input.value, d);
      s.(hw := hw, input := Some(i))
    case StandbyInput =>
      var (hw, i) := InStandby(s.hw, s.input.value);
      s.(hw := hw, input := Some(i))
    case CloseInput =>
      s.(hw := InStandby(s.hw.(inActive := false), s.input.value).0, input := None)
    case OpenOutput =>
      if s.output.None? then
        s.(hw := s.hw.(outActive := true), output := Some(Output(-1, true)), outRefs := s.outRefs + 1)
      else s.(outRefs := s.outRefs + 1)
    case Write(d) =>
      var (hw, o, _) := OutWrite(s.hw, s.output.value, d);
      s.(hw := hw, output := Some(o))
    case StandbyOutput =>
      var (hw, o) := OutStandby(s.hw, s.output.value);
      s.(hw := hw, output := Some(o))
    case CloseOutput =>
      if s.outRefs - 1 <= 0 then
        System(OutStandby(s.hw.(outActive := false), s.output.value).0, s.input, None, s.outRefs - 1)
      else s.(outRefs := s.outRefs - 1)
  }

  const BOOT := System(Hardware(-1, false, false), None, None, 0)

  predicate ValidRun(s: System, es: seq<Event>)
    decreases |es|
  {
    es == [] || (Enabled(s, es[0]) && ValidRun(Next(s, es[0]), es[1..]))
  }

  function Run(s: System, es: seq<Event>): System
    requires ValidRun(s, es)
    decreases |es|
  {
    if es == [] then s else Run(Next(s, es[0]), es[1..])
  }

  /* ---------- the shared descriptor over every run ---------- */

  ghost predicate Shared(s: System) {
    && s.hw.voipFd >= -1
    && (s.hw.voipFd >= 0 ==> s.hw.inActive || s.hw.outActive)
    && (s.hw.inActive ==> s.input.Some? && s.input.value.state != InputClosed
                          && s.input.value.fd == s.hw.voipFd >= 0)
    && (s.hw.outActive ==> s.output.Some?)
    && (s.output.Some? && !s.output.value.standby ==> s.hw.outActive && s.output.value.fd == s.hw.voipFd >= 0)
    && s.outRefs >= 0 && (s.output.Some? <==> s.outRefs > 0)
    && (s.input.Some? ==> s.input.value.fd >= -1) && (s.output.Some? ==> s.output.value.fd >= -1)
  }

  lemma NextShared(s: System, e: Event)
    requires Shared(s) && Enabled(s, e)
    ensures Shared(Next(s, e))
  {
  }

  /**
   In every reachable state an open driver has an active direction, an active input and a
   non-standby output hold exactly the shared descriptor, and the output lives as long as its references.
   */
  lemma {:induction false} SharedAlways(s: System, es: seq<Event>)
    requires Shared(s) && ValidRun(s, es)
    ensures Shared(Run(s, es))
    decreases |es|
  {
    if es != [] {
      NextShared(s, es[0]);
      SharedAlways(Next(s, es[0]), es[1..]);
    }
  }

  /** Neither side's standby or close takes the driver from the other while that one is in use. */
  lemma StandbyRespectsPeer(es: seq<Event>, e: Event)
    requires ValidRun(BOOT, es) && Enabled(Run(BOOT, es), e)
    ensures var s := Run(BOOT, es);
            && ((e.StandbyInput? || e.CloseInput?) && s.output.Some? && !s.output.value.standby ==>
                  Next(s, e).hw.voipFd == s.output.value.fd == s.hw.voipFd >= 0)
            && ((e.StandbyOutput? || e.CloseOutput?) && s.hw.inActive ==>
                  s.input.Some? && Next(s, e).hw.voipFd == s.input.value.fd == s.hw.voipFd >= 0)
  {
    SharedAlways(BOOT, es);
  }

  /** Once both directions have stood by, in either order, the driver is closed. */
  lemma BothStandbyCloses(es: seq<Event>)
    requires ValidRun(BOOT, es) && Run(BOOT, es).input.Some? && Run(BOOT, es).output.Some?
    ensures Next(Next(Run(BOOT, es), StandbyInput), StandbyOutput).hw == Hardware(-1, false, false)
    ensures Next(Next(Run(BOOT, es), StandbyOutput), StandbyInput).hw == Hardware(-1, false, false)
  {
    var s := Run(BOOT, es);
    SharedAlways(BOOT, es);
    NextShared(s, StandbyInput);
    NextShared(s, StandbyOutput);
    NextShared(Next(s, StandbyInput), StandbyOutput);
    NextShared(Next(s, StandbyOutput), StandbyInput);
  }

  /** When the input's standby closes the driver, the descriptor it closes is the shared one. */
  lemma InputClosesSharedFd(es: seq<Event>)
    requires ValidRun(BOOT, es) && Run(BOOT, es).input.Some?
    ensures var s := Run(BOOT, es);
            s.hw.voipFd >= 0 && Next(s, StandbyInput).hw.voipFd == -1 ==> s.input.value.fd == s.hw.voipFd
  {
    SharedAlways(BOOT, es);
  }

  /**
   A successful read leaves the input marked active exactly when it was so before or had to set the
   stream up again: an input that stood by while the output kept the driver reads on unmarked.
   */
  lemma ReadMarksActive(es: seq<Event>, d: Driver)
    requires ValidRun(BOOT, es) && Run(BOOT, es).input.Some?
    ensures var s := Run(BOOT, es);
            var (hw, _, ok) := InRead(s.hw, s.input.value, d);
            ok ==> (hw.inActive <==> s.hw.inActive || s.input.value.state == InputClosed || s.hw.voipFd == -1)
  {
    SharedAlways(BOOT, es);
  }

  /** A standby closes an open driver exactly when the other side is not marked active, whether it is in use or not. */
  lemma StandbyClosesExactly(es: seq<Event>)
    requires ValidRun(BOOT, es) && Run(BOOT, es).input.Some? && Run(BOOT, es).output.Some?
    requires Run(BOOT, es).hw.voipFd >= 0
    ensures var s := Run(BOOT, es);
            && (Next(s, StandbyOutput).hw.voipFd == -1 <==> !s.hw.inActive)
            && (Next(s, StandbyInput).hw.voipFd == -1 <==> !s.hw.outActive)
  {
    SharedAlways(BOOT, es);
  }

  /* ---------- what each step does, in every reachable state ---------- */

  /** Which descriptor is shared next: an open one stays, and otherwise the one the driver gives; a standby or a close
      gives it up exactly when the other side is not marked active. */
  lemma DescriptorExactly(es: seq<Event>, e: Event)
    requires ValidRun(BOOT, es) && Enabled(Run(BOOT, es), e)
    ensures var s := Run(BOOT, es);
            Next(s, e).hw.voipFd
            == match e
               case OpenInput(d) => if s.hw.voipFd >= 0 then s.hw.voipFd else if d.Ready? then d.fd else -1
               case Read(d) => if s.hw.voipFd >= 0 then s.hw.voipFd else if d.Ready? then d.fd else -1
               case Write(d) => if s.hw.voipFd >= 0 then s.hw.voipFd else if d.Ready? then d.fd else -1
               case StandbyInput => if s.hw.outActive then s.hw.voipFd else -1
               case CloseInput => if s.hw.outActive then s.hw.voipFd else -1
               case StandbyOutput => if s.hw.inActive then s.hw.voipFd else -1
               case CloseOutput => if s.hw.inActive || s.outRefs > 1 then s.hw.voipFd else -1
               case OpenOutput => s.hw.voipFd
  {
    SharedAlways(BOOT, es);
  }

  /** When each side is marked active. */
  lemma MarksExactly(es: seq<Event>, e: Event)
    requires ValidRun(BOOT, es) && Enabled(Run(BOOT, es), e)
    ensures var s := Run(BOOT, es);
            Next(s, e).hw.inActive
            <==> match e
                 case OpenInput(d) => s.hw.voipFd >= 0 || d.Ready?
                 case Read(d) =>
                   if s.hw.voipFd == -1 then d.Ready? else s.hw.inActive || s.input.value.state == InputClosed
                 case StandbyInput => false
                 case CloseInput => false
                 case _ => s.hw.inActive
    ensures var s := Run(BOOT, es);
            Next(s, e).hw.outActive
            <==> match e
                 case Write(d) => s.hw.outActive || s.hw.voipFd >= 0 || d.Ready?
                 case OpenOutput => s.hw.outActive || s.output.None?
                 case StandbyOutput => false
                 case CloseOutput => s.hw.outActive && s.outRefs > 1
                 case _ => s.hw.outActive
  {
    SharedAlways(BOOT, es);
  }

  /** A write has the driver exactly when the output is not standing by, the driver is open, or it opens and configures;
      then the output is out of standby, marked active and holds the shared descriptor. A failing one leaves the output
      standing by without a descriptor, and the driver closed. */
  lemma WriteSucceedsExactly(es: seq<Event>, d: Driver)
    requires ValidRun(BOOT, es) && Run(BOOT, es).output.Some?
    ensures var s := Run(BOOT, es);
            var (hw, o, ok) := OutWrite(s.hw, s.output.value, d);
            && (ok <==> !s.output.value.standby || s.hw.voipFd >= 0 || d.Ready?)
            && (ok ==> o == Output(hw.voipFd, false) && hw.outActive && hw.voipFd >= 0)
            && (ok && s.hw.voipFd >= 0 ==> hw.voipFd == s.hw.voipFd)
            && (ok && s.hw.voipFd < 0 && d.Ready? ==> hw.voipFd == d.fd)
            && (!ok ==> o == Output(-1, true) && hw == s.hw && hw.voipFd == -1)
            && hw.inActive == s.hw.inActive
            && Next(s, Write(d)) == s.(hw := hw, output := Some(o))
  {
    SharedAlways(BOOT, es);
  }

  /** A read has the driver exactly when it is open, or opens and configures. One that set the stream up leaves it
      started and holding the shared descriptor, any other leaves it as it was; a failing one leaves it without one. */
  lemma ReadSucceedsExactly(es: seq<Event>, d: Driver)
    requires ValidRun(BOOT, es) && Run(BOOT, es).input.Some?
    ensures var s := Run(BOOT, es);
            var (hw, i, ok) := InRead(s.hw, s.input.value, d);
            && (ok <==> s.hw.voipFd >= 0 || d.Ready?)
            && (ok && (s.input.value.state == InputClosed || s.hw.voipFd == -1) ==> i == Input(hw.voipFd, InputStarted))
            && (ok && s.input.value.state != InputClosed && s.hw.voipFd >= 0 ==> i == s.input.value)
            && (!ok ==> i == s.input.value.(fd := -1) && hw == s.hw)
            && hw.outActive == s.hw.outActive
            && Next(s, Read(d)) == s.(hw := hw, input := Some(i))
  {
    SharedAlways(BOOT, es);
  }

  /** So a successful read goes to the shared descriptor exactly when the stream had to be set up or still holds it. */
  lemma ReadUsesSharedExactly(es: seq<Event>, d: Driver)
    requires ValidRun(BOOT, es) && Run(BOOT, es).input.Some?
    ensures var s := Run(BOOT, es);
            var (hw, i, ok) := InRead(s.hw, s.input.value, d);
            ok ==> (i.fd == hw.voipFd
                    <==> s.input.value.state == InputClosed || s.hw.voipFd == -1 || s.input.value.fd == s.hw.voipFd)
  {
    SharedAlways(BOOT, es);
  }

  /** Opening the input succeeds exactly when the driver is open, or opens and configures. */
  lemma OpenInputExactly(es: seq<Event>, d: Driver)
    requires ValidRun(BOOT, es) && Run(BOOT, es).input.None?
    ensures var s := Run(BOOT, es);
            var t := Next(s, OpenInput(d));
            && (t.input.Some? <==> s.hw.voipFd >= 0 || d.Ready?)
            && (t.input.Some? ==> t.input.value == Input(t.hw.voipFd, InputOpened))
            && t.hw.outActive == s.hw.outActive && t.output == s.output && t.outRefs == s.outRefs
  {
    SharedAlways(BOOT, es);
  }

  /** What a standby leaves of its own stream: the input closes unless the output is marked active, the output always
      stands by; the other stream is untouched, and a closed input is gone. */
  lemma StandbyExactly(es: seq<Event>)
    requires ValidRun(BOOT, es)
    ensures var s := Run(BOOT, es);
            && (s.input.Some? ==>
                  var t := Next(s, StandbyInput);
                  && t.output == s.output && t.outRefs == s.outRefs && t.input.Some?
                  && (if s.hw.outActive then t.input == s.input
                      else t.input.value.state == InputClosed
                           && t.input.value.fd == if s.hw.voipFd >= 0 then -1 else s.input.value.fd)
                  && Next(s, CloseInput) == t.(input := None))
            && (s.output.Some? ==>
                  var t := Next(s, StandbyOutput);
                  && t.input == s.input && t.outRefs == s.outRefs && t.output.Some? && t.output.value.standby
                  && t.output.value.fd
                     == if s.hw.voipFd >= 0 && !s.hw.inActive then -1 else s.output.value.fd)
  {
    SharedAlways(BOOT, es);
  }

  /** Opens of the direct output that are not yet closed. */
  function OpenOutputs(n: int, es: seq<Event>): int
    decreases |es|
  {
    if es == [] then n
    else OpenOutputs(if es[0].OpenOutput? then n + 1 else if es[0].CloseOutput? then n - 1 else n, es[1..])
  }

  lemma {:induction false} RefsCount(s: System, es: seq<Event>)
    requires ValidRun(s, es)
    ensures Run(s, es).outRefs == OpenOutputs(s.outRefs, es)
    decreases |es|
  {
    if es != [] {
      RefsCount(Next(s, es[0]), es[1..]);
    }
  }

  /** The direct output exists exactly while there are more opens than closes; opening it again, and closing it before
      the last time, changes nothing else. */
  lemma OutputLivesExactly(es: seq<Event>)
    requires ValidRun(BOOT, es)
    ensures var s := Run(BOOT, es);
            && (s.output.Some? <==> OpenOutputs(0, es) > 0)
            && Next(s, OpenOutput)
               == (if s.output.Some? then s else s.(output := Some(Output(-1, true)), hw := s.hw.(outActive := true)))
                  .(outRefs := s.outRefs + 1)
            && (OpenOutputs(0, es) > 1 ==> Next(s, CloseOutput) == s.(outRefs := s.outRefs - 1))
            && (OpenOutputs(0, es) == 1 ==>
                  Next(s, CloseOutput) == Next(s, StandbyOutput).(outRefs := 0, output := None))
  {
    SharedAlways(BOOT, es);
    RefsCount(BOOT, es);
  }

  lemma RunOn(s: System, e: Event, es: seq<Event>)
    requires Enabled(s, e)
    ensures ValidRun(s, [e] + es) == ValidRun(Next(s, e), es)
    ensures ValidRun(s, [e] + es) ==> Run(s, [e] + es) == Run(Next(s, e), es)
  {
    assert ([e] + es)[1..] == es;
  }

  /** Such an unmarked reader loses the driver to the output's standby. */
  lemma UnmarkedReaderLosesDriver(fd: nat)
    ensures var es := [OpenInput(Ready(fd)), OpenOutput, Write(NoDevice), StandbyInput, Read(NoDevice), StandbyOutput];
            && ValidRun(BOOT, es) && Run(BOOT, es).hw.voipFd == -1
            && Run(BOOT, es).input == Some(Input(fd, InputOpened))
  {
    var s1 := Next(BOOT, OpenInput(Ready(fd)));
    var s2 := Next(s1, OpenOutput);
    var s3 := Next(s2, Write(NoDevice));
    var s4 := Next(s3, StandbyInput);
    var s5 := Next(s4, Read(NoDevice));
    RunOn(BOOT, OpenInput(Ready(fd)), [OpenOutput, Write(NoDevice), StandbyInput, Read(NoDevice), StandbyOutput]);
    RunOn(s1, OpenOutput, [Write(NoDevice), StandbyInput, Read(NoDevice), StandbyOutput]);
    RunOn(s2, Write(NoDevice), [StandbyInput, Read(NoDevice), StandbyOutput]);
    RunOn(s3, StandbyInput, [Read(NoDevice), StandbyOutput]);
    RunOn(s4, Read(NoDevice), [StandbyOutput]);
    RunOn(s5, StandbyOutput, []);
  }

  /** From boot, the first write of a new direct output opens the driver for both. */
  lemma FirstWriteOpens(fd: nat)
    ensures var es := [OpenOutput, Write(Ready(fd))];
            && ValidRun(BOOT, es)
            && Run(BOOT, es) == System(Hardware(fd, false, true), None, Some(Output(fd, false)), 1)
  {
    RunOn(BOOT, OpenOutput, [Write(Ready(fd))]);
    RunOn(Next(BOOT, OpenOutput), Write(Ready(fd)), []);
  }

  /** An input that stood by while the output kept the driver, and did not see it reopened, goes on reading from the
      descriptor that was closed. */
  lemma StaleReader(was: nat, fd: nat)
    ensures var es := [OpenInput(Ready(was)), OpenOutput, Write(NoDevice), StandbyInput, StandbyOutput,
                       Write(Ready(fd)), Read(NoDevice)];
            && ValidRun(BOOT, es) && Run(BOOT, es).hw == Hardware(fd, false, true)
            && Run(BOOT, es).input == Some(Input(was, InputOpened))
  {
    var s1 := Next(BOOT, OpenInput(Ready(was)));
    var s2 := Next(s1, OpenOutput);
    var s3 := Next(s2, Write(NoDevice));
    var s4 := Next(s3, StandbyInput);
    var s5 := Next(s4, StandbyOutput);
    var s6 := Next(s5, Write(Ready(fd)));
    RunOn(BOOT, OpenInput(Ready(was)), [OpenOutput, Write(NoDevice), StandbyInput, StandbyOutput, Write(Ready(fd)),
                                         Read(NoDevice)]);
    RunOn(s1, OpenOutput, [Write(NoDevice), StandbyInput, StandbyOutput, Write(Ready(fd)), Read(NoDevice)]);
    RunOn(s2, Write(NoDevice), [StandbyInput, StandbyOutput, Write(Ready(fd)), Read(NoDevice)]);
    RunOn(s3, StandbyInput, [StandbyOutput, Write(Ready(fd)), Read(NoDevice)]);
    RunOn(s4, StandbyOutput, [Write(Ready(fd)), Read(NoDevice)]);
    RunOn(s5, Write(Ready(fd)), [Read(NoDevice)]);
    RunOn(s6, Read(NoDevice), []);
  }
}

/** The three objects, updated in place. */
module VoipStreams {
  import opened VoipProtocol

  class AudioHardware {
    var voipFd: int
    var voipInActive: bool
    var voipOutActive: bool
    var directOutput: AudioStreamOutDirect?
    var directOutRefCount: int

    ghost function View(): Hardware
      reads this
    {
      Hardware(voipFd, voipInActive, voipOutActive)
    }

    constructor ()
      ensures View() == BOOT.hw && directOutput == null && directOutRefCount == BOOT.outRefs
    {
      voipFd, voipInActive, voipOutActive := -1, false, false;
      directOutput, directOutRefCount := null, 0;
    }

    /** The first request creates the direct output; later ones share it. */
    method OpenDirectOutput() returns (out: AudioStreamOutDirect)
      modifies this
      ensures out == directOutput && directOutRefCount == old(directOutRefCount) + 1 && voipFd == old(voipFd)
      ensures old(directOutput) != null ==> out == old(directOutput) && View() == old(View())
      ensures old(directOutput) == null ==>
                fresh(out) && out.hardware == this && out.View() == Output(-1, true)
                && View() == old(View()).(outActive := true)
    {
      if directOutput == null {
        out := new AudioStreamOutDirect(this);
        directOutput := out;
      } else {
        out := directOutput;
      }
      directOutRefCount := directOutRefCount + 1;
    }

    /** The last reference destroys the output, which stands by on its way out. */
    method CloseDirectOutput()
      requires directOutput != null && directOutput.hardware == this
      modifies this, directOutput
      ensures directOutRefCount == old(directOutRefCount) - 1
      ensures old(directOutRefCount) <= 1 ==>
                directOutput == null
                && View() == OutStandby(old(View()).(outActive := false), old(directOutput.View())).0
      ensures old(directOutRefCount) > 1 ==>
                directOutput == old(directOutput) && View() == old(View()) && unchanged(directOutput)
    {
      directOutRefCount := directOutRefCount - 1;
      if directOutRefCount <= 0 {
        voipOutActive := false;
        directOutput.Standby();
        directOutput := null;
      }
    }
  }

  /** Creates and sets up the input; one that cannot be set up is destroyed, which stands it by. */
  method OpenVoipInput(hardware: AudioHardware, d: Driver) returns (input: AudioStreamInVoip?)
    modifies hardware`voipFd, hardware`voipInActive
    ensures var (hw, i, ok) := InSet(old(hardware.View()), Input(-1, InputClosed), d);
            && (ok <==> input != null)
            && (ok ==> fresh(input) && input.hardware == hardware && input.View() == i && hardware.View() == hw)
            && (!ok ==> hardware.View() == InStandby(hw.(inActive := false), i).0)
  {
    input := new AudioStreamInVoip(hardware);
    var ok := input.Set(d);
    if !ok {
      CloseVoipInput(input);
      input := null;
    }
  }

  /** Destroying an input marks it inactive and stands it by. */
  method CloseVoipInput(input: AudioStreamInVoip)
    modifies input, input.hardware`voipFd, input.hardware`voipInActive
    ensures input.hardware.View() == InStandby(old(input.hardware.View()).(inActive := false), old(input.View())).0
  {
    input.hardware.voipInActive := false;
    input.Standby();
  }

  class AudioStreamInVoip {
    const hardware: AudioHardware
    var fd: int
    var state: InputState

    ghost function View(): Input
      reads this
    {
      Input(fd, state)
    }

    constructor (hardware: AudioHardware)
      ensures this.hardware == hardware && View() == Input(-1, InputClosed)
    {
      this.hardware := hardware;
      fd, state := -1, InputClosed;
    }

    method Set(d: Driver) returns (ok: bool)
      modifies this, hardware`voipFd, hardware`voipInActive
      ensures (hardware.View(), View(), ok) == InSet(old(hardware.View()), old(View()), d)
    {
      ok := true;
      if hardware.voipFd >= 0 {
        fd := hardware.voipFd;
      } else {
        if d.NoDevice? {
          ok := false;
        } else {
          fd := d.fd;
          hardware.voipFd := fd;
          ok := d.Ready?;
        }
        if !ok {
          if fd >= 0 {
            fd := -1;
            hardware.voipFd := -1;
          }
          return;
        }
      }
      state := InputOpened;
      hardware.voipInActive := true;
    }

    /** The part of a read that makes sure the driver is there. */
    method PrepareRead(d: Driver) returns (ok: bool)
      modifies this, hardware`voipFd, hardware`voipInActive
      ensures (hardware.View(), View(), ok) == InRead(old(hardware.View()), old(View()), d)
    {
      ok := true;
      if state == InputClosed || hardware.voipFd == -1 {
        ok := Set(d);
        if !ok {
          return;
        }
        state := InputStarted;
      }
    }

    method Standby()
      modifies this, hardware`voipFd, hardware`voipInActive
      ensures (hardware.View(), View()) == InStandby(old(hardware.View()), old(View()))
    {
      hardware.voipInActive := false;
      if state != InputClosed && !hardware.voipOutActive {
        if hardware.voipFd >= 0 {
          hardware.voipFd := -1;
          fd := -1;
        }
        state := InputClosed;
      }
    }
  }

  class AudioStreamOutDirect {
    const hardware: AudioHardware
    var fd: int
    var standby: bool

    ghost function View(): Output
      reads this
    {
      Output(fd, standby)
    }

    constructor (hardware: AudioHardware)
      modifies hardware`voipOutActive
      ensures this.hardware == hardware && View() == Output(-1, true)
      ensures hardware.View() == old(hardware.View()).(outActive := true)
    {
      this.hardware := hardware;
      fd, standby := -1, true;
      new;
      hardware.voipOutActive := true;
    }

    /** The part of a write that makes sure the driver is there. */
    method PrepareWrite(d: Driver) returns (ok: bool)
      modifies this, hardware`voipFd, hardware`voipOutActive
      ensures (hardware.View(), View(), ok) == OutWrite(old(hardware.View()), old(View()), d)
    {
      ok := true;
      if standby {
        if hardware.voipFd >= 0 {
          fd := hardware.voipFd;
        } else {
          if d.NoDevice? {
            ok := false;
          } else {
            fd := d.fd;
            hardware.voipFd := fd;
            ok := d.Ready?;
          }
          if !ok {
            if fd >= 0 {
              fd := -1;
              hardware.voipFd := -1;
            }
            return;
          }
        }
        hardware.voipOutActive := true;
        standby := false;
      }
    }

    method Standby()
      modifies this, hardware`voipFd, hardware`voipOutActive
      ensures (hardware.View(), View()) == OutStandby(old(hardware.View()), old(View()))
    {
      hardware.voipOutActive := false;
      if hardware.voipFd >= 0 && !hardware.voipInActive {
        hardware.voipFd := -1;
        fd := -1;
      }
      standby := true;
    }
  }
}
