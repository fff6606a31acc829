/**
 The post-processing feature mask that routing, playback start and standby send to the audio DSP.
 The two compressors ADRC and MBADRC exclude each other; a feature needs a device flag and a
 configuration sent before it is enabled.
 */
module PostProcessing {
  import opened BitMasks

  const ADRC: Bit := 0
  const EQ: Bit := 1
  const RX_IIR: Bit := 2
  const MBADRC: Bit := 4

  /** 0xFFFF, and the and-masks that clear one feature. */
  const LOW16: Mask := {0, 1, 2, 3, 4, 5, 6, 7, 8, 9, 10, 11, 12, 13, 14, 15}
  const ADRC_DISABLE: Mask := LOW16 - {ADRC}
  const EQ_DISABLE: Mask := LOW16 - {EQ}
  const RX_IIR_DISABLE: Mask := LOW16 - {RX_IIR}
  const MBADRC_DISABLE: Mask := LOW16 - {MBADRC}

  /** What routing requests: all four features. */
  const ALL_FEATURES: Mask := {ADRC, EQ, RX_IIR, MBADRC}

  const EINVAL := -22
  const EPERM := -1

  /** One parsed filter slot: speaker 0, handset 1, headset 2. */
  datatype Slot = Slot(adrcExists: bool, mbadrcExists: bool,
                       adrcFlag: nat, mbadrcFlag: nat, eqFlag: nat, rxIirFlag: nat)

  datatype Config = Config(inited: bool, slots: seq<Slot>, speaker: int, handset: int, headset: int)

  /** The legacy property, and whether the control device opens and accepts the mask. */
  datatype Env = Env(legacy: bool, ctlOpens: bool, enableOk: bool)

  datatype Call =
    | SetAdrc(d: nat) | SetMbadrc(d: nat) | SetEq(d: nat) | SetRxIir(d: nat)
    | EnableAudpp(mask: Mask)

  predicate WellFormed(c: Config) {
    |c.slots| == 3
  }

  /** Three tests in a row, the last one that matches wins; any other device uses slot 0. */
  function SlotIndex(c: Config, snd: int): (d: nat)
    ensures d < 3
  {
    if snd == c.headset then 2 else if snd == c.handset then 1 else 0
  }

  datatype Outcome = Outcome(mask: Mask, calls: seq<Call>, ret: int)

  /** The compressor branch. With neither filter the and-mask is an or of the two, which clears nothing. */
  function Compressor(s: Slot, d: nat, state: bool, mask: Mask): (Mask, seq<Call>) {
    if s.mbadrcExists && state then
      var m := mask * ADRC_DISABLE;
      if s.mbadrcFlag == 0 && MBADRC in m then (m * MBADRC_DISABLE, [])
      else if MBADRC in m then (m, [SetMbadrc(d)])
      else (m, [])
    else if s.adrcExists && state then
      var m := mask * MBADRC_DISABLE;
      if s.adrcFlag == 0 && ADRC in m then (m * ADRC_DISABLE, [])
      else if ADRC in m then (m, [SetAdrc(d)])
      else (m, [])
    else (mask * (MBADRC_DISABLE + ADRC_DISABLE), [])
  }

  function Equalizer(s: Slot, d: nat, state: bool, mask: Mask): (Mask, seq<Call>) {
    if s.eqFlag == 0 && EQ in mask then (mask * EQ_DISABLE, [])
    else if EQ in mask && state then (mask, [SetEq(d)])
    else (mask, [])
  }

  function RxIir(s: Slot, d: nat, state: bool, mask: Mask): (Mask, seq<Call>) {
    if s.rxIirFlag == 0 && RX_IIR in mask then (mask * RX_IIR_DISABLE, [])
    else if RX_IIR in mask && state then (mask, [SetRxIir(d)])
    else (mask, [])
  }

  function Cleared(mask: Mask): Mask {
    mask * MBADRC_DISABLE * ADRC_DISABLE * EQ_DISABLE * RX_IIR_DISABLE
  }

  /** Whether the call gets as far as sending a mask. */
  predicate Sends(c: Config, snd: int, env: Env) {
    env.legacy && c.inited && snd >= 0 && env.ctlOpens
  }

  /** What is sent on disabling: each feature still set is cleared. */
  function SwitchedOff(mask: Mask): Mask {
    var m1 := if MBADRC in mask then mask * MBADRC_DISABLE else mask;
    var m2 := if ADRC in m1 then m1 * ADRC_DISABLE else m1;
    var m3 := if EQ in m2 then m2 * EQ_DISABLE else m2;
    if RX_IIR in m3 then m3 * RX_IIR_DISABLE else m3
  }

  function PostprocOutcome(c: Config, snd: int, state: bool, mask: Mask, env: Env): Outcome
    requires WellFormed(c)
  {
    if !env.legacy then Outcome(Cleared(mask), [], 0)
    else if !c.inited || snd < 0 then Outcome(Cleared(mask), [], EINVAL)
    else if !env.ctlOpens then Outcome(mask, [], EPERM)
    else
      var d := SlotIndex(c, snd);
      var (m1, calls1) := Compressor(c.slots[d], d, state, mask);
      var (m2, calls2) := Equalizer(c.slots[d], d, state, m1);
      var (m3, calls3) := RxIir(c.slots[d], d, state, m2);
      var m := if state then m3 else SwitchedOff(m3);
      Outcome(m, calls1 + calls2 + calls3 + [EnableAudpp(m)], if env.enableOk then 0 else EPERM)
  }

  /* ---------- one call ---------- */

  /** A feature that is enabled has a flag on the device and a configuration issued before. */
  ghost predicate Configured(s: Slot, d: nat, mask: Mask, before: seq<Call>) {
    && (ADRC in mask ==> s.adrcFlag != 0 && SetAdrc(d) in before)
    && (MBADRC in mask ==> s.mbadrcFlag != 0 && SetMbadrc(d) in before)
    && (EQ in mask ==> s.eqFlag != 0 && SetEq(d) in before)
    && (RX_IIR in mask ==> s.rxIirFlag != 0 && SetRxIir(d) in before)
  }

  ghost predicate SoundEnable(s: Slot, d: nat, requested: Mask, mask: Mask, before: seq<Call>) {
    && !(ADRC in mask && MBADRC in mask)
    && mask <= requested
    && Configured(s, d, mask, before)
  }

  predicate HasCompressor(s: Slot) {
    s.adrcExists || s.mbadrcExists
  }

  lemma CompressorSound(s: Slot, d: nat, mask: Mask)
    requires mask <= LOW16
    ensures var (m, calls) := Compressor(s, d, true, mask);
            && m <= mask && (EQ in m <==> EQ in mask) && (RX_IIR in m <==> RX_IIR in mask)
            && (HasCompressor(s) ==> !(ADRC in m && MBADRC in m))
            && (HasCompressor(s) && ADRC in m ==> s.adrcFlag != 0 && SetAdrc(d) in calls)
            && (HasCompressor(s) && MBADRC in m ==> s.mbadrcFlag != 0 && SetMbadrc(d) in calls)
            && (!HasCompressor(s) ==> m == mask && calls == [])
  {
    assert MBADRC_DISABLE + ADRC_DISABLE == LOW16;
    assert mask * LOW16 == mask;
  }

  /** The equaliser and IIR branches clear what has no flag, configure what stays and leave the compressors alone. */
  lemma FiltersSound(s: Slot, d: nat, mask: Mask)
    requires mask <= LOW16
    ensures var (m2, calls2) := Equalizer(s, d, true, mask);
            var (m3, calls3) := RxIir(s, d, true, m2);
            && m3 <= mask && (ADRC in m3 <==> ADRC in mask) && (MBADRC in m3 <==> MBADRC in mask)
            && (EQ in m3 ==> s.eqFlag != 0 && SetEq(d) in calls2)
            && (RX_IIR in m3 ==> s.rxIirFlag != 0 && SetRxIir(d) in calls3)
  {
  }

  function Parts(s: Slot, d: nat, mask: Mask): (Mask, seq<Call>, seq<Call>, seq<Call>) {
    var (m1, calls1) := Compressor(s, d, true, mask);
    var (m2, calls2) := Equalizer(s, d, true, m1);
    var (m3, calls3) := RxIir(s, d, true, m2);
    (m3, calls1, calls2, calls3)
  }

  /** The three branches one after the other, with the calls of all of them before the mask is sent. */
  lemma PartsSound(s: Slot, d: nat, mask: Mask, before: seq<Call>)
    requires mask <= LOW16
    requires var (m3, calls1, calls2, calls3) := Parts(s, d, mask);
             forall x :: x in before <==> x in calls1 || x in calls2 || x in calls3
    ensures SoundEnable(s, d, mask, Parts(s, d, mask).0, before)
            <==> HasCompressor(s) || (ADRC !in mask && MBADRC !in mask)
  {
    CompressorSound(s, d, mask);
    FiltersSound(s, d, Compressor(s, d, true, mask).0);
    hide Compressor, Equalizer, RxIir;
  }

  lemma Joined(a: seq<Call>, b: seq<Call>, c: seq<Call>)
    ensures forall x :: x in a + b + c <==> x in a || x in b || x in c
  {
  }

  /** The mask sent on enabling is sound exactly when the slot has a compressor filter or none was requested. */
  lemma EnableSoundExactly(c: Config, snd: int, mask: Mask, env: Env)
    requires WellFormed(c) && Sends(c, snd, env) && mask <= LOW16
    ensures var o := PostprocOutcome(c, snd, true, mask, env);
            var d := SlotIndex(c, snd);
            && |o.calls| > 0 && o.calls[|o.calls| - 1] == EnableAudpp(o.mask)
            && (SoundEnable(c.slots[d], d, mask, o.mask, o.calls[..|o.calls| - 1])
                <==> HasCompressor(c.slots[d]) || (ADRC !in mask && MBADRC !in mask))
  {
    var s, d := c.slots[SlotIndex(c, snd)], SlotIndex(c, snd);
    var o := PostprocOutcome(c, snd, true, mask, env);
    var (m3, calls1, calls2, calls3) := Parts(s, d, mask);
    hide Compressor, Equalizer, RxIir, SoundEnable, HasCompressor, LOW16;
    assert o.mask == m3 && o.calls == calls1 + calls2 + calls3 + [EnableAudpp(m3)];
    hide PostprocOutcome, Parts, Sends, SlotIndex;
    assert o.calls[..|o.calls| - 1] == calls1 + calls2 + calls3;
    Joined(calls1, calls2, calls3);
    PartsSound(s, d, mask, calls1 + calls2 + calls3);
  }

  /** The mask sent on disabling has none of the four features. */
  lemma DisableClears(c: Config, snd: int, mask: Mask, env: Env)
    requires WellFormed(c) && Sends(c, snd, env)
    ensures var o := PostprocOutcome(c, snd, false, mask, env);
            && |o.calls| > 0 && o.calls[|o.calls| - 1] == EnableAudpp(o.mask) && o.mask !! ALL_FEATURES
  {
  }

  /* ---------- runs ---------- */

  /** The output stream: in standby or not, its descriptor, and the writes still to come before playback starts. */
  datatype Stream = Stream(standby: bool, fd: int, startCount: nat)

  datatype State = State(mask: Mask, requested: Mask, sndDevice: int, curSndDevice: int, hpcm: bool, lpa: bool,
                         stream: Stream, sent: seq<Sent>)

  /** One mask sent: the slot used, the direction, the mask requested and the one sent, and the calls before it. */
  datatype Sent = Sent(slot: nat, state: bool, requested: Mask, mask: Mask, before: seq<Call>)

  datatype Event =
    | Route(device: int, asksAll: bool, off: Env, on: Env)
    | ForgetDevice
    | Write(fd: int, configured: bool, written: bool, env: Env)
    | Standby(env: Env)
    | OpenLpa
    | CloseLpa

  const OUT_BUFFERS := 2

  const BOOT := State({}, {}, -1, -1, false, false, Stream(true, -1, 0), [])

  /** A stream in standby opens and configures its driver; any failure leaves it without a descriptor. */
  function OpenStream(x: Stream, fd: int, configured: bool): Stream {
    if !x.standby then x
    else if fd < 0 || !configured then x.(fd := -1)
    else Stream(false, fd, OUT_BUFFERS)
  }

  /** The effect of one enable or disable on the mask and the log. */
  function Toggle(c: Config, s: State, state: bool, env: Env): State
    requires WellFormed(c)
  {
    var o := PostprocOutcome(c, s.sndDevice, state, s.mask, env);
    if Sends(c, s.sndDevice, env) then
      var x := Sent(SlotIndex(c, s.sndDevice), state, s.mask, o.mask, o.calls[..|o.calls| - 1]);
      s.(mask := o.mask, sent := s.sent + [x])
    else s.(mask := o.mask)
  }

  /** The write that fills the last buffer starts playback. */
  function CountDown(c: Config, s: State, env: Env): State
    requires WellFormed(c)
  {
    if s.stream.startCount == 0 then s
    else
      var s1 := s.(stream := s.stream.(startCount := s.stream.startCount - 1));
      if s1.stream.startCount > 0 then s1 else Toggle(c, s1.(hpcm := true, mask := s1.requested), true, env)
  }

  /** A stream in standby, or without a descriptor, has nothing to switch off. */
  function Standing(c: Config, s: State, env: Env): State
    requires WellFormed(c)
  {
    var s1 := if s.stream.standby || s.stream.fd < 0 then s
              else if s.lpa then s.(hpcm := false)
              else Toggle(c, s.(hpcm := false), false, env);
    var fd := if s.stream.standby || s.stream.fd < 0 then s.stream.fd else -1;
    s1.(stream := s1.stream.(standby := true, fd := fd))
  }

  function ToggleIfPlaying(c: Config, s: State, state: bool, env: Env): State
    requires WellFormed(c)
  {
    if s.hpcm || s.lpa then Toggle(c, s, state, env) else s
  }

  function Next(c: Config, s: State, e: Event): State
    requires WellFormed(c)
  {
    match e
    case Route(device, asksAll, off, on) =>
      var s1 := if asksAll then s.(requested := ALL_FEATURES) else s;
      if device == -1 || device == s1.curSndDevice then s1
      else
        var s2 := ToggleIfPlaying(c, s1, false, off);
        var s3 := ToggleIfPlaying(c, s2.(sndDevice := device, mask := s2.requested), true, on);
        s3.(curSndDevice := device)
    case ForgetDevice => s.(curSndDevice := -1)
    case Write(fd, configured, written, env) =>
      var s1 := s.(stream := OpenStream(s.stream, fd, configured));
      if s1.stream.standby || !written then s1 else CountDown(c, s1, env)
    case Standby(env) => Standing(c, s, env)
    case OpenLpa => s.(lpa := true)
    case CloseLpa => s.(lpa := false)
  }

  function Run(c: Config, s: State, es: seq<Event>): State
    requires WellFormed(c)
    decreases |es|
  {
    if es == [] then s else Run(c, Next(c, s, es[0]), es[1..])
  }

  /** An enabling mask is sound, a disabling one clear. */
  ghost predicate SentSound(c: Config, x: Sent)
    requires WellFormed(c)
  {
    && x.slot < 3
    && (x.state ==> SoundEnable(c.slots[x.slot], x.slot, x.requested, x.mask, x.before))
    && (!x.state ==> x.mask !! ALL_FEATURES)
  }

  ghost predicate AllSound(c: Config, s: State)
    requires WellFormed(c)
  {
    && (s.requested == {} || s.requested == ALL_FEATURES)
    && s.mask <= LOW16
    && forall i | 0 <= i < |s.sent| :: SentSound(c, s.sent[i])
  }

  /** Every slot that some device selects has a compressor filter. */
  ghost predicate Covered(c: Config)
    requires WellFormed(c)
  {
    forall device: nat :: HasCompressor(c.slots[SlotIndex(c, device)])
  }

  lemma MaskShrinks(c: Config, snd: int, state: bool, mask: Mask, env: Env)
    requires WellFormed(c)
    ensures PostprocOutcome(c, snd, state, mask, env).mask <= mask
  {
  }

  lemma AppendSound(c: Config, s: State, mask: Mask, x: Sent)
    requires WellFormed(c) && AllSound(c, s) && SentSound(c, x) && mask <= LOW16
    ensures AllSound(c, s.(mask := mask, sent := s.sent + [x]))
  {
    hide SentSound, LOW16, ALL_FEATURES;
  }

  lemma ToggleSound(c: Config, s: State, state: bool, env: Env)
    requires WellFormed(c) && Covered(c) && AllSound(c, s)
    ensures AllSound(c, Toggle(c, s, state, env))
  {
    MaskShrinks(c, s.sndDevice, state, s.mask, env);
    var o := PostprocOutcome(c, s.sndDevice, state, s.mask, env);
    if Sends(c, s.sndDevice, env) {
      var d := SlotIndex(c, s.sndDevice);
      if state {
        assert HasCompressor(c.slots[SlotIndex(c, s.sndDevice as nat)]);
        EnableSoundExactly(c, s.sndDevice, s.mask, env);
      } else {
        DisableClears(c, s.sndDevice, s.mask, env);
      }
      hide PostprocOutcome, SoundEnable, HasCompressor, Covered, AllSound;
      AppendSound(c, s, o.mask, Sent(d, state, s.mask, o.mask, o.calls[..|o.calls| - 1]));
    } else {
      hide PostprocOutcome, HasCompressor, Covered, SentSound;
    }
  }

  lemma NextSound(c: Config, s: State, e: Event)
    requires WellFormed(c) && Covered(c) && AllSound(c, s)
    ensures AllSound(c, Next(c, s, e))
  {
    hide Toggle, SentSound, HasCompressor, Covered;
    match e
    case Route(device, asksAll, off, on) =>
      var s1 := if asksAll then s.(requested := ALL_FEATURES) else s;
      if device != -1 && device != s1.curSndDevice {
        ToggleSound(c, s1, false, off);
        ToggleKeeps(c, s1, false, off);
        var s2 := ToggleIfPlaying(c, s1, false, off);
        ToggleSound(c, s2.(sndDevice := device, mask := s2.requested), true, on);
      }
    case Write(fd, configured, written, env) =>
      var s1 := s.(stream := OpenStream(s.stream, fd, configured));
      var s2 := s1.(stream := s1.stream.(startCount := 0));
      ToggleSound(c, s2.(hpcm := true, mask := s2.requested), true, env);
    case Standby(env) => ToggleSound(c, s.(hpcm := false), false, env);
    case _ =>
  }

  lemma ToggleKeeps(c: Config, s: State, state: bool, env: Env)
    requires WellFormed(c)
    ensures Toggle(c, s, state, env).requested == s.requested
  {
  }

  /** With a compressor filter for every slot that a device selects, every mask of every run is sound. */
  lemma {:induction false} RunSound(c: Config, s: State, es: seq<Event>)
    requires WellFormed(c) && Covered(c) && AllSound(c, s)
    ensures AllSound(c, Run(c, s, es))
    decreases |es|
  {
    if es != [] {
      NextSound(c, s, es[0]);
      RunSound(c, Next(c, s, es[0]), es[1..]);
    }
  }

  const FINE := Env(true, true, true)

  /** Route to a device and write until playback starts. */
  function PlayOn(device: int): seq<Event> {
    [Route(device, true, FINE, FINE), Write(0, true, true, FINE), Write(0, true, true, FINE)]
  }

  /** Without one for some reachable slot, routing there and starting playback sends both compressors. */
  lemma MissingFilterSendsBoth(c: Config, device: int)
    requires WellFormed(c) && c.inited && device >= 0 && !HasCompressor(c.slots[SlotIndex(c, device)])
    ensures var s := Run(c, BOOT, PlayOn(device));
            && |s.sent| == 1 && s.sent[0].state && ADRC in s.sent[0].mask && MBADRC in s.sent[0].mask
  {
    var es := PlayOn(device);
    var s1 := Next(c, BOOT, es[0]);
    var s2 := Next(c, s1, es[1]);
    assert es[1..] == [es[1], es[2]] && [es[1], es[2]][1..] == [es[2]] && [es[2]][1..] == [];
    assert s1 == State(ALL_FEATURES, ALL_FEATURES, device, device, false, false, Stream(true, -1, 0), []);
    assert s2 == s1.(stream := Stream(false, 0, 1));
    assert Run(c, BOOT, es) == Run(c, s1, es[1..]) == Run(c, s2, [es[2]]) == Run(c, Next(c, s2, es[2]), []);
    var d := SlotIndex(c, device);
    CompressorSound(c.slots[d], d, ALL_FEATURES);
  }

  /** So the masks of all runs from boot are sound exactly when every selectable slot has a compressor filter. */
  lemma RunsSoundExactly(c: Config)
    requires WellFormed(c) && c.inited
    ensures (forall es :: AllSound(c, Run(c, BOOT, es))) <==> Covered(c)
  {
    if Covered(c) {
      forall es ensures AllSound(c, Run(c, BOOT, es)) {
        RunSound(c, BOOT, es);
      }
    } else {
      var device: nat :| !HasCompressor(c.slots[SlotIndex(c, device)]);
      MissingFilterSendsBoth(c, device);
      var s := Run(c, BOOT, PlayOn(device));
      hide Run, Toggle, HasCompressor, PlayOn;
      assert !SentSound(c, s.sent[0]);
      assert !AllSound(c, s);
    }
  }

  /* ---------- what each step sends ---------- */

  /** On enabling, each filter survives exactly with a flag on the device; of the compressors the multi-band one comes
      first, and without either filter both stay as requested. Each surviving feature that has a filter of its own is
      configured once on the device's slot, and nothing else is. */
  lemma EnabledExactly(s: Slot, d: nat, mask: Mask)
    requires mask <= LOW16
    ensures var (m, calls1, calls2, calls3) := Parts(s, d, mask);
            && (MBADRC in m <==> MBADRC in mask && if s.mbadrcExists then s.mbadrcFlag != 0 else !s.adrcExists)
            && (ADRC in m <==> ADRC in mask && !s.mbadrcExists && (s.adrcExists ==> s.adrcFlag != 0))
            && (EQ in m <==> EQ in mask && s.eqFlag != 0)
            && (RX_IIR in m <==> RX_IIR in mask && s.rxIirFlag != 0)
            && m - ALL_FEATURES == mask - ALL_FEATURES
            && calls1 == (if s.mbadrcExists && MBADRC in m then [SetMbadrc(d)]
                          else if s.adrcExists && ADRC in m then [SetAdrc(d)] else [])
            && calls2 == (if EQ in m then [SetEq(d)] else [])
            && calls3 == (if RX_IIR in m then [SetRxIir(d)] else [])
  {
    assert MBADRC_DISABLE + ADRC_DISABLE == LOW16;
  }

  /** Whether a toggle gets a mask as far as the DSP. */
  lemma ToggleSendsExactly(c: Config, s: State, state: bool, env: Env)
    requires WellFormed(c) && s.mask <= LOW16
    ensures var t := Toggle(c, s, state, env);
            && t == s.(mask := t.mask, sent := t.sent)
            && if env.legacy && c.inited && s.sndDevice >= 0 && env.ctlOpens then
                 |t.sent| == |s.sent| + 1 && t.sent[..|s.sent|] == s.sent
               else
                 && t.sent == s.sent
                 && t.mask == if env.legacy && c.inited && s.sndDevice >= 0 then s.mask else s.mask - ALL_FEATURES
  {
    hide Compressor, Equalizer, RxIir, SwitchedOff, SlotIndex;
  }

  /** The mask sent is the one kept; the headset has slot 2, the handset slot 1 and any other device slot 0. Disabling
      clears the four features and configures nothing; enabling does what its three branches do. */
  lemma SentExactly(c: Config, s: State, state: bool, env: Env)
    requires WellFormed(c) && s.mask <= LOW16 && Sends(c, s.sndDevice, env)
    ensures var t := Toggle(c, s, state, env);
            |t.sent| == |s.sent| + 1
            && var x := t.sent[|s.sent|];
               && x.state == state && x.requested == s.mask && x.mask == t.mask
               && x.slot == (if s.sndDevice == c.headset then 2 else if s.sndDevice == c.handset then 1 else 0)
               && (!state ==> t.mask == s.mask - ALL_FEATURES && x.before == [])
               && (state ==>
                     var (m, calls1, calls2, calls3) := Parts(c.slots[x.slot], x.slot, s.mask);
                     t.mask == m && x.before == calls1 + calls2 + calls3)
  {
    var d := SlotIndex(c, s.sndDevice);
    var o := PostprocOutcome(c, s.sndDevice, state, s.mask, env);
    if state {
      var (m, calls1, calls2, calls3) := Parts(c.slots[d], d, s.mask);
      hide Compressor, Equalizer, RxIir;
      assert o.calls == calls1 + calls2 + calls3 + [EnableAudpp(m)];
      assert o.calls[..|o.calls| - 1] == calls1 + calls2 + calls3;
    } else {
      DisabledExactly(c.slots[d], d, s.mask);
    }
  }

  lemma DisabledExactly(s: Slot, d: nat, mask: Mask)
    requires mask <= LOW16
    ensures var (m1, calls1) := Compressor(s, d, false, mask);
            var (m2, calls2) := Equalizer(s, d, false, m1);
            var (m3, calls3) := RxIir(s, d, false, m2);
            SwitchedOff(m3) == mask - ALL_FEATURES && calls1 + calls2 + calls3 == []
  {
    assert MBADRC_DISABLE + ADRC_DISABLE == LOW16;
  }

  /** The call reports success exactly when the property turns it off, or the mask reached the DSP and was accepted; a
      missing configuration or device is an argument error. */
  lemma ReturnsExactly(c: Config, snd: int, state: bool, mask: Mask, env: Env)
    requires WellFormed(c)
    ensures var ret := PostprocOutcome(c, snd, state, mask, env).ret;
            && (ret == 0 <==> !env.legacy || (c.inited && snd >= 0 && env.ctlOpens && env.enableOk))
            && (ret == -22 <==> env.legacy && (!c.inited || snd < 0))
            && ret in {0, -22, -1}
  {
    hide Compressor, Equalizer, RxIir, SwitchedOff, SlotIndex;
  }

  /** Which device is in use, what is requested and whether the other output plays are what the events say. */
  lemma FlagsExactly(c: Config, s: State, e: Event)
    requires WellFormed(c)
    ensures var t := Next(c, s, e);
            && (t.lpa <==> e.OpenLpa? || (s.lpa && !e.CloseLpa?))
            && t.requested == (if e.Route? && e.asksAll then {0, 1, 2, 4} else s.requested)
            && t.curSndDevice
               == if e.ForgetDevice? then -1 else if e.Route? && e.device != -1 then e.device else s.curSndDevice
  {
    hide PostprocOutcome, Sends, SlotIndex;
  }

  /** Routing to the device in use, or to none, at most widens the request. Another device becomes the one in use with
      the requested mask; while playback is in progress the mask is toggled off there and on here. */
  lemma RouteExactly(c: Config, s: State, device: int, asksAll: bool, off: Env, on: Env)
    requires WellFormed(c)
    ensures var t := Next(c, s, Event.Route(device, asksAll, off, on));
            var s1 := s.(requested := if asksAll then ALL_FEATURES else s.requested);
            var moved := s1.(sndDevice := device, curSndDevice := device, mask := s1.requested);
            if device == -1 || device == s.curSndDevice then t == s1
            else if !s.hpcm && !s.lpa then t == moved
            else t == Toggle(c, moved.(sent := Toggle(c, s1, false, off).sent), true, on)
  {
    hide PostprocOutcome, Sends, SlotIndex;
  }

  /** While playback is in progress, a change of device sends two masks: the old device's without the four features,
      and then, for the new device, what it makes of the request. */
  lemma RouteSends(c: Config, s: State, device: int, asksAll: bool, off: Env, on: Env)
    requires WellFormed(c) && s.mask <= LOW16 && s.requested <= LOW16 && (s.hpcm || s.lpa)
    requires device != -1 && device != s.curSndDevice && Sends(c, s.sndDevice, off) && Sends(c, device, on)
    ensures var t := Next(c, s, Event.Route(device, asksAll, off, on));
            && |t.sent| == |s.sent| + 2
            && var x, y := t.sent[|s.sent|], t.sent[|s.sent| + 1];
               && !x.state && x.slot == SlotIndex(c, s.sndDevice) && x.mask == s.mask - {0, 1, 2, 4}
               && y.state && y.slot == SlotIndex(c, device) && y.mask == t.mask
               && y.requested == t.requested && t.mask == Parts(c.slots[y.slot], y.slot, t.requested).0
  {
    var s1 := s.(requested := if asksAll then ALL_FEATURES else s.requested);
    var disabled := Toggle(c, s1, false, off);
    var moved := s1.(sndDevice := device, curSndDevice := device, mask := s1.requested, sent := disabled.sent);
    RouteExactly(c, s, device, asksAll, off, on);
    SentExactly(c, s1, false, off);
    SentExactly(c, moved, true, on);
    ToggleSendsExactly(c, moved, true, on);
    hide Toggle, Next, Parts, SlotIndex;
    var t := Next(c, s, Event.Route(device, asksAll, off, on));
    assert t.sent[..|disabled.sent|] == disabled.sent;
    assert t.sent[|s.sent|] == disabled.sent[|s.sent|];
  }

  /** A write opens and configures a stream in standby, or leaves it there without a descriptor. */
  lemma WriteOpensExactly(c: Config, s: State, fd: int, configured: bool, written: bool, env: Env)
    requires WellFormed(c)
    ensures var t := Next(c, s, Event.Write(fd, configured, written, env));
            && (t.stream.standby <==> s.stream.standby && (fd < 0 || !configured))
            && t.stream.fd == (if !s.stream.standby then s.stream.fd else if t.stream.standby then -1 else fd)
            && (t.stream.standby ==> t == s.(stream := s.stream.(fd := -1)))
            && var awaited := if s.stream.standby then 2 else s.stream.startCount;
               (!t.stream.standby ==> t.stream.startCount == if written && awaited > 0 then awaited - 1 else awaited)
  {
    hide PostprocOutcome, Sends, SlotIndex;
  }

  /** Only the write that playback still waits for starts it, and enables the requested mask. */
  lemma WriteStartsExactly(c: Config, s: State, fd: int, configured: bool, written: bool, env: Env)
    requires WellFormed(c)
    ensures var t := Next(c, s, Event.Write(fd, configured, written, env));
            if !s.stream.standby && written && s.stream.startCount == 1 then
              t == Toggle(c, s.(stream := s.stream.(startCount := 0), hpcm := true, mask := s.requested), true, env)
            else t == s.(stream := t.stream)
  {
    hide PostprocOutcome, Sends, SlotIndex;
  }

  /** After a standby playback starts with the second write that goes through, and not before. */
  lemma SecondWriteStarts(c: Config, s: State, fd: nat, env: Env)
    requires WellFormed(c) && s.stream.standby && !s.hpcm && s.requested <= LOW16
    ensures var once := Next(c, s, Event.Write(fd, true, true, env));
            var twice := Next(c, once, Event.Write(fd, true, true, env));
            && !once.hpcm && once.sent == s.sent && once.mask == s.mask && twice.hpcm
            && (Sends(c, s.sndDevice, env) ==>
                  |twice.sent| == |s.sent| + 1 && twice.sent[|s.sent|].state
                  && twice.sent[|s.sent|].requested == s.requested)
  {
    var once := Next(c, s, Event.Write(fd, true, true, env));
    WriteStartsExactly(c, s, fd, true, true, env);
    WriteOpensExactly(c, s, fd, true, true, env);
    WriteStartsExactly(c, once, fd, true, true, env);
    hide Toggle, Next, SlotIndex;
    var started := once.(stream := once.stream.(startCount := 0), hpcm := true, mask := once.requested);
    TogglePlays(c, started, true, env);
    if Sends(c, s.sndDevice, env) {
      SentExactly(c, started, true, env);
    }
  }

  lemma TogglePlays(c: Config, s: State, state: bool, env: Env)
    requires WellFormed(c)
    ensures Toggle(c, s, state, env).hpcm == s.hpcm
  {
    hide PostprocOutcome, Sends, SlotIndex;
  }

  /** A standby ends playback on this stream, and disables the mask unless the other output plays; a stream standing by,
      or without a descriptor, has nothing to end. */
  lemma StandbyEndsExactly(c: Config, s: State, env: Env)
    requires WellFormed(c)
    ensures var t := Next(c, s, Event.Standby(env));
            && t.stream.standby && t.stream.startCount == s.stream.startCount
            && if s.stream.standby || s.stream.fd < 0 then t == s.(stream := s.stream.(standby := true))
               else
                 var ended := s.(hpcm := false, stream := Stream(true, -1, s.stream.startCount));
                 t == if s.lpa then ended else Toggle(c, ended, false, env)
  {
    hide Compressor, Equalizer, RxIir, SwitchedOff, SlotIndex;
  }

  /* ---------- the hardware object ---------- */

  /** The post-processing state of the audio hardware and its PCM output stream. */
  class AudioHardware {
    const config: Config
    var featureMask: Mask
    var newFeatureMask: Mask
    var sndDevice: int
    var curSndDevice: int
    var hpcmPlayback: bool
    var lpaPlayback: bool
    var stream: Stream
    ghost var sent: seq<Sent>

    constructor (c: Config)
      ensures config == c && Abstract() == BOOT
    {
      config := c;
      featureMask, newFeatureMask, sndDevice, curSndDevice := {}, {}, -1, -1;
      hpcmPlayback, lpaPlayback, stream, sent := false, false, Stream(true, -1, 0), [];
    }

    ghost function Abstract(): State
      reads this
    {
      State(featureMask, newFeatureMask, sndDevice, curSndDevice, hpcmPlayback, lpaPlayback, stream, sent)
    }

    method ClearFeatures()
      modifies `featureMask
      ensures featureMask == Cleared(old(featureMask)) == old(featureMask) * LOW16 - ALL_FEATURES
    {
      featureMask := featureMask * MBADRC_DISABLE;
      featureMask := featureMask * ADRC_DISABLE;
      featureMask := featureMask * EQ_DISABLE;
      featureMask := featureMask * RX_IIR_DISABLE;
    }

    method ConfigureCompressor(d: nat, state: bool) returns (calls: seq<Call>)
      requires WellFormed(config) && d < 3
      modifies `featureMask
      ensures (featureMask, calls) == Compressor(config.slots[d], d, state, old(featureMask))
    {
      calls := [];
      if config.slots[d].mbadrcExists && state {
        featureMask := featureMask * ADRC_DISABLE;
        if config.slots[d].mbadrcFlag == 0 && MBADRC in featureMask {
          featureMask := featureMask * MBADRC_DISABLE;
        } else if MBADRC in featureMask {
          calls := [SetMbadrc(d)];
        }
      } else if config.slots[d].adrcExists && state {
        featureMask := featureMask * MBADRC_DISABLE;
        if config.slots[d].adrcFlag == 0 && ADRC in featureMask {
          featureMask := featureMask * ADRC_DISABLE;
        } else if ADRC in featureMask {
          calls := [SetAdrc(d)];
        }
      } else {
        featureMask := featureMask * (MBADRC_DISABLE + ADRC_DISABLE);
      }
    }

    method ConfigureFilters(d: nat, state: bool) returns (calls: seq<Call>)
      requires WellFormed(config) && d < 3
      modifies `featureMask
      ensures var (m2, calls2) := Equalizer(config.slots[d], d, state, old(featureMask));
              var (m3, calls3) := RxIir(config.slots[d], d, state, m2);
              featureMask == m3 && calls == calls2 + calls3
    {
      calls := [];
      if config.slots[d].eqFlag == 0 && EQ in featureMask {
        featureMask := featureMask * EQ_DISABLE;
      } else if EQ in featureMask && state {
        calls := calls + [SetEq(d)];
      }
      if config.slots[d].rxIirFlag == 0 && RX_IIR in featureMask {
        featureMask := featureMask * RX_IIR_DISABLE;
      } else if RX_IIR in featureMask && state {
        calls := calls + [SetRxIir(d)];
      }
    }

    method SwitchOffFeatures()
      modifies `featureMask
      ensures featureMask == SwitchedOff(old(featureMask))
    {
      if MBADRC in featureMask { featureMask := featureMask * MBADRC_DISABLE; }
      if ADRC in featureMask { featureMask := featureMask * ADRC_DISABLE; }
      if EQ in featureMask { featureMask := featureMask * EQ_DISABLE; }
      if RX_IIR in featureMask { featureMask := featureMask * RX_IIR_DISABLE; }
    }

    method EnablePostproc(state: bool, env: Env) returns (ret: int)
      requires WellFormed(config)
      modifies `featureMask, `sent
      ensures Abstract() == Toggle(config, old(Abstract()), state, env)
      ensures ret == PostprocOutcome(config, sndDevice, state, old(featureMask), env).ret
    {
      if !env.legacy {
        ClearFeatures();
        return 0;
      }
      if !config.inited || sndDevice < 0 {
        ClearFeatures();
        return EINVAL;
      }
      var d := 0;
      if sndDevice == config.speaker { d := 0; }
      if sndDevice == config.handset { d := 1; }
      if sndDevice == config.headset { d := 2; }
      if !env.ctlOpens {
        return EPERM;
      }
      ret := ConfigureAndSend(d, state, env);
    }

    /** The part after the control device is open. */
    method ConfigureAndSend(d: nat, state: bool, env: Env) returns (ret: int)
      requires WellFormed(config) && Sends(config, sndDevice, env) && d == SlotIndex(config, sndDevice)
      modifies `featureMask, `sent
      ensures Abstract() == Toggle(config, old(Abstract()), state, env)
      ensures ret == PostprocOutcome(config, sndDevice, state, old(featureMask), env).ret
    {
      var calls := ConfigureCompressor(d, state);
      var filters := ConfigureFilters(d, state);
      if !state {
        SwitchOffFeatures();
      }
      ghost var o := PostprocOutcome(config, sndDevice, state, old(featureMask), env);
      hide Compressor, Equalizer, RxIir, SwitchedOff, SlotIndex;
      assert o.calls[..|o.calls| - 1] == calls + filters;
      sent := sent + [Sent(d, state, old(featureMask), featureMask, calls + filters)];
      ret := if env.enableOk then 0 else EPERM;
    }

    method EnableIfPlaying(state: bool, env: Env)
      requires WellFormed(config)
      modifies `featureMask, `sent
      ensures Abstract() == ToggleIfPlaying(config, old(Abstract()), state, env)
    {
      hide Toggle, PostprocOutcome;
      if hpcmPlayback || lpaPlayback {
        var _ := EnablePostproc(state, env);
      }
    }

    /** Routing to a device; the mask of the old one is cleared before the requested mask is applied. */
    method Route(device: int, asksAll: bool, off: Env, on: Env)
      requires WellFormed(config)
      modifies this
      ensures Abstract() == Next(config, old(Abstract()), Event.Route(device, asksAll, off, on))
    {
      hide ToggleIfPlaying;
      if asksAll {
        newFeatureMask := ALL_FEATURES;
      }
      if device != -1 && device != curSndDevice {
        EnableIfPlaying(false, off);
        sndDevice := device;
        featureMask := newFeatureMask;
        EnableIfPlaying(true, on);
        curSndDevice := device;
      }
    }

    /** Opening the driver, writing, and starting playback with the second buffer. */
    method Write(fd: int, configured: bool, written: bool, env: Env)
      requires WellFormed(config)
      modifies this
      ensures Abstract() == Next(config, old(Abstract()), Event.Write(fd, configured, written, env))
    {
      hide Toggle, PostprocOutcome;
      if stream.standby {
        if fd < 0 || !configured {
          stream := stream.(fd := -1);
          return;
        }
        stream := Stream(false, fd, OUT_BUFFERS);
      }
      if !written {
        return;
      }
      if stream.startCount > 0 {
        stream := stream.(startCount := stream.startCount - 1);
        if stream.startCount == 0 {
          hpcmPlayback := true;
          featureMask := newFeatureMask;
          var _ := EnablePostproc(true, env);
        }
      }
    }

    method Standby(env: Env)
      requires WellFormed(config)
      modifies this
      ensures Abstract() == Next(config, old(Abstract()), Event.Standby(env))
    {
      hide Toggle, PostprocOutcome;
      if !stream.standby && stream.fd >= 0 {
        hpcmPlayback := false;
        if !lpaPlayback {
          var _ := EnablePostproc(false, env);
        }
        stream := stream.(fd := -1);
      }
      stream := stream.(standby := true);
    }
  }
}
