/**
 What single steps of the audio policy do, told by the values in the state and in the event: which statuses a
 connection reports, which profiles open, which outputs survive, and what a get answers.
 */
module PolicyLaws {
  import opened PolicyTypes
  import opened Wrappers
  import opened OutputTable
  import opened PolicyProtocol
  import opened PolicySafety
  import opened DirectOutputs
  import ForceUse

  /* ---------- which profiles open ---------- */

  /** A direct profile of none of the special kinds that had no output has one after opening exactly when the client
      opens one with rates it knows, and with formats that are static, or dynamic and known beside a list of channels:
      with dynamic formats a single channel mask counts as unknown, static or not. */
  lemma DirectOpensExactly(outs: Outputs, primary: Handle, ps: seq<Profile>, replies: Replies, k: nat)
    requires Distinct(ps) && FreshFrom(outs, ps, 0, replies) && k < |ps| && !HasOutput(outs, ps[k])
    requires Direct in ps[k].flags && ps[k].flags !! {Lpa, Tunnel, VoipRx}
    ensures var r := replies(ps[k].id);
            var rates, formats, channels := r.dynamic.rates, r.dynamic.formats, r.dynamic.channels;
            HasOutput(OpenFrom(outs, primary, ps, 0, replies), ps[k])
            <==> r.output != 0 && (rates.first != 0 || rates.others != [])
                 && (formats.first != 0 || (formats.others != [] && channels.others != []))
  {
    OpenFromHas(outs, primary, ps, replies, k);
    hide HasOutput, OpenFrom, FreshFrom, Distinct;
  }

  /** An ordinary one, exactly when the client opens an output and one that duplicates it. */
  lemma OrdinaryOpensExactly(outs: Outputs, primary: Handle, ps: seq<Profile>, replies: Replies, k: nat)
    requires Distinct(ps) && FreshFrom(outs, ps, 0, replies) && k < |ps| && !HasOutput(outs, ps[k])
    requires ps[k].flags !! {Direct, Lpa, Tunnel, VoipRx}
    ensures HasOutput(OpenFrom(outs, primary, ps, 0, replies), ps[k])
            <==> replies(ps[k].id).output != 0 && replies(ps[k].id).duplicate != 0
  {
    OpenFromHas(outs, primary, ps, replies, k);
    hide HasOutput, OpenFrom, FreshFrom, Distinct;
  }

  /** A special one never does. */
  lemma SpecialNeverOpens(outs: Outputs, primary: Handle, ps: seq<Profile>, replies: Replies, k: nat)
    requires Distinct(ps) && FreshFrom(outs, ps, 0, replies) && k < |ps| && !HasOutput(outs, ps[k])
    requires !(ps[k].flags !! {Lpa, Tunnel, VoipRx})
    ensures !HasOutput(OpenFrom(outs, primary, ps, 0, replies), ps[k])
  {
    OpenFromHas(outs, primary, ps, replies, k);
    hide HasOutput, OpenFrom, FreshFrom, Distinct;
  }

  /* ---------- statuses ---------- */

  /** Some profile of a loaded module that supports the device has an output or gets one. */
  ghost predicate Routes(c: Platform, outs: Outputs, d: Device, replies: Replies) {
    exists p :: InLoaded(c.modules, p) && d in p.supported && (HasOutput(outs, p) || Opens(p, replies(p.id)))
  }

  lemma CandidateRoutes(c: Platform, outs: Outputs, d: Device, replies: Replies)
    requires DistinctModules(c.modules) && FreshFor(c, outs, d, replies) && Routed(c, outs, d, replies)
    ensures Routes(c, outs, d, replies)
  {
    var ps := Candidates(c.modules, d);
    CandidatesDistinct(c.modules, d);
    hide HasOutput, OpenFrom, FreshFrom, Opens, InLoaded, DistinctModules, Candidates, Distinct;
    var k :| 0 <= k < |ps| && HasOutput(OpenFrom(outs, c.primary, ps, 0, replies), ps[k]);
    OpenFromHas(outs, c.primary, ps, replies, k);
    CandidatesMean(c.modules, d, ps[k]);
  }

  lemma RouteIsCandidate(c: Platform, outs: Outputs, d: Device, replies: Replies)
    requires DistinctModules(c.modules) && FreshFor(c, outs, d, replies) && Routes(c, outs, d, replies)
    ensures Routed(c, outs, d, replies)
  {
    var ps := Candidates(c.modules, d);
    CandidatesDistinct(c.modules, d);
    hide HasOutput, OpenFrom, FreshFrom, Opens, InLoaded, DistinctModules, Candidates, Distinct;
    var p :| InLoaded(c.modules, p) && d in p.supported && (HasOutput(outs, p) || Opens(p, replies(p.id)));
    CandidatesMean(c.modules, d, p);
    var k :| 0 <= k < |ps| && ps[k] == p;
    OpenFromHas(outs, c.primary, ps, replies, k);
  }

  /** The microphone that a device brings along. */
  function Microphone(d: Device): set<InputDevice> {
    match d
    case WiredHeadset => {InWiredHeadset}
    case BluetoothSco => {InBluetoothScoHeadset}
    case BluetoothScoHeadset => {InBluetoothScoHeadset}
    case BluetoothScoCarkit => {InBluetoothScoHeadset}
    case _ => {}
  }

  /** The platform has the part that drives the device, where it needs one. */
  predicate Present(c: Platform, d: Device) {
    match d
    case BluetoothA2dp => c.hasA2dp
    case BluetoothA2dpHeadphones => c.hasA2dp
    case BluetoothA2dpSpeaker => c.hasA2dp
    case UsbAccessory => c.hasUsb
    case UsbDevice => c.hasUsb
    case RemoteSubmix => c.hasRemoteSubmix
    case _ => true
  }

  lemma PartsMatch(c: Platform, d: Device)
    ensures Supported(c, d) <==> Present(c, d)
    ensures Microphone(d) == if Paired(d).Some? then {Paired(d).value} else {}
  {
  }

  lemma Refused(c: Platform, s: Policy, d: Device, fits: bool, conn: Connection, analog: bool, replies: Replies)
    requires !fits || !Supported(c, d)
    ensures SetDeviceConnectionState(c, s, Output(d), fits, conn, analog, replies) == (s, BadValue)
  {
    hide Supported, Connect, Disconnect;
  }

  /** A connection succeeds exactly when the address fits, the platform has the part that drives the device, FM is free
      if it is FM, the device and its microphone are not there yet, and some profile routes to it. */
  lemma ConnectStatusExactly(c: Platform, s: Policy, d: Device, fits: bool, analog: bool, replies: Replies)
    requires DistinctModules(c.modules) && FreshFor(c, s.outs, d, replies)
    ensures SetDeviceConnectionState(c, s, Output(d), fits, Available, analog, replies).1
            == if !fits || !Present(c, d) then BadValue
               else if (d == Fm ==> s.settings.fm == FmNone) && d !in s.avail && Microphone(d) !! s.inputs
                       && Routes(c, s.outs, d, replies) then NoError
               else InvalidOperation
  {
    hide SetDeviceConnectionState, Routed, Routes, FreshFor, DistinctModules, Paired, Microphone, Supported, Present;
    PartsMatch(c, d);
    ConnectionSucceedsExactly(c, s, d, fits, analog, replies);
    if Routed(c, s.outs, d, replies) {
      CandidateRoutes(c, s.outs, d, replies);
    } else if Routes(c, s.outs, d, replies) {
      RouteIsCandidate(c, s.outs, d, replies);
      assert false;
    }
    if fits && Supported(c, d) {
      NeverBadValue(c, s, d, analog, replies);
    } else {
      Refused(c, s, d, fits, Available, analog, replies);
    }
  }

  lemma NeverBadValue(c: Platform, s: Policy, d: Device, analog: bool, replies: Replies)
    requires Supported(c, d)
    ensures SetDeviceConnectionState(c, s, Output(d), true, Available, analog, replies).1 != BadValue
  {
    hide OpenFor, Routed, ForceClosed, Supported, Paired;
  }

  /** A device with one candidate direct profile whose lists are static connects as soon as the client opens it. */
  lemma StaticListsConnect(c: Platform, s: Policy, d: Device, analog: bool, replies: Replies, p: Profile)
    requires DistinctModules(c.modules) && FreshFor(c, s.outs, d, replies)
    requires Present(c, d) && d != Fm && d !in s.avail && Microphone(d) !! s.inputs
    requires InLoaded(c.modules, p) && d in p.supported && Direct in p.flags && p.flags !! {Lpa, Tunnel, VoipRx}
    requires var r := replies(p.id);
             r.output != 0 && r.dynamic.rates.first != 0 && r.dynamic.formats.first != 0
    ensures SetDeviceConnectionState(c, s, Output(d), true, Available, analog, replies).1 == NoError
  {
    hide SetDeviceConnectionState, InLoaded, FreshFor, DistinctModules, HasOutput, Present, Microphone;
    assert Opens(p, replies(p.id));
    ConnectStatusExactly(c, s, d, true, analog, replies);
  }

  lemma NeverBadOff(c: Platform, s: Policy, d: Device, analog: bool, replies: Replies)
    requires Supported(c, d)
    ensures SetDeviceConnectionState(c, s, Output(d), true, Unavailable, analog, replies).1 != BadValue
  {
    hide Orphans, ForceUse.FmOff, Supported, Paired;
  }

  lemma AbsentFails(c: Platform, s: Policy, d: Device, analog: bool, replies: Replies)
    requires Supported(c, d) && d !in s.avail
    ensures SetDeviceConnectionState(c, s, Output(d), true, Unavailable, analog, replies).1 == InvalidOperation
  {
    hide Orphans, ForceUse.FmOff, Supported, Paired, InputHalf;
  }

  /** A disconnection needs the device and its microphone to be there. */
  lemma DisconnectStatusExactly(c: Platform, s: Policy, d: Device, fits: bool, analog: bool, replies: Replies)
    ensures SetDeviceConnectionState(c, s, Output(d), fits, Unavailable, analog, replies).1
            == if !fits || !Present(c, d) then BadValue
               else if d in s.avail && Microphone(d) <= s.inputs then NoError
               else InvalidOperation
  {
    hide Supported, Present, Paired, Microphone, Orphans, ForceUse.FmOff;
    PartsMatch(c, d);
    if !fits || !Supported(c, d) {
      Refused(c, s, d, fits, Unavailable, analog, replies);
    } else if d in s.avail {
      DisconnectionRuns(c, s, d, analog, replies);
      NeverBadOff(c, s, d, analog, replies);
    } else {
      AbsentFails(c, s, d, analog, replies);
    }
    hide SetDeviceConnectionState;
  }

  /** What is not one device, or neither connects nor disconnects, is refused; so is an input that is there already, or
      not there to be removed. */
  lemma OtherStatusExactly(c: Platform, s: Policy, e: Endpoint, fits: bool, conn: Connection, analog: bool,
                           replies: Replies)
    requires e.NotOneDevice? || conn.OtherState? || (e.Input? && !fits)
    ensures SetDeviceConnectionState(c, s, e, fits, conn, analog, replies) == (s, BadValue)
  {
  }

  lemma InputExactly(c: Platform, s: Policy, i: InputDevice, analog: bool, replies: Replies)
    ensures SetDeviceConnectionState(c, s, Endpoint.Input(i), true, Available, analog, replies)
            == (s.(inputs := s.inputs + {i}), if i in s.inputs then InvalidOperation else NoError)
    ensures SetDeviceConnectionState(c, s, Endpoint.Input(i), true, Unavailable, analog, replies)
            == (s.(inputs := s.inputs - {i}), if i in s.inputs then NoError else InvalidOperation)
  {
    assert i in s.inputs ==> s.inputs + {i} == s.inputs;
    assert i !in s.inputs ==> s.inputs - {i} == s.inputs;
  }

  /** The microphone comes with a device whose output half connects, and goes with one that is disconnected. */
  lemma MicrophoneExactly(c: Platform, s: Policy, d: Device, analog: bool, replies: Replies)
    requires DistinctModules(c.modules) && Sound(s.outs, s.avail) && FreshFor(c, s.outs, d, replies)
    ensures Connects(c, s, d, replies) ==>
              SetDeviceConnectionState(c, s, Output(d), true, Available, analog, replies).0.inputs
              == s.inputs + Microphone(d)
    ensures Present(c, d) && d in s.avail ==>
              SetDeviceConnectionState(c, s, Output(d), true, Unavailable, analog, replies).0.inputs
              == s.inputs - Microphone(d)
  {
    hide SetDeviceConnectionState, Sound, FreshFor, DistinctModules, Paired, Microphone, Connects, Supported, Present;
    hide ClosedDown, Orphans;
    PartsMatch(c, d);
    if Connects(c, s, d, replies) {
      ConnectionAchieves(c, s, d, analog, replies);
    }
    if Present(c, d) && d in s.avail {
      DisconnectionRuns(c, s, d, analog, replies);
    }
  }

  /* ---------- which outputs survive ---------- */

  /** Releasing a handle that is not open, or an output without the direct flag, leaves the table alone. */
  lemma ReleaseLeavesMixed(outs: Outputs, h: Handle)
    requires h !in outs || outs[h].Duplicated? || Direct !in outs[h].flags
    ensures Release(outs, h) == outs
  {
  }

  /** An output that was not opened direct: a mixer's, or one that duplicates. */
  predicate Mixed(outs: Outputs, h: Handle) {
    h in outs && (outs[h].Opened? ==> Direct !in outs[h].flags)
  }

  predicate Kept(outs: Outputs, outs': Outputs, h: Handle)
    requires h in outs
  {
    h in outs' && outs'[h] == outs[h]
  }

  predicate Chooses(c: Platform, s: System, e: Event, d: Descriptor) {
    d.Opened? && e.GetOutput? && DirectProfile(c.modules, e.request, s.policy.avail) == Some(d.profile)
  }

  /** A direct get changes or closes exactly the outputs of its profile. */
  lemma GetKeepsExactly(outs: Outputs, p: Profile, q: Request, h: Handle)
    requires OnePerProfile(outs) && h in outs && q.reply.output !in outs
    ensures Kept(outs, GetDirect(outs, p, q).0, h) <==> !(outs[h].Opened? && outs[h].profile == p)
  {
    if outs[h].Opened? && outs[h].profile == p {
      assert Holds(outs, h, p);
    }
  }

  /** Short of a connection, an output that was not opened direct changes or goes exactly by a get that chooses its
      profile. */
  lemma MixedKeptExactly(c: Platform, s: System, e: Event, h: Handle)
    requires Inv(s) && Enabled(c, s, e) && !e.SetConnection? && Mixed(s.policy.outs, h)
    ensures Kept(s.policy.outs, Next(c, s, e).policy.outs, h) <==> !Chooses(c, s, e, s.policy.outs[h])
  {
    hide DirectProfile, Reachable, Counted, StillOpen, ForceUse.Refines;
    if e.GetOutput? && DirectProfile(c.modules, e.request, s.policy.avail).Some? {
      GetKeepsExactly(s.policy.outs, DirectProfile(c.modules, e.request, s.policy.avail).value, e.request, h);
    }
    hide GetDirect, OnePerProfile;
  }

  /** No connection, and no get that chooses the profile. */
  ghost predicate Spares(c: Platform, s: System, es: seq<Event>, d: Descriptor)
    decreases |es|
  {
    es == [] || (!es[0].SetConnection? && !Chooses(c, s, es[0], d) && Spares(c, Next(c, s, es[0]), es[1..], d))
  }

  /** So it survives every run of gets, releases and forced-use requests that spares its profile. */
  lemma {:induction false} MixedSurvives(c: Platform, s: System, es: seq<Event>, h: Handle)
    requires DistinctModules(c.modules) && Inv(s) && ValidRun(c, s, es) && Mixed(s.policy.outs, h)
    requires Spares(c, s, es, s.policy.outs[h])
    ensures Kept(s.policy.outs, Run(c, s, es).policy.outs, h)
    decreases |es|
  {
    if es != [] {
      MixedKeptExactly(c, s, es[0], h);
      NextKeepsInv(c, s, es[0]);
      hide Inv, Next, Enabled, Chooses, DistinctModules;
      MixedSurvives(c, Next(c, s, es[0]), es[1..], h);
    }
  }

  /** Requests are compatible with direct profiles only. */
  predicate OnlyDirectCompatible(es: seq<Event>, p: Profile) {
    forall i | 0 <= i < |es| && es[i].GetOutput? && p.id in es[i].request.compatible :: Direct in p.flags
  }

  lemma {:induction false} OnlyDirectSpares(c: Platform, s: System, es: seq<Event>, d: Descriptor)
    requires forall i | 0 <= i < |es| :: !es[i].SetConnection?
    requires d.Opened? ==> Direct !in d.profile.flags && OnlyDirectCompatible(es, d.profile)
    ensures Spares(c, s, es, d)
    decreases |es|
  {
    if es != [] {
      if es[0].GetOutput? {
        DirectProfileEligible(c.modules, es[0].request, s.policy.avail);
      }
      hide DirectProfile, Next;
      OnlyDirectSpares(c, Next(c, s, es[0]), es[1..], d);
    }
  }

  /** In particular, when only direct profiles are compatible with requests, the outputs of the other profiles survive
      all gets, releases and forced-use requests. */
  lemma MixersSurvive(c: Platform, s: System, es: seq<Event>, h: Handle)
    requires DistinctModules(c.modules) && Inv(s) && ValidRun(c, s, es) && Mixed(s.policy.outs, h)
    requires forall i | 0 <= i < |es| :: !es[i].SetConnection?
    requires var d := s.policy.outs[h];
             d.Opened? ==> Direct !in d.profile.flags && OnlyDirectCompatible(es, d.profile)
    ensures Kept(s.policy.outs, Run(c, s, es).policy.outs, h)
  {
    OnlyDirectSpares(c, s, es, s.policy.outs[h]);
    MixedSurvives(c, s, es, h);
  }

  /* ---------- what a get answers ---------- */

  /** A get is direct when it asks for that or for offloading, and a loaded profile is compatible and reaches an
      available device. */
  ghost predicate GoesDirect(c: Platform, q: Request, avail: set<Device>) {
    && q.flags * {Direct, CompressOffload} != {}
    && exists p :: InLoaded(c.modules, p) && p.id in q.compatible && p.supported * avail != {}
  }

  lemma GoesDirectExactly(c: Platform, q: Request, avail: set<Device>)
    ensures DirectProfile(c.modules, q, avail).Some? <==> GoesDirect(c, q, avail)
  {
    var ms := c.modules;
    FirstDirectMeans(ms, 0, q, avail);
    assert Direct in RequestFlags(q) <==> q.flags * {Direct, CompressOffload} != {} by {
      if Direct in q.flags {
        assert Direct in q.flags * {Direct, CompressOffload};
      }
      if CompressOffload in q.flags {
        assert CompressOffload in q.flags * {Direct, CompressOffload};
      }
    }
    hide FirstDirect, RequestFlags;
    if GoesDirect(c, q, avail) {
      var p :| InLoaded(ms, p) && p.id in q.compatible && p.supported * avail != {};
      assert avail * p.supported == p.supported * avail;
      var i :| 0 <= i < |ms| && ms[i].loaded && p in ms[i].profiles;
      var j :| 0 <= j < |ms[i].profiles| && ms[i].profiles[j] == p;
      assert Eligible(ms[i].profiles[j], q, avail);
    }
    if FirstDirect(ms, 0, q, avail).Some? {
      var p := FirstDirect(ms, 0, q, avail).value;
      assert avail * p.supported == p.supported * avail;
    }
  }

  /** Any other get leaves the policy alone and answers the mixer for linear PCM, and nothing for other formats. */
  lemma MixedGetExactly(c: Platform, s: Policy, q: Request)
    requires !GoesDirect(c, q, s.avail)
    ensures Get(c, s, q) == (s, if q.linearPcm then q.mixer else 0)
  {
    GoesDirectExactly(c, q, s.avail);
    hide DirectProfile, GoesDirect;
  }

  /** A direct get changes the outputs of the policy only, and uses the first compatible profile. */
  lemma DirectGetUses(c: Platform, s: Policy, q: Request)
    requires GoesDirect(c, q, s.avail)
    ensures exists p :: InLoaded(c.modules, p) && p.id in q.compatible && p.supported * s.avail != {}
                        && var (outs, h) := GetDirect(s.outs, p, q);
                           Get(c, s, q) == (s.(outs := outs), h)
  {
    GoesDirectExactly(c, q, s.avail);
    FirstDirectMeans(c.modules, 0, q, s.avail);
    var p := DirectProfile(c.modules, q, s.avail).value;
    assert s.avail * p.supported == p.supported * s.avail;
    assert InLoaded(c.modules, p);
    hide DirectProfile, GoesDirect, FirstDirect, InLoaded, GetDirect;
  }

  /** It answers an output exactly when the profile's output runs with the parameters asked for, or the client opens one
      that honours them; a new output carries the flags of the profile and of the request, a direct one. */
  lemma DirectAnswersExactly(outs: Outputs, avail: set<Device>, p: Profile, q: Request)
    requires Sound(outs, avail) && q.reply.output !in outs
    ensures var (outs', h) := GetDirect(outs, p, q);
            var same := exists g :: g in outs && outs[g].Opened? && outs[g].profile == p && outs[g].params == q.params;
            && (h != 0 <==> same || (q.reply.output != 0 && Honours(q.params, q.reply.params)))
            && (same <==> h in outs)
            && (h != 0 && !same ==>
                  h == q.reply.output && h in outs'
                  && outs'[h] == Opened(p, p.flags + q.flags + (if CompressOffload in q.flags then {Direct} else {}),
                                        q.reply.params, 1))
  {
    forall g ensures Matches(outs, g, p, q.params)
                     <==> g in outs && outs[g].Opened? && outs[g].profile == p && outs[g].params == q.params
    {
    }
    assert p.flags + RequestFlags(q) == p.flags + q.flags + (if CompressOffload in q.flags then {Direct} else {});
    hide RequestFlags;
  }

  /* ---------- forced use ---------- */

  /** The usages that accept a configuration. */
  function AcceptedBy(config: Forced): set<Usage> {
    match config
    case ForceNone => {ForCommunication, ForMedia, ForRecord, ForDock, ForSystem}
    case ForceSpeaker => {ForCommunication, ForMedia}
    case ForceBtSco => {ForCommunication, ForRecord}
    case ForceWiredAccessory => {ForMedia, ForRecord, ForDock}
    case ForceAnalogDock => {ForMedia, ForDock}
    case ForceDigitalDock => {ForMedia, ForDock}
    case ForceHeadphones => {ForMedia}
    case ForceBtA2dp => {ForMedia}
    case ForceNoBtA2dp => {ForMedia}
    case ForceBtCarDock => {ForDock}
    case ForceBtDeskDock => {ForDock}
    case ForceSystemEnforced => {ForSystem}
  }

  lemma ListedExactly(usage: Usage, config: Forced)
    ensures ForceUse.Listed(usage, config) <==> usage in AcceptedBy(config)
  {
  }

  /** The configuration of a usage that was last asked for and accepted. */
  function LastAccepted(usage: Usage, last: Forced, es: seq<Event>): Forced
    decreases |es|
  {
    if es == [] then last
    else
      var e := es[0];
      var accepted := e.SetForceUse? && e.usage == usage && usage in AcceptedBy(e.config);
      LastAccepted(usage, if accepted then e.config else last, es[1..])
  }

  lemma ConnectionKeepsForces(c: Platform, s: Policy, e: Endpoint, fits: bool, conn: Connection, analog: bool,
                              replies: Replies)
    ensures var t := SetDeviceConnectionState(c, s, e, fits, conn, analog, replies).0.settings;
            t.forces == s.settings.forces.(media := t.forces.media)
  {
    hide OpenFor, Routed, Orphans;
  }

  lemma NextAccepted(c: Platform, s: System, e: Event, usage: Usage)
    requires usage in {ForCommunication, ForRecord}
    ensures var forces, forces' := s.policy.settings.forces, Next(c, s, e).policy.settings.forces;
            var now, after := if usage == ForRecord then forces.record else forces.communication,
                              if usage == ForRecord then forces'.record else forces'.communication;
            after == if e.SetForceUse? && e.usage == usage && usage in AcceptedBy(e.config) then e.config else now
  {
    if e.SetConnection? {
      ConnectionKeepsForces(c, s.policy, e.endpoint, e.addressFits, e.conn, e.analog, e.replies);
    } else if e.SetForceUse? {
      ListedExactly(usage, e.config);
    }
    hide SetDeviceConnectionState, GetDirect, DirectProfile, StillOpen, Release, Returned, ForceUse.Listed, AcceptedBy;
  }

  /** After any run the communication and record settings are those last asked for that their usage accepts. */
  lemma {:induction false} AcceptedAfterRun(c: Platform, s: System, es: seq<Event>)
    ensures var forces, t := s.policy.settings.forces, Run(c, s, es).policy.settings.forces;
            && t.communication == LastAccepted(ForCommunication, forces.communication, es)
            && t.record == LastAccepted(ForRecord, forces.record, es)
    decreases |es|
  {
    if es != [] {
      NextAccepted(c, s, es[0], ForCommunication);
      NextAccepted(c, s, es[0], ForRecord);
      hide Next, AcceptedBy;
      AcceptedAfterRun(c, Next(c, s, es[0]), es[1..]);
    }
  }

  lemma RegisterKeepsSettings(c: Platform, s: Policy, d: Device, replies: Replies)
    ensures Register(c, s, d, replies).0.settings == s.settings
  {
    hide OpenFor, Routed, ForceClosed;
  }

  /** Only FM moves the settings: connecting it while the mode is free claims the mode, whatever comes of it. */
  lemma ConnectSettingsExactly(c: Platform, s: Policy, d: Device, fits: bool, analog: bool, replies: Replies)
    ensures SetDeviceConnectionState(c, s, Output(d), fits, Available, analog, replies).0.settings
            == if fits && d == Fm && s.settings.fm == FmNone
               then s.settings.(fm := if analog then FmAnalog else FmDigital) else s.settings
  {
    RegisterKeepsSettings(c, s, d, replies);
    if d == Fm && s.settings.fm == FmNone {
      RegisterKeepsSettings(c, s.(settings := ForceUse.FmOn(s.settings, analog).value), d, replies);
    }
    hide Register, Paired;
  }

  /** Disconnecting it gives the mode back and applies a deferred none, connected or not. */
  lemma DisconnectSettingsExactly(c: Platform, s: Policy, d: Device, fits: bool, analog: bool, replies: Replies)
    ensures var forces := s.settings.forces;
            SetDeviceConnectionState(c, s, Output(d), fits, Unavailable, analog, replies).0.settings
            == if fits && d == Fm
               then ForceUse.Settings(if s.settings.pendingForceNone then forces.(media := ForceNone) else forces,
                                      false, FmNone)
               else s.settings
  {
    hide Orphans, Connect, Paired;
  }

  /** A media request is deferred exactly when digital FM is on and it asks for none; another accepted one cancels what
      was deferred, and a refused one changes nothing. */
  lemma MediaRequestExactly(s: ForceUse.Settings, config: Forced)
    ensures var t := ForceUse.SetForceUse(s, ForMedia, config);
            var accepted := ForMedia in AcceptedBy(config);
            var deferred := config == ForceNone && s.fm == FmDigital;
            && t.forces == s.forces.(media := if accepted && !deferred then config else s.forces.media)
            && (t.pendingForceNone <==> deferred || (s.pendingForceNone && !accepted))
            && t.fm == s.fm
  {
  }
}
