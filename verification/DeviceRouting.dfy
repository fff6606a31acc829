/** Which output devices a routing strategy selects. */
module DeviceRouting {
  import opened PolicyTypes

  datatype Strategy =
    | Media | Phone | Sonification | SonificationRespectful | Dtmf | EnforcedAudible | OtherStrategy(index: int)

  datatype PhoneState = Normal | Ringtone | InCall | InCommunication

  /** All that the selection reads; the cache holds earlier selections. */
  datatype Routing = Routing(
    available: set<Device>,
    phoneState: PhoneState,
    forceCommunication: Forced,
    forceMedia: Forced,
    fm: FmMode,
    a2dpUsable: bool,
    defaultDevice: set<Device>,
    enforcedCanBeMuted: bool,
    musicActiveRemotely: bool,
    musicActive: bool,
    cachedPhone: set<Device>)

  predicate IsInCall(r: Routing) {
    r.phoneState == InCall || r.phoneState == InCommunication
  }

  /** A2DP exists, has an output, is not suspended and not forced off. */
  predicate A2dpAllowed(r: Routing) {
    r.a2dpUsable && r.forceMedia != ForceNoBtA2dp
  }

  function PhoneDefault(r: Routing): set<Device> {
    if A2dpAllowed(r) && !IsInCall(r) && BluetoothA2dp in r.available then {BluetoothA2dp}
    else if A2dpAllowed(r) && !IsInCall(r) && BluetoothA2dpHeadphones in r.available then {BluetoothA2dpHeadphones}
    else if WiredHeadphone in r.available then {WiredHeadphone}
    else if WiredHeadset in r.available then {WiredHeadset}
    else if UsbDevice in r.available then {UsbDevice}
    else if DgtlDockHeadset in r.available then {DgtlDockHeadset}
    else if AuxDigital in r.available then {AuxDigital}
    else if AnlgDockHeadset in r.available then {AnlgDockHeadset}
    else if Earpiece in r.available then {Earpiece}
    else r.defaultDevice
  }

  function PhoneSpeaker(r: Routing): set<Device> {
    if A2dpAllowed(r) && !IsInCall(r) && BluetoothA2dpSpeaker in r.available then {BluetoothA2dpSpeaker}
    else if UsbDevice in r.available then {UsbDevice}
    else if DgtlDockHeadset in r.available then {DgtlDockHeadset}
    else if AuxDigital in r.available then {AuxDigital}
    else if AnlgDockHeadset in r.available then {AnlgDockHeadset}
    else if Speaker in r.available then {Speaker}
    else r.defaultDevice
  }

  /** A forced headset falls back to the default case; DTMF in a call skips the car kit. */
  function PhoneForced(r: Routing, strategy: Strategy): set<Device> {
    match r.forceCommunication
    case ForceBtSco =>
      if (!IsInCall(r) || strategy != Dtmf) && BluetoothScoCarkit in r.available then {BluetoothScoCarkit}
      else if BluetoothScoHeadset in r.available then {BluetoothScoHeadset}
      else if BluetoothSco in r.available then {BluetoothSco}
      else PhoneDefault(r)
    case ForceSpeaker => PhoneSpeaker(r)
    case _ => PhoneDefault(r)
  }

  function PhoneBody(r: Routing, strategy: Strategy): set<Device> {
    if Fm in r.available && r.forceMedia == ForceSpeaker then {Speaker} else PhoneForced(r, strategy)
  }

  /** The device of the media default case; nothing available is the empty set. */
  function MediaDefault(r: Routing): set<Device> {
    var a2dp := A2dpAllowed(r) && r.fm != FmAnalog;
    if a2dp && BluetoothA2dp in r.available then {BluetoothA2dp}
    else if a2dp && BluetoothA2dpHeadphones in r.available then {BluetoothA2dpHeadphones}
    else if a2dp && BluetoothA2dpSpeaker in r.available then {BluetoothA2dpSpeaker}
    else if WiredHeadphone in r.available then {WiredHeadphone}
    else if WiredHeadset in r.available then {WiredHeadset}
    else if UsbAccessory in r.available then {UsbAccessory}
    else if UsbDevice in r.available then {UsbDevice}
    else if DgtlDockHeadset in r.available then {DgtlDockHeadset}
    else if AuxDigital in r.available then {AuxDigital}
    else if AnlgDockHeadset in r.available then {AnlgDockHeadset}
    else if Speaker in r.available then {Speaker}
    else {}
  }

  /** The default device is assigned and then overwritten by the case below it. */
  function MediaForced(r: Routing, device: set<Device>): set<Device> {
    if r.forceMedia == ForceSpeaker then r.available * {Speaker}
    else if device + MediaDefault(r) != {} then device + MediaDefault(r)
    else r.available * {Speaker}
  }

  /** FM joins the media device; analog FM takes the wired headset for itself. */
  function WithFm(r: Routing, device: set<Device>): set<Device> {
    if Fm !in r.available then device
    else
      var joined := device + {Fm};
      if r.fm != FmAnalog then joined
      else if joined == {Speaker, WiredHeadset, Fm} then {Speaker}
      else joined - {WiredHeadset}
  }

  function MediaBody(r: Routing, strategy: Strategy, device: set<Device>): set<Device> {
    var selected := WithFm(r, MediaForced(r, device));
    var a2dp := exists d | d in A2DP_DEVICES :: selected == {d};
    if r.phoneState == InCall && !a2dp && selected != r.cachedPhone
       && strategy == EnforcedAudible && r.enforcedCanBeMuted
    then r.cachedPhone
    else selected
  }

  /** Sonification and enforced-audible add the speaker; analog FM keeps alerts on the speaker alone. */
  function AlertBody(r: Routing, strategy: Strategy): set<Device> {
    var device := if strategy == Sonification || !r.enforcedCanBeMuted then r.available * {Speaker} else {};
    if r.fm == FmAnalog then device else MediaBody(r, strategy, device)
  }

  /** The order in which strategies refer to each other. */
  function Rank(strategy: Strategy): nat {
    match strategy
    case SonificationRespectful => 2
    case Dtmf => 1
    case Sonification => 1
    case _ => 0
  }

  function DeviceForStrategy(r: Routing, strategy: Strategy): set<Device>
    decreases Rank(strategy)
  {
    match strategy
    case SonificationRespectful =>
      if IsInCall(r) then DeviceForStrategy(r, Sonification)
      else if r.musicActiveRemotely then DeviceForStrategy(r, Sonification)
      else if r.musicActive then DeviceForStrategy(r, Media)
      else DeviceForStrategy(r, Sonification)
    case Dtmf => if !IsInCall(r) then DeviceForStrategy(r, Media) else PhoneBody(r, Dtmf)
    case Phone => PhoneBody(r, Phone)
    case Sonification => if IsInCall(r) then DeviceForStrategy(r, Phone) else AlertBody(r, Sonification)
    case EnforcedAudible => AlertBody(r, EnforcedAudible)
    case Media => MediaBody(r, Media, {})
    case OtherStrategy(_) => {}
  }

  /* ---------- priorities ---------- */

  /** The first available device of a priority list, if there is one. */
  function FirstAvailable(order: seq<Device>, available: set<Device>): set<Device> {
    if order == [] then {}
    else if order[0] in available then {order[0]}
    else FirstAvailable(order[1..], available)
  }

  /** One device, available, with nothing available before it; or nothing, if nothing listed is available. */
  lemma {:induction false} FirstAvailableMeans(order: seq<Device>, available: set<Device>)
    ensures (FirstAvailable(order, available) == {} && forall d | d in order :: d !in available)
            || (exists i :: 0 <= i < |order| && FirstAvailable(order, available) == {order[i]} && order[i] in available
                            && forall j | 0 <= j < i :: order[j] !in available)
  {
    if order != [] && order[0] !in available {
      FirstAvailableMeans(order[1..], available);
      assert order == [order[0]] + order[1..];
      if FirstAvailable(order[1..], available) != {} {
        var i :| 0 <= i < |order[1..]| && FirstAvailable(order[1..], available) == {order[1..][i]}
                 && order[1..][i] in available && forall j | 0 <= j < i :: order[1..][j] !in available;
        assert order[i + 1] == order[1..][i];
        forall j | 0 <= j < i + 1 ensures order[j] !in available {
          if j > 0 {
            assert order[j] == order[1..][j - 1];
          }
        }
      }
    }
  }

  const DOCK_ORDER: seq<Device> := [UsbDevice, DgtlDockHeadset, AuxDigital, AnlgDockHeadset]
  const MEDIA_WIRED_ORDER: seq<Device> := [WiredHeadphone, WiredHeadset, UsbAccessory] + DOCK_ORDER + [Speaker]

  function MediaOrder(r: Routing): seq<Device> {
    if r.forceMedia == ForceSpeaker then [Speaker]
    else
      (if A2dpAllowed(r) && r.fm != FmAnalog then [BluetoothA2dp, BluetoothA2dpHeadphones, BluetoothA2dpSpeaker]
       else [])
      + MEDIA_WIRED_ORDER
  }

  function PhoneDefaultOrder(r: Routing): seq<Device> {
    (if A2dpAllowed(r) && !IsInCall(r) then [BluetoothA2dp, BluetoothA2dpHeadphones] else [])
    + [WiredHeadphone, WiredHeadset] + DOCK_ORDER + [Earpiece]
  }

  function PhoneOrder(r: Routing): seq<Device> {
    match r.forceCommunication
    case ForceBtSco => [BluetoothScoCarkit, BluetoothScoHeadset, BluetoothSco] + PhoneDefaultOrder(r)
    case ForceSpeaker =>
      (if A2dpAllowed(r) && !IsInCall(r) then [BluetoothA2dpSpeaker] else []) + DOCK_ORDER + [Speaker]
    case _ => PhoneDefaultOrder(r)
  }

  lemma {:induction false} FirstOfJoin(a: seq<Device>, b: seq<Device>, available: set<Device>)
    ensures FirstAvailable(a + b, available)
            == if FirstAvailable(a, available) != {} then FirstAvailable(a, available) else FirstAvailable(b, available)
  {
    if a == [] {
      assert a + b == b;
    } else {
      assert (a + b)[1..] == a[1..] + b;
      FirstOfJoin(a[1..], b, available);
    }
  }

  lemma FirstOfOne(d: Device, available: set<Device>)
    ensures FirstAvailable([d], available) == if d in available then {d} else {}
  {
    assert [d][1..] == [];
  }

  lemma FirstOfThree(d: Device, e: Device, f: Device, available: set<Device>)
    ensures FirstAvailable([d, e, f], available)
            == if d in available then {d} else if e in available then {e} else if f in available then {f} else {}
  {
    assert [d, e, f][1..] == [e, f] && [e, f][1..] == [f];
    FirstOfOne(f, available);
  }

  lemma FirstOfTwo(d: Device, e: Device, available: set<Device>)
    ensures FirstAvailable([d, e], available) == if d in available then {d} else if e in available then {e} else {}
  {
    assert [d, e][1..] == [e];
    FirstOfOne(e, available);
  }

  lemma FirstOfDocks(available: set<Device>)
    ensures FirstAvailable(DOCK_ORDER, available)
            == if UsbDevice in available then {UsbDevice} else if DgtlDockHeadset in available then {DgtlDockHeadset}
               else if AuxDigital in available then {AuxDigital}
               else if AnlgDockHeadset in available then {AnlgDockHeadset} else {}
  {
    assert DOCK_ORDER[1..] == [DgtlDockHeadset, AuxDigital, AnlgDockHeadset];
    FirstOfThree(DgtlDockHeadset, AuxDigital, AnlgDockHeadset, available);
  }

  lemma FirstOfMediaWired(available: set<Device>)
    ensures FirstAvailable(MEDIA_WIRED_ORDER, available)
            == if WiredHeadphone in available then {WiredHeadphone}
               else if WiredHeadset in available then {WiredHeadset}
               else if UsbAccessory in available then {UsbAccessory}
               else if FirstAvailable(DOCK_ORDER, available) != {} then FirstAvailable(DOCK_ORDER, available)
               else available * {Speaker}
  {
    var wired := [WiredHeadphone, WiredHeadset, UsbAccessory];
    FirstOfThree(WiredHeadphone, WiredHeadset, UsbAccessory, available);
    FirstOfOne(Speaker, available);
    FirstOfJoin(wired + DOCK_ORDER, [Speaker], available);
    FirstOfJoin(wired, DOCK_ORDER, available);
  }

  /** The devices media plays on besides FM: the first available of the list its forced use selects. */
  lemma MediaForcedIsFirst(r: Routing)
    ensures MediaForced(r, {}) == FirstAvailable(MediaOrder(r), r.available)
  {
    FirstOfMediaWired(r.available);
    FirstOfDocks(r.available);
    FirstOfOne(Speaker, r.available);
    var a2dp := [BluetoothA2dp, BluetoothA2dpHeadphones, BluetoothA2dpSpeaker];
    FirstOfThree(BluetoothA2dp, BluetoothA2dpHeadphones, BluetoothA2dpSpeaker, r.available);
    FirstOfJoin(a2dp, MEDIA_WIRED_ORDER, r.available);
    assert [] + MEDIA_WIRED_ORDER == MEDIA_WIRED_ORDER;
    hide FirstAvailable;
  }

  /** Media plays on the first available device of its list; FM adds itself, and analog FM takes the headset. */
  lemma MediaIsFirstAvailable(r: Routing)
    ensures var first := FirstAvailable(MediaOrder(r), r.available);
            DeviceForStrategy(r, Media)
            == if Fm !in r.available then first
               else if r.fm == FmAnalog then first + {Fm} - {WiredHeadset}
               else first + {Fm}
  {
    MediaForcedIsFirst(r);
    FirstAvailableMeans(MediaOrder(r), r.available);
    var first := FirstAvailable(MediaOrder(r), r.available);
    assert first + {Fm} != {Speaker, WiredHeadset, Fm} by {
      assert Speaker !in first || WiredHeadset !in first;
    }
    hide FirstAvailable, MediaForced, MediaOrder;
  }

  /** Calls go to the first available device of the list the forced use selects, or to the default device;
      FM forces them to the speaker with the media setting, available or not. */
  lemma PhoneIsFirstAvailable(r: Routing)
    ensures var first := FirstAvailable(PhoneOrder(r), r.available);
            DeviceForStrategy(r, Phone)
            == if Fm in r.available && r.forceMedia == ForceSpeaker then {Speaker}
               else if first == {} then r.defaultDevice
               else first
  {
    PhoneDefaultIsFirst(r);
    if r.forceCommunication == ForceSpeaker {
      PhoneSpeakerIsFirst(r);
    }
    FirstOfThree(BluetoothScoCarkit, BluetoothScoHeadset, BluetoothSco, r.available);
    FirstOfJoin([BluetoothScoCarkit, BluetoothScoHeadset, BluetoothSco], PhoneDefaultOrder(r), r.available);
    hide FirstAvailable, PhoneDefault, PhoneDefaultOrder, PhoneSpeaker, MediaBody, AlertBody;
  }

  lemma PhoneSpeakerIsFirst(r: Routing)
    requires r.forceCommunication == ForceSpeaker
    ensures var first := FirstAvailable(PhoneOrder(r), r.available);
            PhoneSpeaker(r) == if first == {} then r.defaultDevice else first
  {
    var a2dp := [BluetoothA2dpSpeaker];
    FirstOfDocks(r.available);
    FirstOfOne(Speaker, r.available);
    FirstOfOne(BluetoothA2dpSpeaker, r.available);
    FirstOfJoin(DOCK_ORDER, [Speaker], r.available);
    FirstOfJoin(a2dp, DOCK_ORDER + [Speaker], r.available);
    assert a2dp + DOCK_ORDER + [Speaker] == a2dp + (DOCK_ORDER + [Speaker]);
    assert [] + DOCK_ORDER + [Speaker] == DOCK_ORDER + [Speaker];
    hide FirstAvailable, PhoneDefaultOrder;
  }

  lemma PhoneDefaultIsFirst(r: Routing)
    ensures var first := FirstAvailable(PhoneDefaultOrder(r), r.available);
            PhoneDefault(r) == if first == {} then r.defaultDevice else first
  {
    var wired := [WiredHeadphone, WiredHeadset] + DOCK_ORDER + [Earpiece];
    var a2dp := [BluetoothA2dp, BluetoothA2dpHeadphones];
    FirstOfDocks(r.available);
    FirstOfTwo(WiredHeadphone, WiredHeadset, r.available);
    FirstOfOne(Earpiece, r.available);
    FirstOfJoin([WiredHeadphone, WiredHeadset], DOCK_ORDER, r.available);
    FirstOfJoin([WiredHeadphone, WiredHeadset] + DOCK_ORDER, [Earpiece], r.available);
    FirstOfTwo(BluetoothA2dp, BluetoothA2dpHeadphones, r.available);
    FirstOfJoin(a2dp, wired, r.available);
    assert a2dp + [WiredHeadphone, WiredHeadset] + DOCK_ORDER + [Earpiece] == a2dp + wired;
    assert [] + [WiredHeadphone, WiredHeadset] + DOCK_ORDER + [Earpiece] == wired;
    hide FirstAvailable;
  }

  /* ---------- off call ---------- */

  const LISTENING: set<Strategy> := {Media, Dtmf, Sonification, SonificationRespectful}

  lemma MediaBodyAvailable(r: Routing, strategy: Strategy, device: set<Device>)
    requires !IsInCall(r) && device <= r.available * {Speaker}
    ensures MediaBody(r, strategy, device) <= r.available
    ensures Speaker in r.available ==> MediaBody(r, strategy, device) != {}
  {
    hide A2dpAllowed;
    assert MediaDefault(r) <= r.available;
    var forced := MediaForced(r, device);
    assert forced <= r.available && (Speaker in r.available ==> forced != {}) by {
      assert Speaker in r.available ==> Speaker in r.available * {Speaker};
      assert Speaker in r.available ==> MediaDefault(r) != {};
    }
    hide MediaForced, MediaDefault;
    assert Fm in r.available ==> Fm in WithFm(r, forced) || WithFm(r, forced) == {Speaker};
  }

  /** Off call these strategies select only available devices, and select some when the speaker is available. */
  lemma OffCallAvailable(r: Routing, strategy: Strategy)
    requires !IsInCall(r) && strategy in LISTENING
    ensures DeviceForStrategy(r, strategy) <= r.available
    ensures Speaker in r.available ==> DeviceForStrategy(r, strategy) != {}
  {
    MediaBodyAvailable(r, Media, {});
    MediaBodyAvailable(r, Sonification, r.available * {Speaker});
    assert Speaker in r.available ==> Speaker in r.available * {Speaker};
    hide MediaBody;
  }

  /** Off call and with the speaker available, enforced-audible has no device exactly under analog FM where it
      may be muted. */
  lemma EnforcedAudibleSilentExactly(r: Routing)
    requires !IsInCall(r) && Speaker in r.available
    ensures DeviceForStrategy(r, EnforcedAudible) <= r.available
    ensures DeviceForStrategy(r, EnforcedAudible) == {} <==> r.fm == FmAnalog && r.enforcedCanBeMuted
  {
    MediaBodyAvailable(r, EnforcedAudible, {});
    MediaBodyAvailable(r, EnforcedAudible, r.available * {Speaker});
    assert Speaker in r.available * {Speaker};
    hide MediaBody;
  }

  /** Off call an alert is on the speaker exactly when there is one, whatever media does. */
  lemma SonificationOnSpeaker(r: Routing)
    requires !IsInCall(r)
    ensures Speaker in DeviceForStrategy(r, Sonification) <==> Speaker in r.available
  {
    OffCallAvailable(r, Sonification);
    hide MediaDefault, A2dpAllowed;
    assert Speaker in r.available ==> Speaker in MediaForced(r, r.available * {Speaker});
  }

  /** The default device never reaches these strategies off call: the media case overwrites it. */
  lemma DefaultDeviceUnused(r: Routing, other: set<Device>, strategy: Strategy)
    requires !IsInCall(r) && strategy in LISTENING
    ensures DeviceForStrategy(r.(defaultDevice := other), strategy) == DeviceForStrategy(r, strategy)
  {
    var r' := r.(defaultDevice := other);
    assert A2dpAllowed(r') == A2dpAllowed(r);
    assert MediaDefault(r') == MediaDefault(r);
    assert MediaForced(r', {}) == MediaForced(r, {});
    assert MediaForced(r', r.available * {Speaker}) == MediaForced(r, r.available * {Speaker});
    hide MediaDefault, A2dpAllowed, MediaForced;
    assert forall d :: WithFm(r', d) == WithFm(r, d);
  }

  /* ---------- in call ---------- */

  /** In a call the two sonification strategies follow the phone, and DTMF follows a phone without the car kit. */
  lemma InCallAgree(r: Routing)
    requires IsInCall(r)
    ensures DeviceForStrategy(r, SonificationRespectful) == DeviceForStrategy(r, Sonification)
            == DeviceForStrategy(r, Phone)
    ensures DeviceForStrategy(r, Dtmf) == DeviceForStrategy(r.(available := r.available - {BluetoothScoCarkit}), Phone)
  {
    var r' := r.(available := r.available - {BluetoothScoCarkit});
    assert PhoneDefault(r') == PhoneDefault(r);
    assert PhoneSpeaker(r') == PhoneSpeaker(r);
    hide PhoneDefault, PhoneSpeaker, MediaBody, AlertBody;
    assert PhoneBody(r, Dtmf) == PhoneBody(r', Phone);
  }

  /* ---------- A2DP ---------- */

  /** Media is on an A2DP device exactly when A2DP is usable, the forced use is neither the speaker nor no A2DP, FM is
      not analog, and such a device is available. */
  lemma MediaA2dpExactly(r: Routing)
    ensures !(DeviceForStrategy(r, Media) !! {BluetoothA2dp, BluetoothA2dpHeadphones, BluetoothA2dpSpeaker})
            <==> r.a2dpUsable && r.forceMedia !in {ForceSpeaker, ForceNoBtA2dp} && r.fm != FmAnalog
                 && !(r.available !! {BluetoothA2dp, BluetoothA2dpHeadphones, BluetoothA2dpSpeaker})
  {
  }

  predicate WithoutA2dp(devices: set<Device>) {
    BluetoothA2dp !in devices && BluetoothA2dpHeadphones !in devices && BluetoothA2dpSpeaker !in devices
  }

  /** The phone is on one exactly off call, when A2DP is usable and not forced off, FM does not force the speaker, and
      one that the forced use goes for is available: with a forced headset only in its absence, with a forced speaker
      only the A2DP speaker. */
  lemma PhoneA2dpExactly(r: Routing)
    requires WithoutA2dp(r.defaultDevice)
    ensures !WithoutA2dp(DeviceForStrategy(r, Phone))
            <==> r.phoneState in {Normal, Ringtone} && r.a2dpUsable && r.forceMedia != ForceNoBtA2dp
                 && !(Fm in r.available && r.forceMedia == ForceSpeaker)
                 && match r.forceCommunication
                    case ForceSpeaker => BluetoothA2dpSpeaker in r.available
                    case ForceBtSco =>
                      && r.available !! {BluetoothScoCarkit, BluetoothScoHeadset, BluetoothSco}
                      && (BluetoothA2dp in r.available || BluetoothA2dpHeadphones in r.available)
                    case _ => BluetoothA2dp in r.available || BluetoothA2dpHeadphones in r.available
  {
    hide MediaBody, AlertBody;
  }

  lemma MediaWithoutA2dp(r: Routing, strategy: Strategy, device: set<Device>)
    requires !r.a2dpUsable || r.forceMedia == ForceNoBtA2dp
    requires WithoutA2dp(device) && WithoutA2dp(r.cachedPhone)
    ensures WithoutA2dp(MediaBody(r, strategy, device))
  {
    assert WithoutA2dp(MediaDefault(r));
    hide MediaDefault, A2dpAllowed;
    assert WithoutA2dp(MediaForced(r, device));
    hide MediaForced;
    assert WithoutA2dp(WithFm(r, MediaForced(r, device)));
    hide WithFm;
  }

  lemma PhoneWithoutA2dp(r: Routing, strategy: Strategy)
    requires !r.a2dpUsable || r.forceMedia == ForceNoBtA2dp
    requires WithoutA2dp(r.defaultDevice)
    ensures WithoutA2dp(PhoneBody(r, strategy))
  {
  }

  /** Where A2DP is not usable, or forced off, no strategy selects it. */
  lemma NoA2dpWhenOff(r: Routing, strategy: Strategy)
    requires !r.a2dpUsable || r.forceMedia == ForceNoBtA2dp
    requires WithoutA2dp(r.defaultDevice) && WithoutA2dp(r.cachedPhone)
    ensures WithoutA2dp(DeviceForStrategy(r, strategy))
    decreases Rank(strategy)
  {
    PhoneWithoutA2dp(r, strategy);
    MediaWithoutA2dp(r, strategy, {});
    MediaWithoutA2dp(r, strategy, r.available * {Speaker});
    hide PhoneBody, MediaBody;
    match strategy
    case SonificationRespectful =>
      NoA2dpWhenOff(r, Sonification);
      NoA2dpWhenOff(r, Media);
    case Dtmf => NoA2dpWhenOff(r, Media);
    case Sonification => NoA2dpWhenOff(r, Phone);
    case _ =>
  }

  /* ---------- how the strategies relate ---------- */

  /** A strategy that is none of these selects nothing. */
  lemma UnlistedSelectsNothing(r: Routing, strategy: Strategy)
    requires strategy !in LISTENING + {Phone, EnforcedAudible}
    ensures DeviceForStrategy(r, strategy) == {}
  {
  }

  /** Off call DTMF is media, and in a call a phone without the car kit. */
  lemma DtmfFollows(r: Routing)
    ensures DeviceForStrategy(r, Dtmf)
            == match r.phoneState
               case Normal => DeviceForStrategy(r, Media)
               case Ringtone => DeviceForStrategy(r, Media)
               case InCall => DeviceForStrategy(r.(available := r.available - {BluetoothScoCarkit}), Phone)
               case InCommunication => DeviceForStrategy(r.(available := r.available - {BluetoothScoCarkit}), Phone)
  {
    if IsInCall(r) {
      InCallAgree(r);
    }
    hide PhoneBody, MediaBody, AlertBody;
  }

  lemma AddSpeaker(r: Routing)
    requires r.fm != FmAnalog
    ensures WithFm(r, MediaForced(r, r.available * {Speaker}))
            == WithFm(r, MediaForced(r, {})) + r.available * {Speaker}
  {
    hide MediaDefault, A2dpAllowed;
  }

  /** Off call an alert adds the speaker to what media uses; analog FM leaves it the speaker alone. */
  lemma SonificationAddsSpeaker(r: Routing)
    requires r.phoneState in {Normal, Ringtone}
    ensures DeviceForStrategy(r, Sonification)
            == (if r.fm == FmAnalog then {} else DeviceForStrategy(r, Media)) + r.available * {Speaker}
  {
    if r.fm != FmAnalog {
      AddSpeaker(r);
    }
    hide MediaForced, WithFm, PhoneBody;
  }

  /** A respectful alert is the phone in a call, media while music plays on this device and not remotely, and an alert
      otherwise. */
  lemma RespectfulFollows(r: Routing)
    ensures DeviceForStrategy(r, SonificationRespectful)
            == if r.phoneState in {InCall, InCommunication} then DeviceForStrategy(r, Phone)
               else if r.musicActive && !r.musicActiveRemotely then DeviceForStrategy(r, Media)
               else DeviceForStrategy(r, Sonification)
  {
    hide PhoneBody, MediaBody, AlertBody;
  }

  /** What must be heard, where it may be muted, goes with media, except that in a call it goes with the phone's last
      selection unless media is on one A2DP device; analog FM silences it. Where it may not be muted it is the alert of
      a phone off call. */
  lemma EnforcedAudibleExactly(r: Routing)
    ensures r.enforcedCanBeMuted ==>
              DeviceForStrategy(r, EnforcedAudible)
              == if r.fm == FmAnalog then {}
                 else if r.phoneState == InCall
                         && DeviceForStrategy(r, Media)
                            !in {{BluetoothA2dp}, {BluetoothA2dpHeadphones}, {BluetoothA2dpSpeaker}}
                 then r.cachedPhone
                 else DeviceForStrategy(r, Media)
    ensures !r.enforcedCanBeMuted ==>
              DeviceForStrategy(r, EnforcedAudible) == DeviceForStrategy(r.(phoneState := Normal), Sonification)
  {
    var r' := r.(phoneState := Normal);
    assert MediaForced(r', r.available * {Speaker}) == MediaForced(r, r.available * {Speaker}) by {
      assert MediaDefault(r') == MediaDefault(r);
      hide MediaDefault;
    }
    hide MediaForced, PhoneBody;
    assert WithFm(r', MediaForced(r, r.available * {Speaker})) == WithFm(r, MediaForced(r, r.available * {Speaker}));
    hide WithFm;
  }
}
