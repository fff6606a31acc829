/** The policy manager object, method by method, against the state machine. */
module PolicyManager {
  import opened PolicyTypes
  import opened Wrappers
  import opened OutputTable
  import opened PolicyProtocol
  import opened PolicySafety
  import ForceUse

  class AudioPolicyManager {
    const platform: Platform
    var outputs: Outputs
    var availableOutputDevices: set<Device>
    var availableInputDevices: set<InputDevice>
    var forceUse: ForceUse.Forces
    var pendingForceNone: bool
    var fmMode: FmMode

    /** The outputs the client has open for the policy. */
    ghost var clientOpen: set<Handle>

    ghost predicate Valid()
      reads this
    {
      && DistinctModules(platform.modules)
      && Sound(outputs, availableOutputDevices)
      && clientOpen == outputs.Keys
    }

    /** The outputs that the base class opened before the first call. */
    constructor (c: Platform, initial: Outputs, devices: set<Device>, inputs: set<InputDevice>)
      requires DistinctModules(c.modules) && Sound(initial, devices)
      ensures Valid() && platform == c
      ensures Abstract() == Policy(initial, devices, inputs, ForceUse.BOOT)
    {
      platform, outputs, clientOpen := c, initial, initial.Keys;
      availableOutputDevices, availableInputDevices := devices, inputs;
      forceUse := ForceUse.BOOT.forces;
      pendingForceNone, fmMode := false, FmNone;
    }

    function Settings(): ForceUse.Settings
      reads this
    {
      ForceUse.Settings(forceUse, pendingForceNone, fmMode)
    }

    function Abstract(): Policy
      reads this
    {
      Policy(outputs, availableOutputDevices, availableInputDevices, Settings())
    }

    method SetForceUse(usage: Usage, config: Forced)
      modifies `forceUse, `pendingForceNone
      ensures Settings() == ForceUse.SetForceUse(old(Settings()), usage, config)
    {
      match usage {
        case ForCommunication =>
          if config != ForceSpeaker && config != ForceBtSco && config != ForceNone {
            return;
          }
          forceUse := forceUse.(communication := config);
        case ForMedia =>
          if config != ForceHeadphones && config != ForceBtA2dp && config != ForceSpeaker
             && config != ForceWiredAccessory && config != ForceAnalogDock && config != ForceDigitalDock
             && config != ForceNone && config != ForceNoBtA2dp && config != ForceSpeaker {
            return;
          }
          if fmMode == FmDigital && config == ForceNone {
            pendingForceNone := true;
            return;
          } else {
            pendingForceNone := false;
            forceUse := forceUse.(media := config);
          }
        case ForRecord =>
          if config != ForceBtSco && config != ForceWiredAccessory && config != ForceNone {
            return;
          }
          forceUse := forceUse.(record := config);
        case ForDock =>
          forceUse := forceUse.(dock := config);
        case ForSystem =>
          forceUse := forceUse.(system := config);
        case OtherUsage(_) =>
      }
    }

    /* ---------- connecting ---------- */

    method CandidateProfiles(d: Device) returns (profiles: seq<Profile>)
      ensures profiles == Candidates(platform.modules, d)
    {
      var ms := platform.modules;
      profiles := [];
      var i := 0;
      while i < |ms|
        invariant 0 <= i <= |ms|
        invariant profiles == Candidates(ms[..i], d)
      {
        assert ms[..i + 1][..i] == ms[..i];
        if ms[i].loaded {
          var ps := ms[i].profiles;
          var j := 0;
          while j < |ps|
            invariant 0 <= j <= |ps|
            invariant profiles == Candidates(ms[..i], d) + Supporting(ps[..j], d)
          {
            assert ps[..j + 1][..j] == ps[..j];
            if d in ps[j].supported {
              profiles := profiles + [ps[j]];
            }
            j := j + 1;
          }
          assert ps[..j] == ps;
        }
        i := i + 1;
      }
      assert ms[..i] == ms;
    }

    method IsOpen(p: Profile) returns (found: bool)
      ensures found == HasOutput(outputs, p)
    {
      var todo := outputs.Keys;
      while todo != {}
        invariant todo <= outputs.Keys
        invariant forall h | h in outputs && h !in todo :: !Holds(outputs, h, p)
        decreases |todo|
      {
        var h :| h in todo;
        if outputs[h].Opened? && outputs[h].profile == p {
          assert Holds(outputs, h, p);
          return true;
        }
        todo := todo - {h};
      }
      return false;
    }

    /** Opens an output for a profile that has none; a direct one stays only if its parameters are known, an
        ordinary one only if it can be duplicated to the primary output. */
    method OpenProfile(p: Profile, r: Reply) returns (output: Handle)
      requires !HasOutput(outputs, p) && FreshReply(outputs, r) && clientOpen == outputs.Keys
      modifies `outputs, `clientOpen
      ensures outputs == OpenOne(old(outputs), platform.primary, p, r)
      ensures output == if Opens(p, r) then r.output else 0
      ensures clientOpen == outputs.Keys
    {
      output := 0;
      if !(Lpa in p.flags || Tunnel in p.flags || VoipRx in p.flags) {
        output := r.output;
      }
      if output != 0 {
        clientOpen := clientOpen + {output};
        if Direct in p.flags {
          var rates, formats, channels := r.dynamic.rates, r.dynamic.formats, r.dynamic.channels;
          if (rates.first == 0 && rates.others == [])
             || (formats.first == 0 && formats.others == [])
             || (formats.first == 0 && channels.others == []) {
            clientOpen := clientOpen - {output};
            output := 0;
          } else {
            outputs := outputs[output := Opened(p, p.flags, r.params, 0)];
          }
        } else {
          outputs := outputs[output := Opened(p, p.flags, r.params, 0)];
          var duplicate := r.duplicate;
          if duplicate != 0 {
            clientOpen := clientOpen + {duplicate};
            outputs := outputs[duplicate := Duplicated(platform.primary, output, r.params)];
          } else {
            clientOpen := clientOpen - {output};
            outputs := outputs - {output};
            output := 0;
          }
        }
      }
    }

    method RoutableOutputs(d: Device) returns (routable: set<Handle>)
      ensures routable == Routable(outputs, d)
    {
      routable := {};
      var todo := outputs.Keys;
      while todo != {}
        invariant todo <= outputs.Keys
        invariant forall h :: h in routable <==>
          h in outputs && h !in todo && outputs[h].Opened? && d in outputs[h].profile.supported
        decreases |todo|
      {
        var h :| h in todo;
        if outputs[h].Opened? && d in outputs[h].profile.supported {
          routable := routable + {h};
        }
        todo := todo - {h};
      }
    }

    /** Opens for each profile that has no output; one that fails to open leaves the list under the loop. */
    method OpenProfiles(candidates: seq<Profile>, d: Device, open: set<Handle>, replies: Replies)
      returns (profiles: seq<Profile>, routable: set<Handle>)
      requires Distinct(candidates) && AllSupport(candidates, d) && FreshFrom(outputs, candidates, 0, replies)
      requires open == Routable(outputs, d) && clientOpen == outputs.Keys
      modifies `outputs, `clientOpen
      ensures outputs == OpenFrom(old(outputs), platform.primary, candidates, 0, replies)
      ensures profiles != [] <==> AnyOpen(outputs, candidates)
      ensures routable == Routable(outputs, d)
      ensures clientOpen == outputs.Keys
    {
      profiles, routable := candidates, open;
      ghost var k := 0;
      var index := 0;
      while index < |profiles|
        invariant 0 <= index <= |profiles| && k <= |candidates|
        invariant profiles[index..] == candidates[k..]
        invariant OpenFrom(outputs, platform.primary, candidates, k, replies)
                  == OpenFrom(old(outputs), platform.primary, candidates, 0, replies)
        invariant FreshFrom(outputs, candidates, k, replies)
        invariant KeptAreOpen(outputs, candidates, k, profiles, index)
        invariant routable == Routable(outputs, d)
        invariant clientOpen == outputs.Keys
        decreases |profiles| - index
      {
        var profile := profiles[index];
        assert profile == candidates[k];
        ghost var before := outputs;
        FreshAfterOne(outputs, platform.primary, candidates, k, replies);
        var found := IsOpen(profile);
        hide HasOutput, Routable, Opens, Distinct, FreshReply, KeptAreOpen;
        var output := 0;
        if !found {
          output := OpenProfile(profile, replies(profile.id));
          RoutableStep(before, platform.primary, profile, replies(profile.id), d);
          OpenOneHas(before, platform.primary, profile, replies(profile.id), profile);
        }
        KeepStep(before, outputs, platform.primary, candidates, k, profiles, index, replies);
        if found {
          index := index + 1;
        } else if output == 0 {
          profiles := profiles[..index] + profiles[index + 1..];
        } else {
          routable := routable + {output};
          index := index + 1;
        }
        k := k + 1;
      }
      AnyKept(outputs, candidates, profiles);
    }

    method OpenOutputsForDevice(d: Device, replies: Replies) returns (status: Status, routable: set<Handle>)
      requires Valid() && FreshFor(platform, outputs, d, replies)
      modifies `outputs, `clientOpen
      ensures outputs == OpenFor(platform, old(outputs), d, replies)
      ensures status == if Routed(platform, old(outputs), d, replies) then NoError else BadValue
      ensures status == NoError ==> routable == Routable(outputs, d)
      ensures clientOpen == outputs.Keys
    {
      routable := RoutableOutputs(d);
      var profiles := CandidateProfiles(d);
      if profiles == [] && routable == {} {
        return BadValue, routable;
      }
      CandidatesDistinct(platform.modules, d);
      CandidatesSupport(platform.modules, d);
      hide Candidates, Distinct, AllSupport, FreshFrom, Routable, AnyOpen, Sound, DistinctModules;
      profiles, routable := OpenProfiles(profiles, d, routable, replies);
      status := if profiles == [] then BadValue else NoError;
    }

    method CloseOutput(h: Handle)
      requires h in outputs
      modifies `outputs, `clientOpen
      ensures outputs == old(outputs) - {h} && clientOpen == old(clientOpen) - {h}
    {
      clientOpen := clientOpen - {h};
      outputs := outputs - {h};
    }

    /** After a disconnection every listed output is closed; after a connection, every listed ordinary direct one. */
    method CloseListed(listed: set<Handle>, disconnected: bool)
      requires listed <= outputs.Keys && (forall h | h in listed :: outputs[h].Opened?) && clientOpen == outputs.Keys
      modifies `outputs, `clientOpen
      ensures outputs == old(outputs) - Closing(old(outputs), listed, disconnected)
      ensures clientOpen == outputs.Keys
    {
      hide OrdinaryDirect, Closing;
      ghost var before, done := outputs, {};
      var todo := listed;
      ClosingNone(before, disconnected);
      while todo != {}
        invariant listed == done + todo && done !! todo
        invariant outputs == before - Closing(before, done, disconnected) && clientOpen == outputs.Keys
        decreases |todo|
      {
        var h :| h in todo;
        ClosingOne(before, done, h, disconnected);
        var flags := outputs[h].flags;
        if disconnected || (Direct in flags && !(Lpa in flags || Tunnel in flags || VoipRx in flags)) {
          CloseOutput(h);
        }
        todo, done := todo - {h}, done + {h};
      }
      assert done == listed;
    }

    method ListOrphans() returns (orphans: set<Handle>)
      ensures orphans == Orphans(outputs, availableOutputDevices)
    {
      orphans := {};
      var todo := outputs.Keys;
      while todo != {}
        invariant todo <= outputs.Keys
        invariant forall h :: h in orphans <==>
          h in outputs && h !in todo && outputs[h].Opened?
          && outputs[h].profile.supported * availableOutputDevices == {}
        decreases |todo|
      {
        var h :| h in todo;
        if outputs[h].Opened? && outputs[h].profile.supported * availableOutputDevices == {} {
          orphans := orphans + {h};
        }
        todo := todo - {h};
      }
    }

    method RegisterDevice(d: Device, replies: Replies) returns (status: Status)
      requires Valid() && FreshFor(platform, outputs, d, replies)
      modifies `outputs, `availableOutputDevices, `clientOpen
      ensures (Abstract(), status) == Register(platform, old(Abstract()), d, replies)
      ensures clientOpen == outputs.Keys
    {
      if d in availableOutputDevices {
        return InvalidOperation;
      }
      hide OpenFor, Routed, FreshFor, Sound, DistinctModules;
      var opening, routable := OpenOutputsForDevice(d, replies);
      if opening != NoError {
        return InvalidOperation;
      }
      availableOutputDevices := availableOutputDevices + {d};
      CloseListed(routable, false);
      status := NoError;
    }

    method ConnectDevice(d: Device, analog: bool, replies: Replies) returns (status: Status)
      requires Valid() && FreshFor(platform, outputs, d, replies)
      modifies `outputs, `availableOutputDevices, `fmMode, `clientOpen
      ensures (Abstract(), status) == Connect(platform, old(Abstract()), d, analog, replies)
      ensures clientOpen == outputs.Keys
    {
      hide Register, FreshFor, Sound, DistinctModules;
      if d == Fm {
        var mode := if analog then FmAnalog else FmDigital;
        if mode == fmMode {
          return InvalidOperation;
        } else if fmMode != FmNone {
          return InvalidOperation;
        } else {
          fmMode := mode;
        }
      }
      status := RegisterDevice(d, replies);
    }

    method DisconnectDevice(d: Device) returns (status: Status)
      requires Valid()
      modifies `outputs, `availableOutputDevices, `fmMode, `forceUse, `pendingForceNone, `clientOpen
      ensures (Abstract(), status) == Disconnect(old(Abstract()), d)
      ensures clientOpen == outputs.Keys
    {
      hide Sound, DistinctModules, ForceUse.Listed;
      if d == Fm {
        fmMode := FmNone;
        if pendingForceNone {
          SetForceUse(ForMedia, ForceNone);
        }
      }
      if d !in availableOutputDevices {
        return InvalidOperation;
      }
      availableOutputDevices := availableOutputDevices - {d};
      var orphans := ListOrphans();
      CloseListed(orphans, true);
      status := NoError;
    }

    method ConnectInput(i: InputDevice, conn: Connection) returns (status: Status)
      modifies `availableInputDevices
      ensures (Abstract(), status) == InputHalf(old(Abstract()), i, conn)
    {
      match conn {
        case Available =>
          if i in availableInputDevices {
            return InvalidOperation;
          }
          availableInputDevices := availableInputDevices + {i};
        case Unavailable =>
          if i !in availableInputDevices {
            return InvalidOperation;
          }
          availableInputDevices := availableInputDevices - {i};
        case OtherState =>
          return BadValue;
      }
      status := NoError;
    }

    method ConnectOutput(d: Device, conn: Connection, analog: bool, replies: Replies) returns (status: Status)
      requires Valid() && (conn == Available ==> FreshFor(platform, outputs, d, replies))
      modifies this
      ensures Valid()
      ensures (Abstract(), status) == OutputHalf(platform, old(Abstract()), d, conn, analog, replies)
    {
      OutputHalfSound(platform, Abstract(), d, conn, analog, replies);
      hide Connect, Disconnect, Sound, DistinctModules, FreshFor, Evolves;
      if !platform.hasA2dp && d in A2DP_DEVICES {
        return BadValue;
      }
      if !platform.hasUsb && d in USB_DEVICES {
        return BadValue;
      }
      if !platform.hasRemoteSubmix && d == RemoteSubmix {
        return BadValue;
      }
      match conn {
        case Available => status := ConnectDevice(d, analog, replies);
        case Unavailable => status := DisconnectDevice(d);
        case OtherState => status := BadValue;
      }
    }

    /** The device argument turns into its paired input once its output half is done. */
    method SetDeviceConnectionState(endpoint: Endpoint, addressFits: bool, conn: Connection, analog: bool,
                                    replies: Replies)
      returns (status: Status)
      requires Valid() && FreshOutput(platform, Abstract(), endpoint, conn, replies)
      modifies this
      ensures Valid()
      ensures (Abstract(), status)
              == PolicyProtocol.SetDeviceConnectionState(platform, old(Abstract()), endpoint, addressFits, conn, analog,
                                                         replies)
    {
      hide OutputHalf, Sound, DistinctModules, FreshFor;
      if endpoint.NotOneDevice? {
        return BadValue;
      }
      if !addressFits {
        return BadValue;
      }
      var device := endpoint;
      if device.Output? {
        var d := device.device;
        status := ConnectOutput(d, conn, analog, replies);
        if status != NoError {
          return;
        }
        if d == WiredHeadset {
          device := Input(InWiredHeadset);
        } else if d == BluetoothSco || d == BluetoothScoHeadset || d == BluetoothScoCarkit {
          device := Input(InBluetoothScoHeadset);
        } else {
          return NoError;
        }
      }
      status := ConnectInput(device.input, conn);
    }

    /* ---------- getting and releasing ---------- */

    method ProfileForDirectOutput(q: Request) returns (profile: Option<Profile>)
      ensures profile == FirstDirect(platform.modules, 0, q, availableOutputDevices)
    {
      var ms := platform.modules;
      var i := 0;
      while i < |ms|
        invariant 0 <= i <= |ms|
        invariant FirstDirect(ms, i, q, availableOutputDevices) == FirstDirect(ms, 0, q, availableOutputDevices)
      {
        if ms[i].loaded {
          var ps := ms[i].profiles;
          var j := 0;
          while j < |ps|
            invariant 0 <= j <= |ps|
            invariant FirstEligible(ps, j, q, availableOutputDevices) == FirstEligible(ps, 0, q, availableOutputDevices)
          {
            if ps[j].id in q.compatible {
              if availableOutputDevices * ps[j].supported != {} {
                return Some(ps[j]);
              }
            }
            j := j + 1;
          }
        }
        i := i + 1;
      }
      return None;
    }

    /** The output of a profile, and whether it already runs with the requested parameters. */
    method FindHolder(p: Profile, asked: Params) returns (holder: Option<Handle>, same: bool)
      requires OnePerProfile(outputs)
      ensures Holders(outputs, p) == if holder.Some? then {holder.value} else {}
      ensures same <==> holder.Some? && Matches(outputs, holder.value, p, asked)
    {
      holder, same := None, false;
      var todo := outputs.Keys;
      while todo != {}
        invariant todo <= outputs.Keys && !same
        invariant holder.Some? ==> Holds(outputs, holder.value, p) && !Matches(outputs, holder.value, p, asked)
        invariant forall h | h in outputs && h !in todo && Holds(outputs, h, p) :: holder == Some(h)
        decreases |todo|
      {
        var h :| h in todo;
        if outputs[h].Opened? && outputs[h].profile == p {
          assert Holds(outputs, h, p);
          holder := Some(h);
          if asked.rate == outputs[h].params.rate && asked.format == outputs[h].params.format
             && asked.channels == outputs[h].params.channels {
            same := true;
            return;
          }
        }
        todo := todo - {h};
      }
    }

    /** Reuses, or closes what the profile had, opens and accepts or gives back. */
    method GetDirectOutput(p: Profile, q: Request) returns (output: Handle)
      requires OnePerProfile(outputs) && clientOpen == outputs.Keys && q.reply.output !in outputs
      modifies `outputs, `clientOpen
      ensures (outputs, output) == GetDirect(old(outputs), p, q)
      ensures clientOpen == outputs.Keys
    {
      var holder, same := FindHolder(p, q.params);
      MatchIsHolder(outputs, p, q.params);
      if same {
        output := holder.value;
        outputs := outputs[output := outputs[output].(openCount := outputs[output].openCount + 1)];
        return;
      }
      assert !exists h :: Matches(outputs, h, p, q.params);
      if holder.Some? {
        CloseOutput(holder.value);
      }
      assert outputs == old(outputs) - Holders(old(outputs), p);
      output := q.reply.output;
      var actual := q.reply.params;
      if output != 0 {
        clientOpen := clientOpen + {output};
      }
      if output == 0
         || (q.params.rate != 0 && q.params.rate != actual.rate)
         || (q.params.format != 0 && q.params.format != actual.format)
         || (q.params.channels != 0 && q.params.channels != actual.channels) {
        if output != 0 {
          clientOpen := clientOpen - {output};
        }
        return 0;
      }
      outputs := outputs[output := Opened(p, p.flags + RequestFlags(q), actual, 1)];
    }

    method GetOutput(q: Request) returns (output: Handle)
      requires Valid() && q.reply.output !in outputs
      modifies `outputs, `clientOpen
      ensures Valid()
      ensures (Abstract(), output) == Get(platform, old(Abstract()), q)
    {
      var flags := q.flags;
      if CompressOffload in flags {
        flags := flags + {Direct};
      }
      var profile := None;
      if Direct in flags {
        profile := ProfileForDirectOutput(q);
      }
      DirectProfileEligible(platform.modules, q, availableOutputDevices);
      if profile.Some? {
        GetDirectSound(outputs, availableOutputDevices, profile.value, q);
        hide GetDirect, FirstDirect, DistinctModules, Reachable;
        output := GetDirectOutput(profile.value, q);
        return;
      }
      output := if q.linearPcm then q.mixer else 0;
    }

    method ReleaseOutput(h: Handle)
      requires Valid()
      modifies `outputs, `clientOpen
      ensures Valid()
      ensures outputs == Release(old(outputs), h)
    {
      ReleaseSound(outputs, availableOutputDevices, h);
      hide Sound, DistinctModules;
      if h !in outputs {
        return;
      }
      var d := outputs[h];
      if d.Opened? && Direct in d.flags {
        if d.openCount <= 0 && !(Lpa in d.flags || Tunnel in d.flags || VoipRx in d.flags) {
          return;
        }
        d := d.(openCount := d.openCount - 1);
        outputs := outputs[h := d];
        if d.openCount == 0 || Lpa in d.flags || Tunnel in d.flags || VoipRx in d.flags {
          CloseOutput(h);
          assert outputs == old(outputs) - {h};
        }
      }
    }
  }

  /** What the closing loop closes of a list of outputs. */
  function Closing(outs: Outputs, listed: set<Handle>, disconnected: bool): set<Handle> {
    if disconnected then listed else OrdinaryDirectAmong(outs, listed)
  }

  lemma ClosingNone(outs: Outputs, disconnected: bool)
    ensures Closing(outs, {}, disconnected) == {} && outs - {} == outs
  {
  }

  lemma ClosingOne(outs: Outputs, done: set<Handle>, h: Handle, disconnected: bool)
    requires h in outs && outs[h].Opened? && h !in done
    ensures h !in Closing(outs, done, disconnected)
    ensures var flags := outs[h].flags;
            var closes := disconnected || (Direct in flags && !(Lpa in flags || Tunnel in flags || VoipRx in flags));
            var now, later := Closing(outs, done, disconnected), Closing(outs, done + {h}, disconnected);
            if closes then outs - later == outs - now - {h} else later == now
  {
    var now, later := Closing(outs, done, disconnected), Closing(outs, done + {h}, disconnected);
    assert OrdinaryDirect(outs[h].flags) || disconnected ==> later == now + {h};
    assert outs - (now + {h}) == outs - now - {h};
  }

  lemma MatchIsHolder(outs: Outputs, p: Profile, asked: Params)
    ensures forall h | Matches(outs, h, p, asked) :: h in Holders(outs, p)
  {
  }

  lemma AnyKept(outs: Outputs, candidates: seq<Profile>, profiles: seq<Profile>)
    requires KeptAreOpen(outs, candidates, |candidates|, profiles, |profiles|)
    ensures profiles != [] <==> AnyOpen(outs, candidates)
  {
    assert profiles[..|profiles|] == profiles;
    if profiles != [] {
      assert profiles[0] in candidates && HasOutput(outs, profiles[0]);
    }
  }

  ghost predicate AllSupport(ps: seq<Profile>, d: Device) {
    forall i | 0 <= i < |ps| :: d in ps[i].supported
  }

  lemma CandidatesSupport(ms: seq<HwModule>, d: Device)
    ensures AllSupport(Candidates(ms, d), d)
  {
    var ps := Candidates(ms, d);
    forall i | 0 <= i < |ps| ensures d in ps[i].supported {
      CandidatesMean(ms, d, ps[i]);
    }
  }

  /** The profiles kept so far are the listed ones that have an output. */
  ghost predicate KeptAreOpen(outs: Outputs, candidates: seq<Profile>, k: nat, profiles: seq<Profile>, index: nat) {
    && k <= |candidates| && index <= |profiles|
    && (forall i | 0 <= i < index :: profiles[i] in candidates && HasOutput(outs, profiles[i]))
    && (forall j | 0 <= j < k && HasOutput(outs, candidates[j]) :: candidates[j] in profiles[..index])
  }

  lemma RoutableStep(outs: Outputs, primary: Handle, p: Profile, r: Reply, d: Device)
    requires !HasOutput(outs, p) && FreshReply(outs, r) && d in p.supported
    ensures Routable(OpenOne(outs, primary, p, r), d) == Routable(outs, d) + (if Opens(p, r) then {r.output} else {})
  {
    hide HasOutput;
  }

  lemma KeepStep(outs: Outputs, outs': Outputs, primary: Handle, candidates: seq<Profile>, k: nat,
                 profiles: seq<Profile>, index: nat, replies: Replies)
    requires Distinct(candidates) && KeptAreOpen(outs, candidates, k, profiles, index)
    requires k < |candidates| && index < |profiles| && profiles[index] == candidates[k]
    requires FreshReply(outs, replies(candidates[k].id))
    requires outs' == OpenOne(outs, primary, candidates[k], replies(candidates[k].id))
    ensures HasOutput(outs', candidates[k]) ==> KeptAreOpen(outs', candidates, k + 1, profiles, index + 1)
    ensures !HasOutput(outs', candidates[k]) ==>
              KeptAreOpen(outs', candidates, k + 1, profiles[..index] + profiles[index + 1..], index)
  {
    var p, r := candidates[k], replies(candidates[k].id);
    forall q ensures HasOutput(outs', q) <==> HasOutput(outs, q) || (q == p && !HasOutput(outs, p) && Opens(p, r)) {
      OpenOneHas(outs, primary, p, r, q);
    }
    hide HasOutput, Opens, OpenOne;
    assert profiles[..index + 1] == profiles[..index] + [p];
    assert (profiles[..index] + profiles[index + 1..])[..index] == profiles[..index];
  }
}
