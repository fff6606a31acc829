/** What every run of the audio policy keeps, and what one connection, get or release achieves. */
module PolicySafety {
  import opened PolicyTypes
  import opened Wrappers
  import opened OutputTable
  import opened PolicyProtocol
  import ForceUse

  /* ---------- the candidates for a device ---------- */

  /** No profile object occurs twice in the modules. */
  ghost predicate DistinctModules(ms: seq<HwModule>) {
    && (forall i | 0 <= i < |ms| :: Distinct(ms[i].profiles))
    && (forall i, j, p | 0 <= i < |ms| && 0 <= j < |ms| && p in ms[i].profiles && p in ms[j].profiles :: i == j)
  }

  lemma {:induction false} SupportingMeans(ps: seq<Profile>, d: Device, p: Profile)
    ensures p in Supporting(ps, d) <==> p in ps && d in p.supported
  {
    if ps != [] {
      SupportingMeans(ps[..|ps| - 1], d, p);
      assert ps == ps[..|ps| - 1] + [ps[|ps| - 1]];
    }
  }

  lemma {:induction false} SupportingDistinct(ps: seq<Profile>, d: Device)
    requires Distinct(ps)
    ensures Distinct(Supporting(ps, d))
  {
    if ps != [] {
      var n := |ps| - 1;
      var front := Supporting(ps[..n], d);
      assert Distinct(ps[..n]);
      SupportingDistinct(ps[..n], d);
      forall i | 0 <= i < |front| ensures front[i] != ps[n] {
        SupportingMeans(ps[..n], d, front[i]);
        assert front[i] in ps[..n];
      }
    }
  }

  ghost predicate InLoaded(ms: seq<HwModule>, p: Profile) {
    exists i :: 0 <= i < |ms| && ms[i].loaded && p in ms[i].profiles
  }

  lemma InLoadedLast(ms: seq<HwModule>, p: Profile)
    requires ms != []
    ensures InLoaded(ms, p)
            <==> InLoaded(ms[..|ms| - 1], p) || (ms[|ms| - 1].loaded && p in ms[|ms| - 1].profiles)
  {
    var n := |ms| - 1;
    assert forall i | 0 <= i < n :: ms[..n][i] == ms[i];
  }

  /** The candidates are the profiles of loaded modules that support the device. */
  lemma {:induction false} CandidatesMean(ms: seq<HwModule>, d: Device, p: Profile)
    ensures p in Candidates(ms, d)
            <==> d in p.supported && InLoaded(ms, p)
  {
    if ms != [] {
      var n := |ms| - 1;
      hide InLoaded, Supporting;
      CandidatesMean(ms[..n], d, p);
      SupportingMeans(ms[n].profiles, d, p);
      InLoadedLast(ms, p);
    }
  }

  lemma {:induction false} CandidatesDistinct(ms: seq<HwModule>, d: Device)
    requires DistinctModules(ms)
    ensures Distinct(Candidates(ms, d))
  {
    if ms != [] {
      var n := |ms| - 1;
      assert forall i | 0 <= i < n :: ms[..n][i] == ms[i];
      CandidatesDistinct(ms[..n], d);
      SupportingDistinct(ms[n].profiles, d);
      var front, back := Candidates(ms[..n], d), Supporting(ms[n].profiles, d);
      forall i, j | 0 <= i < |front| && 0 <= j < |back| ensures front[i] != back[j] {
        assert front[i] in front && back[j] in back;
        CandidatesMean(ms[..n], d, front[i]);
        SupportingMeans(ms[n].profiles, d, back[j]);
      }
      DistinctJoin(front, back);
    }
  }

  lemma DistinctJoin(a: seq<Profile>, b: seq<Profile>)
    requires Distinct(a) && Distinct(b) && forall i, j | 0 <= i < |a| && 0 <= j < |b| :: a[i] != b[j]
    ensures Distinct(a + b)
  {
  }

  /* ---------- opening for a device ---------- */

  lemma OpenOneKeepsOne(outs: Outputs, primary: Handle, p: Profile, r: Reply)
    requires OnePerProfile(outs) && FreshReply(outs, r)
    ensures OnePerProfile(OpenOne(outs, primary, p, r))
  {
    var outs' := OpenOne(outs, primary, p, r);
    forall g, h, q | Holds(outs', g, q) && Holds(outs', h, q) ensures g == h {
      if outs' != outs && q == p {
        assert !Holds(outs, g, q) && !Holds(outs, h, q);
      } else {
        assert Holds(outs, g, q) && Holds(outs, h, q);
      }
    }
  }

  lemma {:induction false} OpenFromKeepsOne(outs: Outputs, primary: Handle, ps: seq<Profile>, i: nat, replies: Replies)
    requires i <= |ps| && OnePerProfile(outs) && FreshFrom(outs, ps, i, replies)
    ensures OnePerProfile(OpenFrom(outs, primary, ps, i, replies))
    decreases |ps| - i
  {
    if i < |ps| {
      OpenOneKeepsOne(outs, primary, ps[i], replies(ps[i].id));
      FreshAfterOne(outs, primary, ps, i, replies);
      hide OnePerProfile, OpenOne, FreshFrom;
      OpenFromKeepsOne(OpenOne(outs, primary, ps[i], replies(ps[i].id)), primary, ps, i + 1, replies);
    }
  }

  /** Old entries stay as they are; a new one is uncounted, for a listed profile, under a handle the client gave. */
  ghost predicate Grows(outs: Outputs, outs': Outputs, ps: seq<Profile>) {
    && (forall h | h in outs :: h in outs' && outs'[h] == outs[h])
    && (forall h | h in outs' && h !in outs ::
          h != 0
          && (outs'[h].Opened? ==>
                outs'[h].openCount == 0 && outs'[h].profile in ps && Unopened(outs, outs'[h])))
  }

  ghost predicate Unopened(outs: Outputs, d: Descriptor)
    requires d.Opened?
  {
    d.flags == d.profile.flags && !Special(d.flags) && !HasOutput(outs, d.profile)
  }

  lemma OpenFromGrows(outs: Outputs, primary: Handle, ps: seq<Profile>, replies: Replies)
    requires Distinct(ps) && FreshFrom(outs, ps, 0, replies)
    ensures Grows(outs, OpenFrom(outs, primary, ps, 0, replies), ps)
  {
    var outs' := OpenFrom(outs, primary, ps, 0, replies);
    forall h | h in outs ensures h in outs' && outs'[h] == outs[h] {
      OpenFromMeans(outs, primary, ps, 0, replies, h, outs[h]);
    }
    forall h | h in outs' && h !in outs
      ensures h != 0
      ensures outs'[h].Opened? ==> outs'[h].openCount == 0 && outs'[h].profile in ps && Unopened(outs, outs'[h])
    {
      OpenFromMeans(outs, primary, ps, 0, replies, h, outs'[h]);
      var k :| 0 <= k < |ps| && Adds(outs, primary, ps[k], replies(ps[k].id), h, outs'[h]);
    }
  }

  lemma HasOnlyIfOpens(outs: Outputs, primary: Handle, ps: seq<Profile>, replies: Replies, k: nat)
    requires Distinct(ps) && FreshFrom(outs, ps, 0, replies) && k < |ps|
    ensures HasOutput(OpenFrom(outs, primary, ps, 0, replies), ps[k])
            ==> HasOutput(outs, ps[k]) || Opens(ps[k], replies(ps[k].id))
  {
    var outs' := OpenFrom(outs, primary, ps, 0, replies);
    if HasOutput(outs', ps[k]) {
      var h :| Holds(outs', h, ps[k]);
      OpenFromMeans(outs, primary, ps, 0, replies, h, outs'[h]);
      if Entry(outs, h, outs'[h]) {
        assert Holds(outs, h, ps[k]);
      } else {
        var j :| 0 <= j < |ps| && Adds(outs, primary, ps[j], replies(ps[j].id), h, outs'[h]);
        assert ps[j] == ps[k];
      }
    }
  }

  /** A listed profile has an output afterwards exactly when it had one or its opening succeeds. */
  lemma OpenFromHas(outs: Outputs, primary: Handle, ps: seq<Profile>, replies: Replies, k: nat)
    requires Distinct(ps) && FreshFrom(outs, ps, 0, replies) && k < |ps|
    ensures HasOutput(OpenFrom(outs, primary, ps, 0, replies), ps[k])
            <==> HasOutput(outs, ps[k]) || Opens(ps[k], replies(ps[k].id))
  {
    var outs' := OpenFrom(outs, primary, ps, 0, replies);
    var r := replies(ps[k].id);
    OpenFromGrows(outs, primary, ps, replies);
    if HasOutput(outs, ps[k]) {
      var h :| Holds(outs, h, ps[k]);
      assert Holds(outs', h, ps[k]);
    } else if Opens(ps[k], r) {
      var e := Opened(ps[k], ps[k].flags, r.params, 0);
      assert Adds(outs, primary, ps[k], r, r.output, e);
      OpenFromMeans(outs, primary, ps, 0, replies, r.output, e);
      assert Holds(outs', r.output, ps[k]);
    } else {
      HasOnlyIfOpens(outs, primary, ps, replies, k);
    }
  }

  /** If no listed profile ends up with an output, nothing was opened. */
  lemma NoneOpenNothingOpened(outs: Outputs, primary: Handle, ps: seq<Profile>, replies: Replies)
    requires Distinct(ps) && FreshFrom(outs, ps, 0, replies) && !AnyOpen(OpenFrom(outs, primary, ps, 0, replies), ps)
    ensures OpenFrom(outs, primary, ps, 0, replies) == outs
  {
    var outs' := OpenFrom(outs, primary, ps, 0, replies);
    forall h, e ensures Entry(outs', h, e) <==> Entry(outs, h, e) {
      OpenFromMeans(outs, primary, ps, 0, replies, h, e);
      if AddsFrom(outs, primary, ps, 0, replies, h, e) {
        var k :| 0 <= k < |ps| && Adds(outs, primary, ps[k], replies(ps[k].id), h, e);
        OpenFromHas(outs, primary, ps, replies, k);
        assert false;
      }
    }
    SameEntries(outs', outs);
  }

  /* ---------- one connection ---------- */

  /** At most one output per profile, every output's profile reaches an available device, no zero handle. */
  ghost predicate Sound(outs: Outputs, avail: set<Device>) {
    OnePerProfile(outs) && Reachable(outs, avail) && 0 !in outs
  }

  ghost predicate FreshFor(c: Platform, outs: Outputs, d: Device, replies: Replies) {
    FreshFrom(outs, Candidates(c.modules, d), 0, replies)
  }

  lemma SubsetKeepsOne(outs: Outputs, outs': Outputs)
    requires OnePerProfile(outs) && forall h | h in outs' :: h in outs && outs'[h] == outs[h]
    ensures OnePerProfile(outs')
  {
    forall g, h, p | Holds(outs', g, p) && Holds(outs', h, p) ensures g == h {
      assert Holds(outs, g, p) && Holds(outs, h, p);
    }
  }

  lemma OpenForSound(c: Platform, s: Policy, d: Device, replies: Replies)
    requires DistinctModules(c.modules) && Sound(s.outs, s.avail) && FreshFor(c, s.outs, d, replies)
    ensures Sound(OpenFor(c, s.outs, d, replies), s.avail + {d})
    ensures Grows(s.outs, OpenFor(c, s.outs, d, replies), Candidates(c.modules, d))
  {
    var ps := Candidates(c.modules, d);
    var outs' := OpenFor(c, s.outs, d, replies);
    CandidatesDistinct(c.modules, d);
    OpenFromKeepsOne(s.outs, c.primary, ps, 0, replies);
    OpenFromGrows(s.outs, c.primary, ps, replies);
    forall h | h in outs' && outs'[h].Opened? ensures outs'[h].profile.supported * (s.avail + {d}) != {} {
      if h in s.outs {
        var x :| x in s.outs[h].profile.supported * s.avail;
        assert x in outs'[h].profile.supported * (s.avail + {d});
      } else {
        CandidatesMean(c.modules, d, outs'[h].profile);
        assert d in outs'[h].profile.supported * (s.avail + {d});
      }
    }
  }

  /** A device no output can be opened for leaves the table as it was. */
  lemma UnroutedChangesNothing(c: Platform, s: Policy, d: Device, replies: Replies)
    requires DistinctModules(c.modules) && FreshFor(c, s.outs, d, replies) && !Routed(c, s.outs, d, replies)
    ensures OpenFor(c, s.outs, d, replies) == s.outs
  {
    CandidatesDistinct(c.modules, d);
    NoneOpenNothingOpened(s.outs, c.primary, Candidates(c.modules, d), replies);
  }

  /** What the closing loop leaves: of the old outputs exactly those that are not ordinary direct ones for the device,
      unchanged; no ordinary direct output for the device; new ones only for listed profiles. */
  ghost predicate ClosedDown(outs: Outputs, outs': Outputs, d: Device, ps: seq<Profile>) {
    && (forall h | h in outs' && outs'[h].Opened? && d in outs'[h].profile.supported :: !OrdinaryDirect(outs'[h].flags))
    && (forall h | h in outs :: if h in outs' then outs'[h] == outs[h] else true)
    && (forall h | h in outs :: h !in outs' <==> h in ForceClosed(outs, d))
    && (forall h | h in outs' && h !in outs && outs'[h].Opened? :: outs'[h].profile in ps && Unopened(outs, outs'[h]))
  }

  /** A successful registration makes the device available, closes down, and opens each ordinary profile that opens. */
  ghost predicate Registered(c: Platform, s: Policy, s': Policy, d: Device, replies: Replies) {
    && s'.avail == s.avail + {d}
    && ClosedDown(s.outs, s'.outs, d, Candidates(c.modules, d))
    && (forall p | p in Candidates(c.modules, d) && !HasOutput(s.outs, p) && Direct !in p.flags ::
          Opens(p, replies(p.id)) ==> HasOutput(s'.outs, p))
  }

  lemma ClosingLoopLeaves(outs: Outputs, grown: Outputs, d: Device, ps: seq<Profile>)
    requires Grows(outs, grown, ps)
    ensures ClosedDown(outs, CloseOrdinaryDirect(grown, d), d, ps)
  {
    hide Special, Unopened;
  }

  lemma RegisterAchieves(c: Platform, s: Policy, d: Device, replies: Replies)
    requires DistinctModules(c.modules) && Sound(s.outs, s.avail) && FreshFor(c, s.outs, d, replies)
    requires Register(c, s, d, replies).1 == NoError
    ensures Registered(c, s, Register(c, s, d, replies).0, d, replies)
  {
    var ps := Candidates(c.modules, d);
    var grown := OpenFor(c, s.outs, d, replies);
    var s' := Register(c, s, d, replies).0;
    hide ClosedDown, OpenFor, CloseOrdinaryDirect, HasOutput, Opens, Sound, Routed, Grows, FreshFor, DistinctModules;
    OpenForSound(c, s, d, replies);
    ClosingLoopLeaves(s.outs, grown, d, ps);
    forall p | p in ps && !HasOutput(s.outs, p) && Direct !in p.flags && Opens(p, replies(p.id))
      ensures HasOutput(s'.outs, p)
    {
      NewProfileOpened(c, s, d, replies, p);
    }
  }

  lemma NewStays(outs: Outputs, grown: Outputs, d: Device, ps: seq<Profile>, p: Profile)
    requires Grows(outs, grown, ps) && HasOutput(grown, p) && !HasOutput(outs, p) && Direct !in p.flags
    ensures HasOutput(CloseOrdinaryDirect(grown, d), p)
  {
    var h :| Holds(grown, h, p);
    assert h !in outs by {
      assert !Holds(outs, h, p);
    }
    assert h !in ForceClosed(grown, d);
    assert Holds(CloseOrdinaryDirect(grown, d), h, p);
  }

  lemma NewProfileOpened(c: Platform, s: Policy, d: Device, replies: Replies, p: Profile)
    requires DistinctModules(c.modules) && Sound(s.outs, s.avail) && FreshFor(c, s.outs, d, replies)
    requires p in Candidates(c.modules, d) && !HasOutput(s.outs, p) && Direct !in p.flags && Opens(p, replies(p.id))
    ensures HasOutput(CloseOrdinaryDirect(OpenFor(c, s.outs, d, replies), d), p)
  {
    var ps := Candidates(c.modules, d);
    var grown := OpenFor(c, s.outs, d, replies);
    var k :| 0 <= k < |ps| && ps[k] == p;
    OpenForSound(c, s, d, replies);
    CandidatesDistinct(c.modules, d);
    OpenFromHas(s.outs, c.primary, ps, replies, k);
    hide Candidates, OpenFrom, FreshFrom, Sound, DistinctModules, Opens, Distinct;
    NewStays(s.outs, grown, d, ps, p);
  }

  /** A disconnection closes exactly the outputs that only the device kept reachable. */
  lemma DisconnectClosesExactly(s: Policy, d: Device, h: Handle)
    requires Sound(s.outs, s.avail) && d in s.avail && h in s.outs
    ensures var (s', status) := Disconnect(s, d);
            && status == NoError && s'.avail == s.avail - {d} && s'.outs.Keys <= s.outs.Keys
            && (h !in s'.outs <==> s.outs[h].Opened? && s.outs[h].profile.supported * s.avail == {d})
            && (h in s'.outs ==> s'.outs[h] == s.outs[h])
  {
    if s.outs[h].Opened? {
      var reach := s.outs[h].profile.supported;
      assert reach * s.avail != {};
      assert reach * (s.avail - {d}) == reach * s.avail - {d};
    }
  }

  lemma DisconnectSound(s: Policy, d: Device)
    requires Sound(s.outs, s.avail)
    ensures Sound(Disconnect(s, d).0.outs, Disconnect(s, d).0.avail)
    ensures Evolves(s.outs, Disconnect(s, d).0.outs)
  {
    SubsetKeepsOne(s.outs, Disconnect(s, d).0.outs);
  }

  /** What registering starts from: the policy with the FM mode claimed, if the device is FM. */
  function Claimed(s: Policy, d: Device, analog: bool): Policy {
    if d == Fm && s.settings.fm == FmNone then s.(settings := ForceUse.FmOn(s.settings, analog).value) else s
  }

  /** A connection that gets past its first checks registers the device, and then its microphone. */
  lemma ConnectionRegisters(c: Platform, s: Policy, d: Device, analog: bool, replies: Replies)
    requires Supported(c, d) && (d == Fm ==> s.settings.fm == FmNone)
    ensures SetDeviceConnectionState(c, s, Output(d), true, Available, analog, replies)
            == var (s1, status) := Register(c, Claimed(s, d, analog), d, replies);
               if status == NoError && Paired(d).Some? then InputHalf(s1, Paired(d).value, Available) else (s1, status)
  {
    hide Register, Paired, InputHalf;
  }

  lemma RegistersExactly(c: Platform, s: Policy, d: Device, replies: Replies)
    ensures Register(c, s, d, replies).1 == NoError <==> d !in s.avail && Routed(c, s.outs, d, replies)
    ensures var (s', status) := Register(c, s, d, replies);
            && s'.inputs == s.inputs && s'.settings == s.settings
            && s'.avail == (if status == NoError then s.avail + {d} else s.avail)
  {
    hide OpenFor, Routed, ForceClosed;
  }

  /** The output half of a connection succeeds. */
  ghost predicate Connects(c: Platform, s: Policy, d: Device, replies: Replies) {
    Supported(c, d) && (d == Fm ==> s.settings.fm == FmNone) && d !in s.avail && Routed(c, s.outs, d, replies)
  }

  /** A connection succeeds exactly when its output half does and the paired input is not there yet. */
  lemma ConnectionSucceedsExactly(c: Platform, s: Policy, d: Device, addressFits: bool, analog: bool, replies: Replies)
    ensures SetDeviceConnectionState(c, s, Output(d), addressFits, Available, analog, replies).1 == NoError
            <==> addressFits && Connects(c, s, d, replies) && (Paired(d).Some? ==> Paired(d).value !in s.inputs)
  {
    if addressFits && Supported(c, d) && (d == Fm ==> s.settings.fm == FmNone) {
      ConnectionRegisters(c, s, d, analog, replies);
      RegistersExactly(c, Claimed(s, d, analog), d, replies);
      hide SetDeviceConnectionState, Register, Routed;
    } else {
      hide Register, Routed;
    }
  }

  lemma RegisteredCloses(c: Platform, s: Policy, d: Device, replies: Replies)
    requires DistinctModules(c.modules) && Sound(s.outs, s.avail) && FreshFor(c, s.outs, d, replies)
    requires Register(c, s, d, replies).1 == NoError
    ensures ClosedDown(s.outs, Register(c, s, d, replies).0.outs, d, Candidates(c.modules, d))
  {
    RegisterAchieves(c, s, d, replies);
  }

  lemma MicrophoneFollows(s: Policy, d: Device)
    requires Paired(d).Some?
    ensures var t := InputHalf(s, Paired(d).value, Available).0;
            t.outs == s.outs && t.avail == s.avail && t.inputs == s.inputs + {Paired(d).value}
  {
  }

  /** What a connection achieves once its output half succeeds. */
  lemma ConnectionAchieves(c: Platform, s: Policy, d: Device, analog: bool, replies: Replies)
    requires DistinctModules(c.modules) && Sound(s.outs, s.avail) && FreshFor(c, s.outs, d, replies)
    requires Connects(c, s, d, replies)
    ensures var s1 := SetDeviceConnectionState(c, s, Output(d), true, Available, analog, replies).0;
            && s1.avail == s.avail + {d} && ClosedDown(s.outs, s1.outs, d, Candidates(c.modules, d))
            && s1.inputs == s.inputs + (if Paired(d).Some? then {Paired(d).value} else {})
  {
    var base := Claimed(s, d, analog);
    assert base.outs == s.outs && base.avail == s.avail && base.inputs == s.inputs;
    ConnectionRegisters(c, s, d, analog, replies);
    RegistersExactly(c, base, d, replies);
    RegisteredCloses(c, base, d, replies);
    var s1 := Register(c, base, d, replies).0;
    if Paired(d).Some? {
      MicrophoneFollows(s1, d);
    }
    hide SetDeviceConnectionState, Register, Sound, FreshFor, DistinctModules, ClosedDown, Candidates, Routed;
    hide Claimed, InputHalf, Paired;
  }

  lemma DisconnectionRuns(c: Platform, s: Policy, d: Device, analog: bool, replies: Replies)
    requires Supported(c, d) && d in s.avail
    ensures var (s2, status) := SetDeviceConnectionState(c, s, Output(d), true, Unavailable, analog, replies);
            var avail, i := s.avail - {d}, Paired(d);
            && s2.avail == avail && s2.outs == s.outs - Orphans(s.outs, avail)
            && (status == NoError <==> i.None? || i.value in s.inputs)
            && s2.inputs == if i.Some? then s.inputs - {i.value} else s.inputs
  {
    hide Orphans, Paired, ForceUse.FmOff;
  }

  /** Connecting a device and disconnecting it again restores the devices on both sides; of the outputs it keeps exactly
      those that are not ordinary direct ones for the device. */
  lemma ConnectThenDisconnect(c: Platform, s: Policy, d: Device, analog: bool, replies: Replies)
    requires DistinctModules(c.modules) && Sound(s.outs, s.avail) && FreshFor(c, s.outs, d, replies)
    requires SetDeviceConnectionState(c, s, Output(d), true, Available, analog, replies).1 == NoError
    ensures var s1 := SetDeviceConnectionState(c, s, Output(d), true, Available, analog, replies).0;
            var (s2, status) := SetDeviceConnectionState(c, s1, Output(d), true, Unavailable, analog, replies);
            && d in s1.avail && (Paired(d).Some? ==> Paired(d).value in s1.inputs)
            && status == NoError && s2.avail == s.avail && s2.inputs == s.inputs
            && (forall h | h in s.outs :: h !in s2.outs <==> h in ForceClosed(s.outs, d))
            && (forall h | h in s.outs && h in s2.outs :: s2.outs[h] == s.outs[h])
  {
    ConnectionSucceedsExactly(c, s, d, true, analog, replies);
    ConnectionAchieves(c, s, d, analog, replies);
    var s1 := SetDeviceConnectionState(c, s, Output(d), true, Available, analog, replies).0;
    DisconnectionRuns(c, s1, d, analog, replies);
    hide SetDeviceConnectionState, Routed, Sound, FreshFor, DistinctModules, Orphans, ClosedDown, Candidates;
    KeptReachable(s, s1, d, Candidates(c.modules, d));
  }

  lemma KeptReachable(s: Policy, s1: Policy, d: Device, ps: seq<Profile>)
    requires Sound(s.outs, s.avail) && d !in s.avail && s1.avail == s.avail + {d}
    requires ClosedDown(s.outs, s1.outs, d, ps)
    ensures s1.avail - {d} == s.avail
    ensures var kept := s1.outs - Orphans(s1.outs, s.avail);
            && (forall h | h in s.outs :: h !in kept <==> h in ForceClosed(s.outs, d))
            && (forall h | h in s.outs && h in kept :: kept[h] == s.outs[h])
  {
    hide OrdinaryDirect, Unopened, ForceClosed, OnePerProfile;
  }

  /** Once its output half succeeds, a connection closes an open output exactly when it is an ordinary direct one whose
      profile supports the device, held or not and whatever the status; it changes no other. */
  lemma ConnectionClosesExactly(c: Platform, s: Policy, d: Device, analog: bool, replies: Replies, h: Handle)
    requires DistinctModules(c.modules) && Sound(s.outs, s.avail) && FreshFor(c, s.outs, d, replies)
    requires Connects(c, s, d, replies) && h in s.outs
    ensures var s' := SetDeviceConnectionState(c, s, Output(d), true, Available, analog, replies).0;
            && (h !in s'.outs <==>
                  s.outs[h].Opened? && d in s.outs[h].profile.supported && Direct in s.outs[h].flags
                  && s.outs[h].flags !! {Lpa, Tunnel, VoipRx})
            && (h in s'.outs ==> s'.outs[h] == s.outs[h])
  {
    ConnectionAchieves(c, s, d, analog, replies);
    hide SetDeviceConnectionState, Sound, FreshFor, DistinctModules, Unopened, Candidates, Connects;
  }

  /** The FM mode is free, so a connection of FM takes it. */
  predicate ClaimsFm(s: Policy, d: Device) {
    d == Fm && s.settings.fm == FmNone
  }

  /** The output half succeeds, and the paired input is already there. */
  ghost predicate OnlyMicrophoneFails(c: Platform, s: Policy, d: Device, replies: Replies) {
    Connects(c, s, d, replies) && Paired(d).Some? && Paired(d).value in s.inputs
  }

  lemma FailedRegisterKeeps(c: Platform, s: Policy, d: Device, replies: Replies)
    requires DistinctModules(c.modules) && FreshFor(c, s.outs, d, replies)
    ensures Register(c, s, d, replies).1 != NoError ==> Register(c, s, d, replies).0 == s
  {
    hide OpenFor, Routed, FreshFor, DistinctModules;
    if !Routed(c, s.outs, d, replies) {
      UnroutedChangesNothing(c, s, d, replies);
    }
  }

  /** A connection that reports failure leaves the policy as it was, except exactly when only its microphone half failed
      or when it claimed the FM mode. */
  lemma FailedConnectExactly(c: Platform, s: Policy, d: Device, addressFits: bool, analog: bool, replies: Replies)
    requires DistinctModules(c.modules) && FreshFor(c, s.outs, d, replies)
    requires SetDeviceConnectionState(c, s, Output(d), addressFits, Available, analog, replies).1 != NoError
    ensures var s' := SetDeviceConnectionState(c, s, Output(d), addressFits, Available, analog, replies).0;
            && (s'.outs == s.outs && s'.avail == s.avail <==> !(addressFits && OnlyMicrophoneFails(c, s, d, replies)))
            && (s'.settings == s.settings <==> !(addressFits && ClaimsFm(s, d)))
            && (s' == s <==> !(addressFits && (OnlyMicrophoneFails(c, s, d, replies) || ClaimsFm(s, d))))
  {
    if addressFits && Supported(c, d) && (d == Fm ==> s.settings.fm == FmNone) {
      var base := Claimed(s, d, analog);
      ConnectionRegisters(c, s, d, analog, replies);
      RegistersExactly(c, base, d, replies);
      FailedRegisterKeeps(c, base, d, replies);
      hide SetDeviceConnectionState, Register, Routed;
    } else {
      hide Register, Routed;
    }
  }

  /** A disconnection that reports failure leaves everything alone, except exactly when it gave FM state back, or when
      only its microphone half failed, because the paired input was not there. */
  lemma FailedDisconnectExactly(c: Platform, s: Policy, d: Device, addressFits: bool, analog: bool, replies: Replies)
    requires SetDeviceConnectionState(c, s, Output(d), addressFits, Unavailable, analog, replies).1 != NoError
    ensures var s' := SetDeviceConnectionState(c, s, Output(d), addressFits, Unavailable, analog, replies).0;
            s' == s <==>
              !(addressFits
                && ((d == Fm && (s.settings.fm != FmNone || s.settings.pendingForceNone))
                    || (Supported(c, d) && d in s.avail && Paired(d).Some? && Paired(d).value !in s.inputs)))
  {
    hide Orphans;
  }

  /** A device whose microphone is already there fails to connect, and an output opened for it stays open. */
  lemma FailedConnectKeepsOutput(c: Platform, s: Policy, d: Device, analog: bool, replies: Replies, p: Profile)
    requires DistinctModules(c.modules) && Sound(s.outs, s.avail) && FreshFor(c, s.outs, d, replies)
    requires Supported(c, d) && d !in s.avail && Paired(d).Some? && Paired(d).value in s.inputs
    requires p in Candidates(c.modules, d) && !HasOutput(s.outs, p) && Direct !in p.flags && Opens(p, replies(p.id))
    ensures var (s', status) := SetDeviceConnectionState(c, s, Output(d), true, Available, analog, replies);
            status == InvalidOperation && d in s'.avail && HasOutput(s'.outs, p)
  {
    var ps := Candidates(c.modules, d);
    var k :| 0 <= k < |ps| && ps[k] == p;
    CandidatesDistinct(c.modules, d);
    OpenFromHas(s.outs, c.primary, ps, replies, k);
    assert Routed(c, s.outs, d, replies);
    NewProfileOpened(c, s, d, replies, p);
    ConnectionRegisters(c, s, d, analog, replies);
    RegistersExactly(c, s, d, replies);
    hide OpenFor, Routed, HasOutput, Opens, CloseOrdinaryDirect, Candidates, Sound, DistinctModules, FreshFor;
    hide SetDeviceConnectionState;
  }

  const HEADSET_PROFILE := Profile(0, {WiredHeadset}, {})
  const HEADSET_PLATFORM := Platform([HwModule(true, [HEADSET_PROFILE])], false, false, false, 1)
  const MICROPHONE_FIRST := Policy(map[], {}, {InWiredHeadset}, ForceUse.BOOT)

  lemma HeadsetCandidates()
    ensures Candidates(HEADSET_PLATFORM.modules, WiredHeadset) == [HEADSET_PROFILE]
    ensures DistinctModules(HEADSET_PLATFORM.modules)
  {
    var ms, ps := HEADSET_PLATFORM.modules, [HEADSET_PROFILE];
    assert ms[..0] == [] && ps[..0] == [];
    assert Candidates([], WiredHeadset) == [] && Supporting([], WiredHeadset) == [];
    assert Supporting(ps, WiredHeadset) == Supporting(ps[..0], WiredHeadset) + [HEADSET_PROFILE];
  }

  /** A platform and a state where that happens: the headset's microphone was announced first. */
  lemma MicrophoneFirstLeavesOutput(replies: Replies)
    requires replies(0).output == 2 && replies(0).duplicate == 3
    ensures var (s', status) := SetDeviceConnectionState(HEADSET_PLATFORM, MICROPHONE_FIRST, Output(WiredHeadset), true,
                                                         Available, false, replies);
            status == InvalidOperation && WiredHeadset in s'.avail && HasOutput(s'.outs, HEADSET_PROFILE)
  {
    HeadsetCandidates();
    var outs := MICROPHONE_FIRST.outs;
    assert !HasOutput(outs, HEADSET_PROFILE);
    assert Sound(outs, {});
    assert FreshFor(HEADSET_PLATFORM, outs, WiredHeadset, replies);
    assert HEADSET_PROFILE in [HEADSET_PROFILE];
    hide Candidates, DistinctModules, FreshFor, Sound, SetDeviceConnectionState, HasOutput;
    FailedConnectKeepsOutput(HEADSET_PLATFORM, MICROPHONE_FIRST, WiredHeadset, false, replies, HEADSET_PROFILE);
  }

  /** An FM connection that fails while the mode is free claims the mode anyway: FM cannot connect again, whatever the
      client would open, until a disconnection gives the mode back, which reports failure unless FM was there. */
  lemma FailedFmConnectBlocks(c: Platform, s: Policy, analog: bool, replies: Replies, again: bool, replies': Replies)
    requires DistinctModules(c.modules) && FreshFor(c, s.outs, Fm, replies)
    requires s.settings.fm == FmNone && !Connects(c, s, Fm, replies)
    ensures var (s1, r1) := SetDeviceConnectionState(c, s, Output(Fm), true, Available, analog, replies);
            var (s2, r2) := SetDeviceConnectionState(c, s1, Output(Fm), true, Available, again, replies');
            var (s3, r3) := SetDeviceConnectionState(c, s2, Output(Fm), true, Unavailable, again, replies');
            && r1 == r2 == InvalidOperation
            && s1 == s2 == s.(settings := s.settings.(fm := if analog then FmAnalog else FmDigital))
            && s3.settings.fm == FmNone && s3.avail == s.avail - {Fm}
            && (r3 == NoError <==> Fm in s.avail)
            && (Fm !in s.avail ==> s3.outs == s.outs)
  {
    if Fm !in s.avail {
      UnroutedChangesNothing(c, s, Fm, replies);
    }
    hide OpenFor, Routed, Orphans;
  }

  /* ---------- every step and every run ---------- */

  /** The open count of a direct output is the number of gets its clients have not released. */
  ghost predicate Counted(outs: Outputs, held: map<Handle, nat>) {
    && held.Keys <= outs.Keys
    && (forall h | h in outs && Direct in Flags(outs[h]) :: outs[h].openCount == Count(held, h))
  }

  ghost predicate Inv(s: System) {
    && Sound(s.policy.outs, s.policy.avail)
    && Counted(s.policy.outs, s.held)
    && ForceUse.Refines(s.policy.settings, s.last)
  }

  lemma RegisterSound(c: Platform, s: Policy, d: Device, replies: Replies)
    requires DistinctModules(c.modules) && Sound(s.outs, s.avail) && FreshFor(c, s.outs, d, replies)
    ensures Sound(Register(c, s, d, replies).0.outs, Register(c, s, d, replies).0.avail)
    ensures Evolves(s.outs, Register(c, s, d, replies).0.outs)
  {
    if d !in s.avail {
      OpenForSound(c, s, d, replies);
      var grown := OpenFor(c, s.outs, d, replies);
      SubsetKeepsOne(grown, CloseOrdinaryDirect(grown, d));
      if !Routed(c, s.outs, d, replies) {
        UnroutedChangesNothing(c, s, d, replies);
      }
      hide OpenFor, OnePerProfile, Routed, ForceClosed, Unopened;
    }
  }

  /** No entry changes its count, and new ones start at zero. */
  ghost predicate Evolves(outs: Outputs, outs': Outputs) {
    forall h | h in outs' ::
      if h in outs then outs'[h] == outs[h] else outs'[h].Opened? ==> outs'[h].openCount == 0
  }

  lemma EvolvesCounted(outs: Outputs, outs': Outputs, held: map<Handle, nat>)
    requires Counted(outs, held) && Evolves(outs, outs')
    ensures Counted(outs', StillOpen(held, outs'))
  {
  }

  ghost predicate FreshOutput(c: Platform, s: Policy, e: Endpoint, conn: Connection, replies: Replies) {
    e.Output? && conn == Available ==> FreshFor(c, s.outs, e.device, replies)
  }

  lemma OutputHalfSound(c: Platform, s: Policy, d: Device, conn: Connection, analog: bool, replies: Replies)
    requires DistinctModules(c.modules) && Sound(s.outs, s.avail)
    requires conn == Available ==> FreshFor(c, s.outs, d, replies)
    ensures var s' := OutputHalf(c, s, d, conn, analog, replies).0;
            Sound(s'.outs, s'.avail) && Evolves(s.outs, s'.outs)
  {
    assert Evolves(s.outs, s.outs);
    hide Sound, Evolves, Register, Disconnect, FreshFor;
    match conn
    case Available =>
      RegisterSound(c, s, d, replies);
      if d == Fm && s.settings.fm == FmNone {
        RegisterSound(c, s.(settings := ForceUse.FmOn(s.settings, analog).value), d, replies);
      }
    case Unavailable => DisconnectSound(s, d);
    case OtherState =>
  }

  lemma ConnectionSound(c: Platform, s: Policy, e: Endpoint, fits: bool, conn: Connection, analog: bool,
                        replies: Replies)
    requires DistinctModules(c.modules) && Sound(s.outs, s.avail) && FreshOutput(c, s, e, conn, replies)
    ensures var s' := SetDeviceConnectionState(c, s, e, fits, conn, analog, replies).0;
            Sound(s'.outs, s'.avail) && Evolves(s.outs, s'.outs)
  {
    assert Evolves(s.outs, s.outs);
    if e.Output? {
      OutputHalfSound(c, s, e.device, conn, analog, replies);
    }
    hide OutputHalf, Sound, Evolves;
  }

  /** A connection changes the settings only by claiming or giving back the FM mode. */
  lemma ConnectionRefines(c: Platform, s: Policy, e: Endpoint, fits: bool, conn: Connection, analog: bool,
                          replies: Replies, last: Forced)
    requires ForceUse.Refines(s.settings, last)
    ensures ForceUse.Refines(SetDeviceConnectionState(c, s, e, fits, conn, analog, replies).0.settings, last)
  {
    ForceUse.FmRefines(s.settings, last, analog);
    hide OpenFor, Routed, ForceUse.FmOff;
  }

  /** What a direct get may assume about its profile. */
  lemma {:induction false} FirstEligibleMeans(ps: seq<Profile>, i: nat, q: Request, avail: set<Device>)
    requires i <= |ps|
    ensures match FirstEligible(ps, i, q, avail)
            case None => forall k | i <= k < |ps| :: !Eligible(ps[k], q, avail)
            case Some(p) => exists k :: i <= k < |ps| && ps[k] == p && Eligible(p, q, avail)
                                        && forall j | i <= j < k :: !Eligible(ps[j], q, avail)
    decreases |ps| - i
  {
    if i < |ps| {
      FirstEligibleMeans(ps, i + 1, q, avail);
    }
  }

  ghost predicate NoneEligible(ms: seq<HwModule>, lo: nat, hi: nat, q: Request, avail: set<Device>)
    requires hi <= |ms|
  {
    forall i, j | lo <= i < hi && ms[i].loaded && 0 <= j < |ms[i].profiles| :: !Eligible(ms[i].profiles[j], q, avail)
  }

  /** The first eligible profile of the loaded modules, in module order, and none only when there is none. */
  lemma {:induction false} FirstDirectMeans(ms: seq<HwModule>, i: nat, q: Request, avail: set<Device>)
    requires i <= |ms|
    ensures match FirstDirect(ms, i, q, avail)
            case None => NoneEligible(ms, i, |ms|, q, avail)
            case Some(p) =>
              exists m, k :: i <= m < |ms| && ms[m].loaded && 0 <= k < |ms[m].profiles| && ms[m].profiles[k] == p
                             && Eligible(p, q, avail) && NoneEligible(ms, i, m, q, avail)
                             && forall j | 0 <= j < k :: !Eligible(ms[m].profiles[j], q, avail)
    decreases |ms| - i
  {
    if i < |ms| {
      FirstEligibleMeans(ms[i].profiles, 0, q, avail);
      FirstDirectMeans(ms, i + 1, q, avail);
      hide Eligible;
    }
  }

  lemma DirectProfileEligible(ms: seq<HwModule>, q: Request, avail: set<Device>)
    ensures DirectProfile(ms, q, avail).Some? ==>
              Direct in RequestFlags(q) && Eligible(DirectProfile(ms, q, avail).value, q, avail)
  {
    FirstDirectMeans(ms, 0, q, avail);
  }

  /** A direct get reuses, or closes what the profile had and opens at most one new output. */
  lemma GetDirectSound(outs: Outputs, avail: set<Device>, p: Profile, q: Request)
    requires Sound(outs, avail) && avail * p.supported != {} && q.reply.output !in outs
    ensures Sound(GetDirect(outs, p, q).0, avail)
  {
    var (outs', h) := GetDirect(outs, p, q);
    forall g, k, r | Holds(outs', g, r) && Holds(outs', k, r) ensures g == k {
      assert g in outs ==> Holds(outs, g, r);
      assert k in outs ==> Holds(outs, k, r);
    }
    assert p.supported * avail == avail * p.supported;
  }

  lemma GetDirectCounted(outs: Outputs, held: map<Handle, nat>, p: Profile, q: Request)
    requires Counted(outs, held) && 0 !in outs && q.reply.output !in outs
    ensures var (outs', h) := GetDirect(outs, p, q);
            var kept := StillOpen(held, outs');
            Counted(outs', if h != 0 then kept[h := Count(kept, h) + 1] else kept)
  {
  }

  lemma ReleaseSound(outs: Outputs, avail: set<Device>, h: Handle)
    requires Sound(outs, avail)
    ensures Sound(Release(outs, h), avail)
  {
    var outs' := Release(outs, h);
    forall g, k, r | Holds(outs', g, r) && Holds(outs', k, r) ensures g == k {
      assert Holds(outs, g, r) && Holds(outs, k, r);
    }
  }

  lemma ReleaseCounted(outs: Outputs, held: map<Handle, nat>, h: Handle)
    requires Counted(outs, held)
    ensures Counted(Release(outs, h), StillOpen(Returned(held, h), Release(outs, h)))
  {
  }

  lemma GetKeepsInv(c: Platform, s: System, q: Request)
    requires Inv(s) && q.reply.output !in s.policy.outs
    ensures Inv(Next(c, s, GetOutput(q)))
  {
    var outs, avail := s.policy.outs, s.policy.avail;
    DirectProfileEligible(c.modules, q, avail);
    var found := DirectProfile(c.modules, q, avail);
    if found.Some? {
      GetDirectSound(outs, avail, found.value, q);
      GetDirectCounted(outs, s.held, found.value, q);
    } else {
      EvolvesCounted(outs, outs, s.held);
    }
    hide DirectProfile, GetDirect, Sound, Counted, StillOpen, ForceUse.Refines;
  }

  lemma ConnectionKeepsInv(c: Platform, s: System, e: Event)
    requires DistinctModules(c.modules) && Inv(s) && e.SetConnection? && Enabled(c, s, e)
    ensures Inv(Next(c, s, e))
  {
    ConnectionSound(c, s.policy, e.endpoint, e.addressFits, e.conn, e.analog, e.replies);
    ConnectionRefines(c, s.policy, e.endpoint, e.addressFits, e.conn, e.analog, e.replies, s.last);
    hide Sound, Counted, SetDeviceConnectionState, ForceUse.Refines, StillOpen, Evolves;
    var s' := SetDeviceConnectionState(c, s.policy, e.endpoint, e.addressFits, e.conn, e.analog, e.replies).0;
    EvolvesCounted(s.policy.outs, s'.outs, s.held);
  }

  lemma NextKeepsInv(c: Platform, s: System, e: Event)
    requires DistinctModules(c.modules) && Inv(s) && Enabled(c, s, e)
    ensures Inv(Next(c, s, e))
  {
    match e
    case SetConnection(_, _, _, _, _) => ConnectionKeepsInv(c, s, e);
    case SetForceUse(usage, config) => ForceUse.SetForceUseRefines(s.policy.settings, s.last, usage, config);
    case GetOutput(q) => GetKeepsInv(c, s, q);
    case ReleaseOutput(h) =>
      ReleaseSound(s.policy.outs, s.policy.avail, h);
      ReleaseCounted(s.policy.outs, s.held, h);
      hide Sound, Counted, ForceUse.Refines, StillOpen, Release, Returned;
  }

  /** Every run keeps the invariant. */
  lemma {:induction false} RunKeepsInv(c: Platform, s: System, es: seq<Event>)
    requires DistinctModules(c.modules) && Inv(s) && ValidRun(c, s, es)
    ensures Inv(Run(c, s, es))
    decreases |es|
  {
    if es != [] {
      NextKeepsInv(c, s, es[0]);
      hide Inv, Next, Enabled;
      RunKeepsInv(c, Next(c, s, es[0]), es[1..]);
    }
  }

  /** The last valid media request of a run, from the requests alone. */
  function LastMediaRequest(last: Forced, es: seq<Event>): Forced
    decreases |es|
  {
    if es == [] then last
    else
      var next := if es[0].SetForceUse? then ForceUse.LastRequest(last, es[0].usage, es[0].config) else last;
      LastMediaRequest(next, es[1..])
  }

  lemma {:induction false} RunTracksRequests(c: Platform, s: System, es: seq<Event>)
    ensures Run(c, s, es).last == LastMediaRequest(s.last, es)
    decreases |es|
  {
    if es != [] {
      RunTracksRequests(c, Next(c, s, es[0]), es[1..]);
    }
  }

  /** After any run the media setting is the last valid request, or digital FM is still holding back a "none". */
  lemma MediaForceAfterRun(c: Platform, s: System, es: seq<Event>)
    requires DistinctModules(c.modules) && Inv(s) && ValidRun(c, s, es)
    ensures var t, last := Run(c, s, es).policy.settings, LastMediaRequest(s.last, es);
            t.forces.media == last || (t.pendingForceNone && t.fm == FmDigital && last == ForceNone)
  {
    RunKeepsInv(c, s, es);
    RunTracksRequests(c, s, es);
  }

  /** Disconnecting FM applies what was held back, even when the device turns out not to be connected. */
  lemma FmDisconnectApplies(c: Platform, s: System, analog: bool, replies: Replies)
    requires Inv(s)
    ensures var t := Next(c, s, SetConnection(Output(Fm), true, Unavailable, analog, replies)).policy.settings;
            t.forces.media == s.last && !t.pendingForceNone && t.fm == FmNone
  {
    ForceUse.FmRefines(s.policy.settings, s.last, analog);
  }

  /** An enabled connection takes an ordinary direct output for its device from every client that holds it. */
  lemma HeldOutputForceClosed(c: Platform, s: System, d: Device, analog: bool, replies: Replies, h: Handle)
    requires DistinctModules(c.modules) && Inv(s) && FreshFor(c, s.policy.outs, d, replies)
    requires Connects(c, s.policy, d, replies) && h in ForceClosed(s.policy.outs, d)
    ensures var e := SetConnection(Output(d), true, Available, analog, replies);
            var t := Next(c, s, e);
            && Enabled(c, s, e) && h !in t.policy.outs && Count(t.held, h) == 0
            && s.policy.outs[h].openCount == Count(s.held, h)
  {
    ConnectionClosesExactly(c, s.policy, d, analog, replies, h);
    hide SetDeviceConnectionState, Connects, FreshFrom, DistinctModules, Sound, ForceUse.Refines;
  }

  /* ---------- what the settings hold ---------- */

  /** The configuration last asked of a usage, valid or not. */
  function LastAsked(usage: Usage, last: Forced, es: seq<Event>): Forced
    decreases |es|
  {
    if es == [] then last
    else LastAsked(usage, if es[0].SetForceUse? && es[0].usage == usage then es[0].config else last, es[1..])
  }

  ghost predicate ListedForces(s: ForceUse.Settings) {
    && ForceUse.Listed(ForCommunication, s.forces.communication)
    && ForceUse.Listed(ForMedia, s.forces.media)
    && ForceUse.Listed(ForRecord, s.forces.record)
  }

  /** A connection leaves every setting but the media one alone. */
  lemma ConnectionForces(c: Platform, s: Policy, e: Endpoint, fits: bool, conn: Connection, analog: bool,
                         replies: Replies)
    requires ListedForces(s.settings)
    ensures var t := SetDeviceConnectionState(c, s, e, fits, conn, analog, replies).0.settings;
            ListedForces(t) && t.forces.dock == s.settings.forces.dock && t.forces.system == s.settings.forces.system
  {
    hide OpenFor, Routed, Orphans;
  }

  lemma NextForces(c: Platform, s: System, e: Event)
    requires ListedForces(s.policy.settings)
    ensures var forces, t := s.policy.settings.forces, Next(c, s, e).policy.settings;
            && ListedForces(t)
            && t.forces.dock == (if e.SetForceUse? && e.usage == ForDock then e.config else forces.dock)
            && t.forces.system == (if e.SetForceUse? && e.usage == ForSystem then e.config else forces.system)
  {
    if e.SetConnection? {
      ConnectionForces(c, s.policy, e.endpoint, e.addressFits, e.conn, e.analog, e.replies);
    }
    hide SetDeviceConnectionState, GetDirect, DirectProfile, StillOpen, Release, Returned;
  }

  /** After any run the communication, media and record settings are valid ones; the dock and system settings are
      whatever was last asked, so they are valid exactly when that was. */
  lemma {:induction false} ForcesAfterRun(c: Platform, s: System, es: seq<Event>)
    requires ListedForces(s.policy.settings)
    ensures var forces, t := s.policy.settings.forces, Run(c, s, es).policy.settings;
            && ListedForces(t)
            && t.forces.dock == LastAsked(ForDock, forces.dock, es)
            && t.forces.system == LastAsked(ForSystem, forces.system, es)
    decreases |es|
  {
    if es != [] {
      NextForces(c, s, es[0]);
      hide Next, ListedForces;
      ForcesAfterRun(c, Next(c, s, es[0]), es[1..]);
    }
  }
}
