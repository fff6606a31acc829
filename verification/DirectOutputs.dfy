/** Gets and releases of direct outputs: what each achieves, and how they cancel. */
module DirectOutputs {
  import opened PolicyTypes
  import opened Wrappers
  import opened OutputTable
  import opened PolicyProtocol
  import opened PolicySafety
  import ForceUse

  /** The parameters an output runs with honour the request; zero asks for nothing. */
  predicate Honours(asked: Params, actual: Params) {
    && (asked.rate in {0, actual.rate})
    && (asked.format in {0, actual.format})
    && (asked.channels in {0, actual.channels})
  }

  /** A direct get returns the one output of the profile, with the parameters asked for, or leaves it with
      none; outputs of other profiles stay as they are. */
  lemma GetDirectAchieves(outs: Outputs, avail: set<Device>, p: Profile, q: Request)
    requires Sound(outs, avail) && q.reply.output !in outs
    ensures var (outs', h) := GetDirect(outs, p, q);
            && Holders(outs', p) == (if h == 0 then {} else {h})
            && (h != 0 ==> Honours(q.params, outs'[h].params))
            && (h != 0 ==> outs'[h].openCount == if h in outs then outs[h].openCount + 1 else 1)
            && (h != 0 && h !in outs ==> outs'[h].flags == p.flags + RequestFlags(q))
            && (forall g | g !in Holders(outs, p) && g != h ::
                  (g in outs' <==> g in outs) && (g in outs ==> outs'[g] == outs[g]))
  {
    var (outs', h) := GetDirect(outs, p, q);
    forall g | g in Holders(outs', p) ensures g == h {
      assert g in outs ==> Holds(outs, g, p);
    }
    if h != 0 && h in outs {
      assert Holds(outs, h, p);
    }
  }

  /** A direct get that returns nothing leaves the table alone exactly when the profile had no output: one it had is
      closed before the driver is asked, whoever holds it. */
  lemma FailedGetClosesExactly(outs: Outputs, avail: set<Device>, p: Profile, q: Request)
    requires Sound(outs, avail) && q.reply.output !in outs && GetDirect(outs, p, q).1 == 0
    ensures GetDirect(outs, p, q).0 == outs - Holders(outs, p)
    ensures GetDirect(outs, p, q).0 == outs <==> !HasOutput(outs, p)
  {
    if HasOutput(outs, p) {
      var h :| Holds(outs, h, p);
      assert h in Holders(outs, p) && h !in outs - Holders(outs, p);
    } else {
      forall h ensures !Holds(outs, h, p) {}
      assert outs - Holders(outs, p) == outs;
    }
  }

  /** In a reachable state a release closes a direct output exactly when its flags say so or it is the last one held. */
  lemma ReleaseClosesExactly(s: System, h: Handle)
    requires Inv(s) && h in s.policy.outs && s.policy.outs[h].Opened? && Direct in s.policy.outs[h].flags
    ensures var outs, outs' := s.policy.outs, Release(s.policy.outs, h);
            && (h !in outs' <==> !(outs[h].flags !! {Lpa, Tunnel, VoipRx}) || Count(s.held, h) == 1)
            && (h in outs' ==>
                  outs'[h] == outs[h].(openCount := if Count(s.held, h) == 0 then 0 else Count(s.held, h) - 1))
            && (forall g | g != h :: (g in outs' <==> g in outs) && (g in outs ==> outs'[g] == outs[g]))
  {
    hide Sound;
  }

  ghost function GetTimes(outs: Outputs, p: Profile, q: Request, k: nat): Outputs {
    if k == 0 then outs else GetDirect(GetTimes(outs, p, q, k - 1), p, q).0
  }

  function ReleaseTimes(outs: Outputs, h: Handle, k: nat): Outputs {
    if k == 0 then outs else ReleaseTimes(Release(outs, h), h, k - 1)
  }

  /** The driver opens the output exactly as asked, and nothing was open for the profile. */
  ghost predicate OpensAsAsked(outs: Outputs, avail: set<Device>, p: Profile, q: Request) {
    && Sound(outs, avail) && !HasOutput(outs, p) && q.reply.output !in outs
    && q.reply.output != 0 && q.reply.params == q.params && Direct in RequestFlags(q)
  }

  function Got(p: Profile, q: Request, k: nat): Descriptor {
    Opened(p, p.flags + RequestFlags(q), q.params, k)
  }

  /** Equal gets share one output and count themselves. */
  lemma {:induction false} GetTimesCount(outs: Outputs, avail: set<Device>, p: Profile, q: Request, k: nat)
    requires OpensAsAsked(outs, avail, p, q) && k > 0
    ensures GetTimes(outs, p, q, k) == outs[q.reply.output := Got(p, q, k)]
  {
    forall g ensures !Holds(outs, g, p) {}
    if k > 1 {
      GetTimesCount(outs, avail, p, q, k - 1);
      GetAgain(outs, avail, p, q, k - 1);
    } else {
      assert Holders(outs, p) == {} && outs - {} == outs;
      assert GetTimes(outs, p, q, 0) == outs;
    }
  }

  lemma GetAgain(outs: Outputs, avail: set<Device>, p: Profile, q: Request, k: nat)
    requires OpensAsAsked(outs, avail, p, q)
    ensures GetDirect(outs[q.reply.output := Got(p, q, k)], p, q)
            == (outs[q.reply.output := Got(p, q, k + 1)], q.reply.output)
  {
    var got := outs[q.reply.output := Got(p, q, k)];
    assert Matches(got, q.reply.output, p, q.params);
    forall h | Matches(got, h, p, q.params) ensures h == q.reply.output {
      assert !Holds(outs, h, p);
    }
    var h := q.reply.output;
    assert GetDirect(got, p, q).1 == h;
    assert GetDirect(got, p, q).0 == got[h := Got(p, q, k + 1)];
    assert got[h := Got(p, q, k + 1)] == outs[h := Got(p, q, k + 1)];
  }

  lemma {:induction false} ReleaseTimesCount(outs: Outputs, p: Profile, q: Request, k: nat, j: nat)
    requires q.reply.output !in outs && Direct in RequestFlags(q) && !Special(p.flags + RequestFlags(q)) && k > 0
    ensures ReleaseTimes(outs[q.reply.output := Got(p, q, k)], q.reply.output, j)
            == if j < k then outs[q.reply.output := Got(p, q, k - j)] else outs
  {
    var h := q.reply.output;
    var got := outs[h := Got(p, q, k)];
    if j > 0 {
      if k == 1 {
        assert Release(got, h) == outs;
        ReleaseUnknown(outs, h, j - 1);
      } else {
        assert Release(got, h) == outs[h := Got(p, q, k - 1)];
        ReleaseTimesCount(outs, p, q, k - 1, j - 1);
      }
    }
  }

  lemma {:induction false} ReleaseUnknown(outs: Outputs, h: Handle, j: nat)
    requires h !in outs
    ensures ReleaseTimes(outs, h, j) == outs
  {
    if j > 0 {
      ReleaseUnknown(outs, h, j - 1);
    }
  }

  /** An ordinary direct output that is got k times stays open through k - 1 releases and is closed by the k-th,
      which restores the table as it was before the first get. */
  lemma GetsAndReleasesCancel(outs: Outputs, avail: set<Device>, p: Profile, q: Request, k: nat, j: nat)
    requires OpensAsAsked(outs, avail, p, q) && !Special(p.flags + RequestFlags(q)) && k > 0
    ensures var after := ReleaseTimes(GetTimes(outs, p, q, k), q.reply.output, j);
            && (j < k ==> after == outs[q.reply.output := Got(p, q, k - j)])
            && (j >= k ==> after == outs)
  {
    GetTimesCount(outs, avail, p, q, k);
    ReleaseTimesCount(outs, p, q, k, j);
  }

  /** One with an LPA, TUNNEL or VOIP flag is closed by its first release, however often it was got. */
  lemma SpecialClosesAtFirstRelease(outs: Outputs, avail: set<Device>, p: Profile, q: Request, k: nat)
    requires OpensAsAsked(outs, avail, p, q) && Special(p.flags + RequestFlags(q)) && k > 0
    ensures Release(GetTimes(outs, p, q, k), q.reply.output) == outs
  {
    GetTimesCount(outs, avail, p, q, k);
  }

  /** A second get with the same parameters shares the output exactly when the driver opened it as asked; when
      a zero parameter was filled in, it closes the output under the first client. */
  lemma RepeatedGetSharesExactly(outs: Outputs, avail: set<Device>, p: Profile, q: Request, again: Request)
    requires Sound(outs, avail) && !HasOutput(outs, p) && q.reply.output !in outs && Accepts(q.params, q.reply)
    requires again.params == q.params && again.reply.output !in outs && again.reply.output != q.reply.output
    ensures var (outs1, h1) := GetDirect(outs, p, q);
            var (outs2, h2) := GetDirect(outs1, p, again);
            && h1 == q.reply.output
            && (h1 in outs2 <==> q.reply.params == q.params)
            && (h1 in outs2 ==> h2 == h1)
  {
    forall g ensures !Holds(outs, g, p) {}
    var (outs1, h1) := GetDirect(outs, p, q);
    assert Holds(outs1, h1, p);
    forall h | Holds(outs1, h, p) ensures h == h1 {
      assert !Holds(outs, h, p);
    }
    if q.reply.params == q.params {
      assert Matches(outs1, h1, p, again.params);
    }
  }

  function Answering(q: Request, actual: Params): Request {
    q.(reply := q.reply.(params := actual))
  }

  /** Whether a second equal get leaves the first client its output, for one answer of the driver to the first. */
  ghost predicate Shares(outs: Outputs, p: Profile, q: Request, again: Request, actual: Params) {
    var (outs1, h1) := GetDirect(outs, p, Answering(q, actual));
    h1 in GetDirect(outs1, p, again).0
  }

  /** That is safe for every answer the first get accepts exactly when it asked for a rate, a format and channels. */
  lemma AlwaysSharedExactly(outs: Outputs, avail: set<Device>, p: Profile, q: Request, again: Request)
    requires Sound(outs, avail) && !HasOutput(outs, p) && q.reply.output !in outs && q.reply.output != 0
    requires again.params == q.params && again.reply.output !in outs && again.reply.output != q.reply.output
    ensures (forall actual | Accepts(q.params, Answering(q, actual).reply) :: Shares(outs, p, q, again, actual))
            <==> q.params.rate != 0 && q.params.format != 0 && q.params.channels != 0
  {
    forall actual | Accepts(q.params, Answering(q, actual).reply)
      ensures Shares(outs, p, q, again, actual) <==> actual == q.params
    {
      RepeatedGetSharesExactly(outs, avail, p, Answering(q, actual), again);
    }
    hide Shares;
    var filled := Params(if q.params.rate == 0 then 1 else q.params.rate,
                         if q.params.format == 0 then 1 else q.params.format,
                         if q.params.channels == 0 then 1 else q.params.channels);
    assert Accepts(q.params, Answering(q, filled).reply);
  }

  /* ---------- a held output that a connection closes ---------- */

  const SHARED := Profile(0, {Speaker, WiredHeadset}, {Direct})
  const SHARED_PLATFORM := Platform([HwModule(true, [SHARED])], false, false, false, 1)
  const STEREO := Params(44100, 1, 3)
  const ONE_KNOWN := Values(1, [])
  const STATIC := Dynamic(ONE_KNOWN, ONE_KNOWN, ONE_KNOWN)
  const FIRST_GET := Request({Direct}, STEREO, {0}, true, 0, Reply(2, STEREO, STATIC, 0))
  const NEXT_GET := Request({Direct}, STEREO, {0}, true, 0, Reply(0, STEREO, STATIC, 0))

  /** The manager with only the speaker available, and after `k` gets of the shared profile. */
  function HeldTimes(k: nat): System {
    if k == 0 then System(Policy(map[], {Speaker}, {}, ForceUse.BOOT), map[], ForceNone)
    else
      var outs := map[2 := Opened(SHARED, {Direct}, STEREO, k)];
      System(Policy(outs, {Speaker}, {}, ForceUse.BOOT), map[2 := k], ForceNone)
  }

  lemma SharedIsChosen(q: Request)
    requires q == FIRST_GET || q == NEXT_GET
    ensures DirectProfile(SHARED_PLATFORM.modules, q, {Speaker}) == Some(SHARED)
  {
    assert {Speaker} * SHARED.supported == {Speaker};
    assert Eligible(SHARED, q, {Speaker});
    assert FirstEligible([SHARED], 0, q, {Speaker}) == Some(SHARED);
  }

  lemma GetHolds(k: nat)
    ensures Next(SHARED_PLATFORM, HeldTimes(k), GetOutput(if k == 0 then FIRST_GET else NEXT_GET)) == HeldTimes(k + 1)
    ensures Enabled(SHARED_PLATFORM, HeldTimes(k), GetOutput(if k == 0 then FIRST_GET else NEXT_GET))
  {
    var q := if k == 0 then FIRST_GET else NEXT_GET;
    var outs := HeldTimes(k).policy.outs;
    var got := Opened(SHARED, {Direct}, STEREO, k + 1);
    SharedIsChosen(q);
    assert SHARED.flags + RequestFlags(q) == {Direct};
    assert outs[2 := got] == map[2 := got];
    if k == 0 {
      forall h ensures !Matches(outs, h, SHARED, STEREO) {}
      assert outs - Holders(outs, SHARED) == outs;
    } else {
      assert Matches(outs, 2, SHARED, STEREO);
      forall h | Matches(outs, h, SHARED, STEREO) ensures h == 2 {}
    }
    assert GetDirect(outs, SHARED, q) == (map[2 := got], 2);
    assert StillOpen(HeldTimes(k).held, map[2 := got])[2 := k + 1] == map[2 := k + 1];
  }

  function GetsFrom(j: nat, k: nat): seq<Event>
    decreases k - j
  {
    if j >= k then [] else [GetOutput(if j == 0 then FIRST_GET else NEXT_GET)] + GetsFrom(j + 1, k)
  }

  lemma {:induction false} GetsHold(j: nat, k: nat, es: seq<Event>)
    requires j <= k
    ensures ValidRun(SHARED_PLATFORM, HeldTimes(j), GetsFrom(j, k) + es) == ValidRun(SHARED_PLATFORM, HeldTimes(k), es)
    ensures Run(SHARED_PLATFORM, HeldTimes(j), GetsFrom(j, k) + es) == Run(SHARED_PLATFORM, HeldTimes(k), es)
    decreases k - j
  {
    hide Enabled, Next;
    if j < k {
      GetHolds(j);
      GetsHold(j + 1, k, es);
      assert (GetsFrom(j, k) + es)[1..] == GetsFrom(j + 1, k) + es;
    } else {
      assert GetsFrom(j, k) + es == es;
    }
  }

  lemma HeldTimesInv(k: nat)
    ensures Inv(HeldTimes(k))
  {
    assert SHARED.supported * {Speaker} == {Speaker};
  }

  lemma HeadsetReachesShared(k: nat, replies: Replies)
    requires k > 0 && replies(0) == Reply(0, STEREO, STATIC, 0)
    ensures DistinctModules(SHARED_PLATFORM.modules)
    ensures FreshFor(SHARED_PLATFORM, HeldTimes(k).policy.outs, WiredHeadset, replies)
    ensures Connects(SHARED_PLATFORM, HeldTimes(k).policy, WiredHeadset, replies)
  {
    var ms, ps, outs := SHARED_PLATFORM.modules, [SHARED], HeldTimes(k).policy.outs;
    assert ms[..0] == [] && ps[..0] == [];
    assert Candidates([], WiredHeadset) == [] && Supporting([], WiredHeadset) == [];
    assert Supporting(ps, WiredHeadset) == [SHARED];
    assert Candidates(ms, WiredHeadset) == [SHARED];
    assert Holds(outs, 2, SHARED);
    hide Candidates;
    OpenFromHas(outs, SHARED_PLATFORM.primary, [SHARED], replies, 0);
  }

  lemma HeldIsTaken(k: nat, replies: Replies)
    requires k > 0 && replies(0) == Reply(0, STEREO, STATIC, 0)
    ensures var es := [SetConnection(Output(WiredHeadset), true, Available, false, replies)];
            && ValidRun(SHARED_PLATFORM, HeldTimes(k), es) && ValidRun(SHARED_PLATFORM, HeldTimes(k), [])
            && Count(Run(SHARED_PLATFORM, HeldTimes(k), []).held, 2) == k
            && 2 !in Run(SHARED_PLATFORM, HeldTimes(k), es).policy.outs
  {
    var connect := SetConnection(Output(WiredHeadset), true, Available, false, replies);
    HeldTimesInv(k);
    HeadsetReachesShared(k, replies);
    assert 2 in ForceClosed(HeldTimes(k).policy.outs, WiredHeadset);
    hide Enabled, Next, Inv, Connects, FreshFor, DistinctModules, ForceClosed;
    HeldOutputForceClosed(SHARED_PLATFORM, HeldTimes(k), WiredHeadset, false, replies, 2);
    var t := Next(SHARED_PLATFORM, HeldTimes(k), connect);
    assert [connect][1..] == [];
    assert ValidRun(SHARED_PLATFORM, t, []) && Run(SHARED_PLATFORM, t, []) == t;
  }

  /** A run: the output is got `k` times, and connecting the headset closes it under all of its holders. */
  lemma ConnectionTakesHeldOutput(k: nat, replies: Replies)
    requires k > 0 && replies(0) == Reply(0, STEREO, STATIC, 0)
    ensures var connect := SetConnection(Output(WiredHeadset), true, Available, false, replies);
            var es := GetsFrom(0, k) + [connect];
            && ValidRun(SHARED_PLATFORM, HeldTimes(0), es)
            && Count(Run(SHARED_PLATFORM, HeldTimes(0), GetsFrom(0, k)).held, 2) == k
            && 2 !in Run(SHARED_PLATFORM, HeldTimes(0), es).policy.outs
  {
    var connect := SetConnection(Output(WiredHeadset), true, Available, false, replies);
    hide Enabled, Next, GetsFrom, HeldTimes;
    GetsHold(0, k, [connect]);
    GetsHold(0, k, []);
    assert GetsFrom(0, k) + [] == GetsFrom(0, k);
    HeldIsTaken(k, replies);
  }
}
