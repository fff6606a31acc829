/**
 The table of open outputs: opening what a connected device needs, closing what a disconnected one
 leaves behind, and getting and releasing direct outputs.
 */
module OutputTable {
  import opened PolicyTypes
  import opened Wrappers

  /** Zero is no output. */
  type Handle = nat

  datatype Flag = Direct | Lpa | Tunnel | VoipRx | CompressOffload | OtherFlag(bit: nat)

  /** The identifier stands for the address of the profile object. */
  datatype Profile = Profile(id: nat, supported: set<Device>, flags: set<Flag>)

  datatype HwModule = HwModule(loaded: bool, profiles: seq<Profile>)

  datatype Params = Params(rate: nat, format: nat, channels: nat)

  datatype Descriptor =
    | Opened(profile: Profile, flags: set<Flag>, params: Params, openCount: int)
    | Duplicated(output1: Handle, output2: Handle, params: Params)

  type Outputs = map<Handle, Descriptor>

  /** A list of values a profile supports, never empty; a leading zero means they depend on the output. */
  datatype Values = Values(first: nat, others: seq<nat>)

  /** The lists of a direct profile after the open output has been asked for what they lack. */
  datatype Dynamic = Dynamic(rates: Values, formats: Values, channels: Values)

  /** What the client answers for one profile: the output and its parameters, what a direct one reports, and
      the duplicating output. */
  datatype Reply = Reply(output: Handle, params: Params, dynamic: Dynamic, duplicate: Handle)

  type Replies = nat -> Reply

  predicate Special(flags: set<Flag>) {
    Lpa in flags || Tunnel in flags || VoipRx in flags
  }

  predicate Holds(outs: Outputs, h: Handle, p: Profile) {
    h in outs && outs[h].Opened? && outs[h].profile == p
  }

  ghost predicate HasOutput(outs: Outputs, p: Profile) {
    exists h :: Holds(outs, h, p)
  }

  /* ---------- connecting ---------- */

  predicate Unknown(v: Values) {
    v.first == 0 && v.others == []
  }

  /** The third clause tests the format list where it means the channel list. */
  predicate MissingParam(k: Dynamic) {
    || Unknown(k.rates)
    || Unknown(k.formats)
    || (k.formats.first == 0 && k.channels.others == [])
  }

  /** So it differs from asking whether any list is unknown exactly when rates and formats are known, and either
      the formats were static and the channels are unknown, or the formats were dynamic and the one channel
      mask is static. */
  lemma MissingParamExactly(k: Dynamic)
    ensures (MissingParam(k) <==> Unknown(k.rates) || Unknown(k.formats) || Unknown(k.channels))
            <==> !(!Unknown(k.rates) && !Unknown(k.formats) && k.channels.others == []
                   && (k.formats.first == 0) != (k.channels.first == 0))
  {
  }

  /** Whether the client's answer leads to an entry for the profile. */
  predicate Opens(p: Profile, r: Reply) {
    !Special(p.flags) && r.output != 0 && (if Direct in p.flags then !MissingParam(r.dynamic) else r.duplicate != 0)
  }

  ghost function OpenOne(outs: Outputs, primary: Handle, p: Profile, r: Reply): Outputs {
    if HasOutput(outs, p) || !Opens(p, r) then outs
    else
      var added := outs[r.output := Opened(p, p.flags, r.params, 0)];
      if Direct in p.flags then added else added[r.duplicate := Duplicated(primary, r.output, r.params)]
  }

  ghost function OpenFrom(outs: Outputs, primary: Handle, ps: seq<Profile>, i: nat, replies: Replies): Outputs
    requires i <= |ps|
    decreases |ps| - i
  {
    if i == |ps| then outs
    else OpenFrom(OpenOne(outs, primary, ps[i], replies(ps[i].id)), primary, ps, i + 1, replies)
  }

  /** Profiles of one module that support the device, and of all loaded modules. */
  function Supporting(ps: seq<Profile>, d: Device): seq<Profile> {
    if ps == [] then []
    else Supporting(ps[..|ps| - 1], d) + (if d in ps[|ps| - 1].supported then [ps[|ps| - 1]] else [])
  }

  function Candidates(ms: seq<HwModule>, d: Device): seq<Profile> {
    if ms == [] then []
    else
      var m := ms[|ms| - 1];
      Candidates(ms[..|ms| - 1], d) + (if m.loaded then Supporting(m.profiles, d) else [])
  }

  /** The open outputs that can be routed to a device. */
  function Routable(outs: Outputs, d: Device): set<Handle> {
    set h | h in outs && outs[h].Opened? && d in outs[h].profile.supported
  }

  /** A direct output of none of the special kinds. */
  predicate OrdinaryDirect(flags: set<Flag>) {
    Direct in flags && !Special(flags)
  }

  function OrdinaryDirectAmong(outs: Outputs, listed: set<Handle>): set<Handle> {
    set h | h in listed && h in outs && outs[h].Opened? && OrdinaryDirect(outs[h].flags)
  }

  /** What connecting a device closes: its ordinary direct outputs, also those found open and those clients hold. */
  function ForceClosed(outs: Outputs, d: Device): set<Handle> {
    OrdinaryDirectAmong(outs, Routable(outs, d))
  }

  ghost predicate AnyOpen(outs: Outputs, ps: seq<Profile>) {
    exists i | 0 <= i < |ps| :: HasOutput(outs, ps[i])
  }

  /* ---------- disconnecting ---------- */

  function Orphans(outs: Outputs, avail: set<Device>): set<Handle> {
    set h | h in outs && outs[h].Opened? && outs[h].profile.supported * avail == {}
  }

  /* ---------- getting and releasing ---------- */

  datatype Request = Request(flags: set<Flag>, params: Params, compatible: set<nat>, linearPcm: bool, mixer: Handle,
                             reply: Reply)

  /** Offloading implies a direct output. */
  function RequestFlags(q: Request): set<Flag> {
    if CompressOffload in q.flags then q.flags + {Direct} else q.flags
  }

  predicate Eligible(p: Profile, q: Request, avail: set<Device>) {
    p.id in q.compatible && avail * p.supported != {}
  }

  function FirstEligible(ps: seq<Profile>, i: nat, q: Request, avail: set<Device>): Option<Profile>
    requires i <= |ps|
    decreases |ps| - i
  {
    if i == |ps| then None
    else if Eligible(ps[i], q, avail) then Some(ps[i])
    else FirstEligible(ps, i + 1, q, avail)
  }

  function FirstDirect(ms: seq<HwModule>, i: nat, q: Request, avail: set<Device>): Option<Profile>
    requires i <= |ms|
    decreases |ms| - i
  {
    if i == |ms| then None
    else
      var found := if ms[i].loaded then FirstEligible(ms[i].profiles, 0, q, avail) else None;
      if found.Some? then found else FirstDirect(ms, i + 1, q, avail)
  }

  /** The direct profile of a request, if it asks for a direct output and one is eligible. */
  function DirectProfile(ms: seq<HwModule>, q: Request, avail: set<Device>): Option<Profile> {
    if Direct in RequestFlags(q) then FirstDirect(ms, 0, q, avail) else None
  }

  /** Only the requested parameters are accepted; zero asks for any. */
  predicate Accepts(asked: Params, r: Reply) {
    && r.output != 0
    && (asked.rate != 0 ==> asked.rate == r.params.rate)
    && (asked.format != 0 ==> asked.format == r.params.format)
    && (asked.channels != 0 ==> asked.channels == r.params.channels)
  }

  function Holders(outs: Outputs, p: Profile): set<Handle> {
    set h | h in outs && Holds(outs, h, p)
  }

  predicate Matches(outs: Outputs, h: Handle, p: Profile, asked: Params) {
    Holds(outs, h, p) && outs[h].params == asked
  }

  ghost function GetDirect(outs: Outputs, p: Profile, q: Request): (r: (Outputs, Handle)) {
    if exists h :: Matches(outs, h, p, q.params) then
      var h :| Matches(outs, h, p, q.params);
      (outs[h := outs[h].(openCount := outs[h].openCount + 1)], h)
    else
      var kept := outs - Holders(outs, p);
      if Accepts(q.params, q.reply) then
        (kept[q.reply.output := Opened(p, p.flags + RequestFlags(q), q.reply.params, 1)], q.reply.output)
      else (kept, 0)
  }

  function Flags(d: Descriptor): set<Flag> {
    if d.Opened? then d.flags else {}
  }

  function Release(outs: Outputs, h: Handle): Outputs {
    if h !in outs || Direct !in Flags(outs[h]) then outs
    else
      var d := outs[h];
      if d.openCount <= 0 && !Special(d.flags) then outs
      else if d.openCount - 1 == 0 || Special(d.flags) then outs - {h}
      else outs[h := d.(openCount := d.openCount - 1)]
  }

  /* ---------- invariants ---------- */

  ghost predicate OnePerProfile(outs: Outputs) {
    forall g, h, p :: Holds(outs, g, p) && Holds(outs, h, p) ==> g == h
  }

  ghost predicate Reachable(outs: Outputs, avail: set<Device>) {
    forall h | h in outs && outs[h].Opened? :: outs[h].profile.supported * avail != {}
  }

  /** Handles the client hands out are new and pairwise distinct. */
  predicate FreshReply(outs: Outputs, r: Reply) {
    r.output !in outs && r.duplicate !in outs && (r.output == r.duplicate ==> r.output == 0)
  }

  predicate Apart(r: Reply, q: Reply) {
    && (r.output != 0 ==> r.output != q.output && r.output != q.duplicate)
    && (r.duplicate != 0 ==> r.duplicate != q.output && r.duplicate != q.duplicate)
  }

  ghost predicate FreshFrom(outs: Outputs, ps: seq<Profile>, i: nat, replies: Replies) {
    && (forall k | i <= k < |ps| :: FreshReply(outs, replies(ps[k].id)))
    && (forall j, k | i <= j < |ps| && i <= k < |ps| && j != k :: Apart(replies(ps[j].id), replies(ps[k].id)))
  }

  ghost predicate Distinct(ps: seq<Profile>) {
    forall i, j | 0 <= i < |ps| && 0 <= j < |ps| && i != j :: ps[i] != ps[j]
  }

  /* ---------- what opening for a list of profiles means ---------- */

  /** The entries one profile contributes when it has no output yet and its opening succeeds. */
  ghost predicate Adds(outs: Outputs, primary: Handle, p: Profile, r: Reply, h: Handle, e: Descriptor) {
    && !HasOutput(outs, p) && Opens(p, r)
    && ((h == r.output && e == Opened(p, p.flags, r.params, 0))
        || (Direct !in p.flags && h == r.duplicate && e == Duplicated(primary, r.output, r.params)))
  }

  predicate Entry(outs: Outputs, h: Handle, e: Descriptor) {
    h in outs && outs[h] == e
  }

  lemma OpenOneMeans(outs: Outputs, primary: Handle, p: Profile, r: Reply, h: Handle, e: Descriptor)
    requires FreshReply(outs, r)
    ensures Entry(OpenOne(outs, primary, p, r), h, e) <==> Entry(outs, h, e) || Adds(outs, primary, p, r, h, e)
  {
    hide HasOutput;
  }

  lemma OpenOneHas(outs: Outputs, primary: Handle, p: Profile, r: Reply, q: Profile)
    requires FreshReply(outs, r)
    ensures HasOutput(OpenOne(outs, primary, p, r), q)
            <==> HasOutput(outs, q) || (q == p && !HasOutput(outs, p) && Opens(p, r))
  {
    var outs' := OpenOne(outs, primary, p, r);
    if outs' != outs {
      assert Holds(outs', r.output, p);
      if HasOutput(outs, q) {
        var h :| Holds(outs, h, q);
        assert Holds(outs', h, q);
      }
      if q != p && HasOutput(outs', q) {
        var h :| Holds(outs', h, q);
        assert Holds(outs, h, q);
      }
    }
  }

  lemma FreshAfterOne(outs: Outputs, primary: Handle, ps: seq<Profile>, i: nat, replies: Replies)
    requires i < |ps| && FreshFrom(outs, ps, i, replies)
    ensures FreshFrom(OpenOne(outs, primary, ps[i], replies(ps[i].id)), ps, i + 1, replies)
  {
    hide HasOutput;
    var outs' := OpenOne(outs, primary, ps[i], replies(ps[i].id));
    forall k | i + 1 <= k < |ps| ensures FreshReply(outs', replies(ps[k].id)) {
      assert Apart(replies(ps[i].id), replies(ps[k].id)) && FreshReply(outs, replies(ps[k].id));
    }
  }

  ghost predicate AddsFrom(outs: Outputs, primary: Handle, ps: seq<Profile>, i: nat, replies: Replies,
                           h: Handle, e: Descriptor) {
    exists k :: i <= k < |ps| && Adds(outs, primary, ps[k], replies(ps[k].id), h, e)
  }

  /** Exactly the old entries and what each profile contributes, whatever the order of the list. */
  lemma {:induction false} OpenFromMeans(outs: Outputs, primary: Handle, ps: seq<Profile>, i: nat, replies: Replies,
                                         h: Handle, e: Descriptor)
    requires i <= |ps| && Distinct(ps) && FreshFrom(outs, ps, i, replies)
    ensures Entry(OpenFrom(outs, primary, ps, i, replies), h, e)
            <==> Entry(outs, h, e) || AddsFrom(outs, primary, ps, i, replies, h, e)
    decreases |ps| - i
  {
    if i < |ps| {
      var r := replies(ps[i].id);
      var outs1 := OpenOne(outs, primary, ps[i], r);
      FreshAfterOne(outs, primary, ps, i, replies);
      OpenFromMeans(outs1, primary, ps, i + 1, replies, h, e);
      OpenOneMeans(outs, primary, ps[i], r, h, e);
      forall k | i < k < |ps|
        ensures Adds(outs1, primary, ps[k], replies(ps[k].id), h, e)
                <==> Adds(outs, primary, ps[k], replies(ps[k].id), h, e)
      {
        OpenOneHas(outs, primary, ps[i], r, ps[k]);
      }
      hide HasOutput, OpenOne, Opens, Adds, Entry, FreshFrom;
    }
  }

  /** The sorted list of profiles may come in any order: the table that results is the same. */
  lemma OpeningOrderIrrelevant(outs: Outputs, primary: Handle, ps: seq<Profile>, qs: seq<Profile>, replies: Replies)
    requires Distinct(ps) && Distinct(qs) && (forall p :: p in ps <==> p in qs)
    requires FreshFrom(outs, ps, 0, replies) && FreshFrom(outs, qs, 0, replies)
    ensures OpenFrom(outs, primary, ps, 0, replies) == OpenFrom(outs, primary, qs, 0, replies)
  {
    var a, b := OpenFrom(outs, primary, ps, 0, replies), OpenFrom(outs, primary, qs, 0, replies);
    forall h, e ensures Entry(a, h, e) <==> Entry(b, h, e) {
      OpenFromMeans(outs, primary, ps, 0, replies, h, e);
      OpenFromMeans(outs, primary, qs, 0, replies, h, e);
      SameAdds(outs, primary, ps, qs, replies, h, e);
      SameAdds(outs, primary, qs, ps, replies, h, e);
    }
    SameEntries(a, b);
  }

  lemma SameAdds(outs: Outputs, primary: Handle, ps: seq<Profile>, qs: seq<Profile>, replies: Replies,
                 h: Handle, e: Descriptor)
    requires forall p :: p in ps ==> p in qs
    ensures AddsFrom(outs, primary, ps, 0, replies, h, e) ==> AddsFrom(outs, primary, qs, 0, replies, h, e)
  {
    if AddsFrom(outs, primary, ps, 0, replies, h, e) {
      var k :| 0 <= k < |ps| && Adds(outs, primary, ps[k], replies(ps[k].id), h, e);
      assert ps[k] in ps;
      var j :| 0 <= j < |qs| && qs[j] == ps[k];
      assert Adds(outs, primary, qs[j], replies(qs[j].id), h, e);
    }
  }

  lemma SameEntries(a: Outputs, b: Outputs)
    requires forall h, e :: Entry(a, h, e) <==> Entry(b, h, e)
    ensures a == b
  {
    forall h ensures (h in a <==> h in b) && (h in a ==> a[h] == b[h]) {
      if h in a {
        assert Entry(a, h, a[h]);
      }
      if h in b {
        assert Entry(b, h, b[h]);
      }
    }
  }
}
