/**
 The audio policy as a state machine: device connections, forced use, and getting and releasing
 outputs, with a ledger of the direct outputs that clients still hold.
 */
module PolicyProtocol {
  import opened PolicyTypes
  import opened Wrappers
  import opened OutputTable
  import ForceUse

  /** What the platform offers; the primary output is opened before the first step. */
  datatype Platform = Platform(modules: seq<HwModule>, hasA2dp: bool, hasUsb: bool, hasRemoteSubmix: bool,
                               primary: Handle)

  datatype Policy = Policy(outs: Outputs, avail: set<Device>, inputs: set<InputDevice>, settings: ForceUse.Settings)

  datatype Connection = Available | Unavailable | OtherState

  /** A device argument with exactly one known bit, or none of those. */
  datatype Endpoint = Output(device: Device) | Input(input: InputDevice) | NotOneDevice

  /* ---------- device connections ---------- */

  predicate Supported(c: Platform, d: Device) {
    && (d in A2DP_DEVICES ==> c.hasA2dp)
    && (d in USB_DEVICES ==> c.hasUsb)
    && (d == RemoteSubmix ==> c.hasRemoteSubmix)
  }

  /** The table after opening for a device; below, the table after its ordinary direct outputs are closed. */
  ghost function OpenFor(c: Platform, outs: Outputs, d: Device, replies: Replies): Outputs {
    OpenFrom(outs, c.primary, Candidates(c.modules, d), 0, replies)
  }

  ghost predicate Routed(c: Platform, outs: Outputs, d: Device, replies: Replies) {
    AnyOpen(OpenFor(c, outs, d, replies), Candidates(c.modules, d))
  }

  function CloseOrdinaryDirect(outs: Outputs, d: Device): Outputs {
    outs - ForceClosed(outs, d)
  }

  ghost function Register(c: Platform, s: Policy, d: Device, replies: Replies): (Policy, Status) {
    if d in s.avail then (s, InvalidOperation)
    else
      var grown := OpenFor(c, s.outs, d, replies);
      if !Routed(c, s.outs, d, replies) then (s.(outs := grown), InvalidOperation)
      else (s.(outs := CloseOrdinaryDirect(grown, d), avail := s.avail + {d}), NoError)
  }

  ghost function Connect(c: Platform, s: Policy, d: Device, analog: bool, replies: Replies): (Policy, Status) {
    if d != Fm then Register(c, s, d, replies)
    else
      match ForceUse.FmOn(s.settings, analog)
      case None => (s, InvalidOperation)
      case Some(settings) => Register(c, s.(settings := settings), d, replies)
  }

  function Disconnect(s: Policy, d: Device): (Policy, Status) {
    var s1 := if d == Fm then s.(settings := ForceUse.FmOff(s.settings)) else s;
    if d !in s1.avail then (s1, InvalidOperation)
    else
      var avail := s1.avail - {d};
      (s1.(avail := avail, outs := s1.outs - Orphans(s1.outs, avail)), NoError)
  }

  ghost function OutputHalf(c: Platform, s: Policy, d: Device, conn: Connection, analog: bool, replies: Replies)
    : (Policy, Status)
  {
    if !Supported(c, d) then (s, BadValue)
    else
      match conn
      case Available => Connect(c, s, d, analog, replies)
      case Unavailable => Disconnect(s, d)
      case OtherState => (s, BadValue)
  }

  function InputHalf(s: Policy, i: InputDevice, conn: Connection): (Policy, Status) {
    match conn
    case Available => if i in s.inputs then (s, InvalidOperation) else (s.(inputs := s.inputs + {i}), NoError)
    case Unavailable => if i !in s.inputs then (s, InvalidOperation) else (s.(inputs := s.inputs - {i}), NoError)
    case OtherState => (s, BadValue)
  }

  /** The microphone that comes and goes with an output device. */
  function Paired(d: Device): Option<InputDevice> {
    if d == WiredHeadset then Some(InWiredHeadset)
    else if d == BluetoothSco || d == BluetoothScoHeadset || d == BluetoothScoCarkit then Some(InBluetoothScoHeadset)
    else None
  }

  ghost function SetDeviceConnectionState(c: Platform, s: Policy, e: Endpoint, addressFits: bool, conn: Connection,
                                          analog: bool, replies: Replies): (Policy, Status)
  {
    if e.NotOneDevice? || !addressFits then (s, BadValue)
    else if e.Input? then InputHalf(s, e.input, conn)
    else
      var (s1, status) := OutputHalf(c, s, e.device, conn, analog, replies);
      if status == NoError && Paired(e.device).Some? then InputHalf(s1, Paired(e.device).value, conn)
      else (s1, status)
  }

  /* ---------- getting outputs ---------- */

  ghost function Get(c: Platform, s: Policy, q: Request): (Policy, Handle) {
    match DirectProfile(c.modules, q, s.avail)
    case Some(p) => var (outs, h) := GetDirect(s.outs, p, q); (s.(outs := outs), h)
    case None => (s, if q.linearPcm then q.mixer else 0)
  }

  /* ---------- runs ---------- */

  datatype Event =
    | SetConnection(endpoint: Endpoint, addressFits: bool, conn: Connection, analog: bool, replies: Replies)
    | SetForceUse(usage: Usage, config: Forced)
    | GetOutput(request: Request)
    | ReleaseOutput(output: Handle)

  /** The policy, how many direct gets of each output are not yet released, and the last valid media request. */
  datatype System = System(policy: Policy, held: map<Handle, nat>, last: Forced)

  function Count(held: map<Handle, nat>, h: Handle): nat {
    if h in held then held[h] else 0
  }

  /** What a client has of an output goes with the output. */
  function StillOpen(held: map<Handle, nat>, outs: Outputs): map<Handle, nat> {
    map h | h in held && h in outs :: held[h]
  }

  function Returned(held: map<Handle, nat>, h: Handle): map<Handle, nat> {
    if Count(held, h) == 0 then held else held[h := Count(held, h) - 1]
  }

  ghost function Next(c: Platform, s: System, e: Event): System {
    match e
    case SetConnection(endpoint, addressFits, conn, analog, replies) =>
      var policy := SetDeviceConnectionState(c, s.policy, endpoint, addressFits, conn, analog, replies).0;
      s.(policy := policy, held := StillOpen(s.held, policy.outs))
    case SetForceUse(usage, config) =>
      s.(policy := s.policy.(settings := ForceUse.SetForceUse(s.policy.settings, usage, config)),
         last := ForceUse.LastRequest(s.last, usage, config))
    case GetOutput(q) =>
      var (policy, h) := Get(c, s.policy, q);
      var held := StillOpen(s.held, policy.outs);
      var direct := DirectProfile(c.modules, q, s.policy.avail).Some? && h != 0;
      s.(policy := policy, held := if direct then held[h := Count(held, h) + 1] else held)
    case ReleaseOutput(h) =>
      var outs := Release(s.policy.outs, h);
      s.(policy := s.policy.(outs := outs), held := StillOpen(Returned(s.held, h), outs))
  }

  /** The client's answers are new handles. */
  ghost predicate Enabled(c: Platform, s: System, e: Event) {
    match e
    case SetConnection(endpoint, _, conn, _, replies) =>
      endpoint.Output? && conn == Available ==>
        FreshFrom(s.policy.outs, Candidates(c.modules, endpoint.device), 0, replies)
    case SetForceUse(_, _) => true
    case GetOutput(q) => q.reply.output !in s.policy.outs
    case ReleaseOutput(_) => true
  }

  ghost predicate ValidRun(c: Platform, s: System, es: seq<Event>)
    decreases |es|
  {
    es == [] || (Enabled(c, s, es[0]) && ValidRun(c, Next(c, s, es[0]), es[1..]))
  }

  ghost function Run(c: Platform, s: System, es: seq<Event>): System
    decreases |es|
  {
    if es == [] then s else Run(c, Next(c, s, es[0]), es[1..])
  }
}
