/** Forced-use settings and the FM mode that defers one of them. */
module ForceUse {
  import opened PolicyTypes
  import opened Wrappers

  datatype Forces = Forces(communication: Forced, media: Forced, record: Forced, dock: Forced, system: Forced)

  datatype Settings = Settings(forces: Forces, pendingForceNone: bool, fm: FmMode)

  const BOOT := Settings(Forces(ForceNone, ForceNone, ForceNone, ForceNone, ForceNone), false, FmNone)

  /** The configurations that a usage lists as valid. */
  predicate Listed(usage: Usage, config: Forced) {
    match usage
    case ForCommunication => config in {ForceSpeaker, ForceBtSco, ForceNone}
    case ForMedia =>
      config in {ForceHeadphones, ForceBtA2dp, ForceSpeaker, ForceWiredAccessory, ForceAnalogDock, ForceDigitalDock,
                 ForceNone, ForceNoBtA2dp}
    case ForRecord => config in {ForceBtSco, ForceWiredAccessory, ForceNone}
    case ForDock =>
      config in {ForceNone, ForceBtCarDock, ForceBtDeskDock, ForceWiredAccessory, ForceAnalogDock, ForceDigitalDock}
    case ForSystem => config in {ForceNone, ForceSystemEnforced}
    case OtherUsage(_) => false
  }

  /** Dock and system only warn about an unlisted configuration, and store it. */
  function SetForceUse(s: Settings, usage: Usage, config: Forced): Settings {
    match usage
    case ForCommunication => if Listed(usage, config) then s.(forces := s.forces.(communication := config)) else s
    case ForMedia =>
      if !Listed(usage, config) then s
      else if s.fm == FmDigital && config == ForceNone then s.(pendingForceNone := true)
      else s.(pendingForceNone := false, forces := s.forces.(media := config))
    case ForRecord => if Listed(usage, config) then s.(forces := s.forces.(record := config)) else s
    case ForDock => s.(forces := s.forces.(dock := config))
    case ForSystem => s.(forces := s.forces.(system := config))
    case OtherUsage(_) => s
  }

  /** The mode is claimed before anything else about the FM device is checked. */
  function FmOn(s: Settings, analog: bool): Option<Settings> {
    if s.fm != FmNone then None else Some(s.(fm := if analog then FmAnalog else FmDigital))
  }

  function FmOff(s: Settings): Settings {
    var off := s.(fm := FmNone);
    if s.pendingForceNone then SetForceUse(off, ForMedia, ForceNone) else off
  }

  /** The media setting is the last valid request, or that request is a deferred "none" under digital FM. */
  ghost predicate Refines(s: Settings, last: Forced) {
    || (!s.pendingForceNone && s.forces.media == last)
    || (s.pendingForceNone && s.fm == FmDigital && last == ForceNone)
  }

  /** What a request makes the last valid one. */
  function LastRequest(last: Forced, usage: Usage, config: Forced): Forced {
    if usage == ForMedia && Listed(usage, config) then config else last
  }

  lemma SetForceUseRefines(s: Settings, last: Forced, usage: Usage, config: Forced)
    requires Refines(s, last)
    ensures Refines(SetForceUse(s, usage, config), LastRequest(last, usage, config))
    ensures SetForceUse(s, usage, config).fm == s.fm
  {
  }

  lemma FmRefines(s: Settings, last: Forced, analog: bool)
    requires Refines(s, last)
    ensures FmOn(s, analog).Some? ==> Refines(FmOn(s, analog).value, last)
    ensures Refines(FmOff(s), last) && FmOff(s).forces.media == last && !FmOff(s).pendingForceNone
  {
  }
}
