/** Whether an agent of the catalog can be spawned: its binaries on the search path. */
module AgentProbe {
  import opened Wrappers

  /** What the probe looks at. `internal` tells an agent that runs inside the process. */
  datatype Spec = Spec(
    enabled: bool,
    command: Option<string>,
    internal: bool,
    bridge: Option<string>,
    primary: Option<string>
  )

  /** The search path: what each name resolves to. */
  type Path = string -> Option<string>

  datatype Reason =
    | Disabled
    | NoCommand
    | BridgeMissing(bridge: string)
    | PrimaryMissing(binary: string)
    | CommandMissing(command: string)

  function Probe(s: Spec, path: Path): Result<string, Reason> {
    if !s.enabled then Err(Disabled)
    else if s.command.None? || s.command.value == "" then Err(NoCommand)
    else
      var cmd := s.command.value;
      if s.bridge.Some? && s.bridge.value != cmd && path(s.bridge.value).None? then Err(BridgeMissing(s.bridge.value))
      else if s.primary.Some? && s.primary.value != cmd && s.bridge != s.primary && path(s.primary.value).None?
      then Err(PrimaryMissing(s.primary.value))
      else if path(cmd).None? then Err(CommandMissing(cmd))
      else Ok(path(cmd).value)
  }

  predicate IsAvailable(s: Spec, path: Path) {
    Probe(s, path).Ok? || (s.enabled && s.command.None? && s.internal)
  }

  predicate OnPath(name: Option<string>, path: Path) { name.None? || path(name.value).Some? }

  /** The row is enabled, and its command and every binary that it names are on the path. */
  predicate CanSpawn(s: Spec, path: Path) {
    && s.enabled && s.command.Some? && s.command.value != ""
    && OnPath(s.command, path) && OnPath(s.bridge, path) && OnPath(s.primary, path)
  }

  /** It can be spawned, or it runs inside the process and needs no command. */
  predicate IsOffered(s: Spec, path: Path) { CanSpawn(s, path) || (s.enabled && s.command.None? && s.internal) }

  /** Where the command is, if it can be spawned. */
  function SpawnsAt(s: Spec, path: Path): Option<string> { if CanSpawn(s, path) then path(s.command.value) else None }

  /**
   However the names coincide, no check that is skipped matters: the probe succeeds exactly when
   the row is enabled, has a command, and the command and every binary it names are on the path.
   A failure names the first that is missing: the bridge, the primary binary, then the command.
   */
  lemma ProbeIff(s: Spec, path: Path)
    ensures Probe(s, path).Ok? <==> CanSpawn(s, path)
    ensures match Probe(s, path)
            case Ok(found) => path(s.command.value) == Some(found)
            case Err(BridgeMissing(b)) => s.bridge == Some(b) && s.command != Some(b) && path(b).None?
            case Err(PrimaryMissing(b)) =>
              s.primary == Some(b) && s.command != Some(b) && s.primary != s.bridge && path(b).None?
              && (s.bridge == s.command || OnPath(s.bridge, path))
            case Err(CommandMissing(c)) =>
              s.command == Some(c) && path(c).None?
              && (s.bridge == s.command || OnPath(s.bridge, path))
                   && (s.primary == s.command || OnPath(s.primary, path))
            case Err(Disabled) => !s.enabled
            case Err(NoCommand) => s.enabled && (s.command == None || s.command == Some(""))
  {
  }
}
