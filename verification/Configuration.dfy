/** Program configuration as the supervisor reads it (ciron-common/src/config.rs). */
module Configuration {
  import opened Wrappers
  import opened Graphs

  /** `restart`, `after` and `wants` keep the optional shape of the configuration file; the
      command and the environment only matter to spawning, which is an oracle here. */
  datatype ProgramConfig = ProgramConfig(
    autostart: bool,
    restart: Option<string>,
    logForward: bool,
    after: Option<seq<string>>,
    wants: Option<seq<string>>)

  type Configs = map<string, ProgramConfig>

  /** `list.iter().flatten()` over an optional list. */
  function Listed(list: Option<seq<string>>): seq<string> {
    match list
    case None => []
    case Some(names) => names
  }

  function AfterOf(c: Configs, u: string): seq<string> {
    if u in c then Listed(c[u].after) else []
  }

  /** `after` entries first, then `wants` entries. */
  function DepsOf(c: Configs, u: string): seq<string> {
    if u in c then Listed(c[u].after) + Listed(c[u].wants) else []
  }

  /** Edges that pull programs in: known targets of `after` and of `wants`. */
  ghost function PullGraph(c: Configs): Graph {
    map u | u in c :: set d | d in DepsOf(c, u) && d in c
  }

  /** Edges that order programs: known targets of `after`. */
  ghost function AfterGraph(c: Configs): Graph {
    map u | u in c :: set d | d in AfterOf(c, u) && d in c
  }

  function WantsOf(c: Configs, u: string): seq<string> {
    if u in c then Listed(c[u].wants) else []
  }

  /** Edges that start programs according to the documentation: known targets of `wants`. */
  ghost function WantsGraph(c: Configs): Graph {
    map u | u in c :: set d | d in WantsOf(c, u) && d in c
  }

  /** What comes up with `root`: everything known it reaches over `after` and `wants`. */
  ghost function Closure(c: Configs, root: string): set<string> {
    Reachable(PullGraph(c), root)
  }

  /** Is an exit with this code followed by a restart? Any other policy string means no. */
  predicate Restarts(policy: Option<string>, code: int) {
    match policy
    case None => false
    case Some(text) => text == "always" || (text == "on-failure" && code != 0)
  }
}
