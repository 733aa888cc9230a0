/** The capability linter (agentd/src/check.rs, `check_config`) and what a clean config guarantees. */
module Linter {
  import opened Common
  import opened Paths
  import opened Capabilities

  datatype Context = Agent | StdioMcp | HttpMcp

  /** `tier_legality`: the grant is a silent no-op in this context. */
  predicate Inert(c: Capability, ctx: Context) {
    match ctx
    case HttpMcp => true
    case Agent => c.Net? || c.ShellExec? || c.Credential?
    case StdioMcp => c.Mcp? || c.KbRead? || c.KbWrite? || c.RunsRead? || c.BriefPublish? || c.RunJob?
  }

  datatype ServerConfig = ServerConfig(name: string, isHttp: bool, capabilities: Grants, isolated: bool)
  datatype AgentConfig = AgentConfig(id: string, capabilities: Grants)
  datatype JobConfig = JobConfig(id: string, capabilities: seq<Capability>)

  datatype Config = Config(servers: seq<ServerConfig>, segments: seq<string>,
                           agent: Option<AgentConfig>, agents: seq<AgentConfig>, allowEmptyAgents: bool,
                           jobs: seq<JobConfig>, requireCapabilities: bool)

  /** `Config::agent_configs`: the single form or the list form, not both. */
  function AgentConfigs(cfg: Config): Result<seq<AgentConfig>, string> {
    match cfg.agent
    case Some(a) => if cfg.agents == [] then Ok([a]) else Err("cannot set both")
    case None =>
      if cfg.agents != [] then Ok(cfg.agents)
      else if cfg.allowEmptyAgents then Ok([])
      else Err("no agents configured")
  }

  function ProviderKey(p: Provider): string {
    match p
    case Google => "google"
    case BraveSearch => "brave-search"
    case Custom(s) => s
  }

  function CapsOf(g: Grants): seq<Capability> {
    if g.Some? then g.value else []
  }

  /** Not absolute, or padded with white space. */
  predicate IsSuspectFsPrefix(p: string) {
    !IsAbsolute(p) || IsSpace(p[0]) || IsSpace(p[|p| - 1])
  }

  predicate KbSegmentDeclared(grant: string, declared: set<string>) {
    exists seg :: seg in declared && (seg == grant || KbSegmentSatisfies(grant, seg))
  }

  datatype Holder = OfServer(name: string) | OfAgent(name: string) | OfJob(name: string)

  datatype Defect =
    | HttpCapabilities(server: string)
    | HttpIsolation(server: string)
    | RelativePrefix(who: Holder, prefix: string)
    | InertGrant(who: Holder, cap: Capability)
    | LoweringFailed
    | Unrestricted(agent: string)
    | UnknownServer(who: Holder, server: string)
    | BareSegment(who: Holder, segment: string)
    | UndeclaredSegment(who: Holder, segment: string)
    | UnwiredProvider(key: string)
    | HttpExempt

  /** Which findings fail the check; a suspect prefix does only in the strict profile. */
  predicate IsError(d: Defect, strict: bool) {
    match d
    case HttpCapabilities(_) => true
    case HttpIsolation(_) => true
    case LoweringFailed => true
    case UnknownServer(_, _) => true
    case BareSegment(_, _) => true
    case UnwiredProvider(_) => true
    case RelativePrefix(_, _) => strict
    case _ => false
  }

  datatype Finding = Finding(error: bool, defect: Defect)

  // ----- what each defect means -----

  predicate GrantsFile(caps: seq<Capability>, prefix: string) {
    FsRead(prefix) in caps || FsWrite(prefix) in caps
  }

  predicate GrantsSegment(caps: seq<Capability>, segment: string) {
    KbRead(segment) in caps || KbWrite(segment) in caps
  }

  predicate GrantsServer(caps: seq<Capability>, server: string) {
    exists c :: c in caps && OnServer(c, server)
  }

  predicate GrantsProvider(caps: seq<Capability>, key: string) {
    exists c :: c in caps && c.Credential? && ProviderKey(c.provider) == key
  }

  /** A defect of one server's own declaration. */
  predicate InServer(s: ServerConfig, d: Defect) {
    var caps := CapsOf(s.capabilities);
    match d
    case HttpCapabilities(n) => s.isHttp && n == s.name && s.capabilities.Some?
    case HttpIsolation(n) => s.isHttp && n == s.name && s.isolated
    case RelativePrefix(who, p) => !s.isHttp && who == OfServer(s.name) && GrantsFile(caps, p) && IsSuspectFsPrefix(p)
    case InertGrant(who, c) => !s.isHttp && who == OfServer(s.name) && c in caps && Inert(c, StdioMcp)
    case _ => false
  }

  /** A defect of the grants an agent or a job holds. */
  predicate InGrants(names: set<string>, segments: set<string>, who: Holder, caps: seq<Capability>, d: Defect) {
    match d
    case UnknownServer(w, server) => w == who && GrantsServer(caps, server) && server !in names
    case BareSegment(w, seg) => w == who && GrantsSegment(caps, seg) && IsBareAgentSegment(seg)
    case UndeclaredSegment(w, seg) =>
      w == who && GrantsSegment(caps, seg) && !IsBareAgentSegment(seg) && !KbSegmentDeclared(seg, segments)
    case RelativePrefix(w, p) => w == who && GrantsFile(caps, p) && IsSuspectFsPrefix(p)
    case InertGrant(w, c) => w == who && c in caps && !c.Credential? && Inert(c, Agent)
    case _ => false
  }

  function ServerNames(cfg: Config): set<string> {
    set s | s in cfg.servers :: s.name
  }

  function SegmentNames(cfg: Config): set<string> {
    set s | s in cfg.segments
  }

  /** Some stdio server carries a credential for this provider. */
  predicate Provided(cfg: Config, key: string) {
    exists s :: s in cfg.servers && !s.isHttp && GrantsProvider(CapsOf(s.capabilities), key)
  }

  predicate Referenced(cfg: Config, agents: seq<AgentConfig>, key: string) {
    || (exists a :: a in agents && GrantsProvider(CapsOf(a.capabilities), key))
    || (exists j :: j in cfg.jobs && GrantsProvider(j.capabilities, key))
  }

  predicate InAgents(cfg: Config, agents: seq<AgentConfig>, d: Defect) {
    exists a :: a in agents &&
                ((a.capabilities.None? && d == Unrestricted(a.id)) ||
                 InGrants(ServerNames(cfg), SegmentNames(cfg), OfAgent(a.id), CapsOf(a.capabilities), d))
  }

  predicate InJobs(cfg: Config, d: Defect) {
    exists j :: j in cfg.jobs && InGrants(ServerNames(cfg), SegmentNames(cfg), OfJob(j.id), j.capabilities, d)
  }

  /** The config has the defect `d`; past the servers nothing is looked at when lowering fails. */
  predicate Present(cfg: Config, d: Defect) {
    || (exists s :: s in cfg.servers && InServer(s, d))
    || (match AgentConfigs(cfg)
        case Err(_) => d == LoweringFailed
        case Ok(agents) =>
          || InAgents(cfg, agents, d)
          || InJobs(cfg, d)
          || (d.UnwiredProvider? && Referenced(cfg, agents, d.key) && !Provided(cfg, d.key))
          || (d == HttpExempt && cfg.requireCapabilities && exists s :: s in cfg.servers && s.isHttp))
  }

  // ----- the linter -----

  /** A finding carries the severity its defect has. */
  predicate Graded(f: Finding, strict: bool) {
    f.error == IsError(f.defect, strict)
  }

  function Report(d: Defect, strict: bool): Finding {
    Finding(IsError(d, strict), d)
  }

  /** What one more grant adds to a list. */
  lemma GrantsSnoc(caps: seq<Capability>, cap: Capability)
    ensures forall p :: GrantsFile(caps + [cap], p) <==> GrantsFile(caps, p) || cap == FsRead(p) || cap == FsWrite(p)
    ensures forall seg :: GrantsSegment(caps + [cap], seg)
                     <==> GrantsSegment(caps, seg) || cap == KbRead(seg) || cap == KbWrite(seg)
    ensures forall n :: GrantsServer(caps + [cap], n) <==> GrantsServer(caps, n) || OnServer(cap, n)
    ensures forall k :: GrantsProvider(caps + [cap], k)
                   <==> GrantsProvider(caps, k) || (cap.Credential? && ProviderKey(cap.provider) == k)
  {
    assert forall c :: c in caps + [cap] <==> c in caps || c == cap;
  }

  /** A defect one capability of a stdio server gives rise to. */
  predicate OfServerCap(name: string, cap: Capability, d: Defect) {
    || (IsFile(cap) && d == RelativePrefix(OfServer(name), cap.prefix) && IsSuspectFsPrefix(cap.prefix))
    || (d == InertGrant(OfServer(name), cap) && Inert(cap, StdioMcp))
  }

  lemma InServerSnoc(s: ServerConfig, caps: seq<Capability>, cap: Capability, d: Defect)
    requires !s.isHttp
    ensures InServer(s.(capabilities := Some(caps + [cap])), d)
       <==> InServer(s.(capabilities := Some(caps)), d) || OfServerCap(s.name, cap, d)
  {
    GrantsSnoc(caps, cap);
  }

  method LintServerCap(name: string, cap: Capability, strict: bool) returns (r: seq<Finding>)
    ensures forall f :: f in r <==> OfServerCap(name, cap, f.defect) && Graded(f, strict)
  {
    r := [];
    if IsFile(cap) && IsSuspectFsPrefix(cap.prefix) {
      r := r + [Report(RelativePrefix(OfServer(name), cap.prefix), strict)];
    }
    if Inert(cap, StdioMcp) {
      r := r + [Report(InertGrant(OfServer(name), cap), strict)];
    }
  }

  method LintHttpServer(s: ServerConfig, strict: bool) returns (r: seq<Finding>)
    requires s.isHttp
    ensures forall f :: f in r <==> InServer(s, f.defect) && Graded(f, strict)
  {
    r := [];
    if s.capabilities.Some? {
      r := r + [Report(HttpCapabilities(s.name), strict)];
    }
    if s.isolated {
      r := r + [Report(HttpIsolation(s.name), strict)];
    }
  }

  method LintServer(s: ServerConfig, strict: bool) returns (r: seq<Finding>, provided: set<string>)
    ensures forall f :: f in r <==> InServer(s, f.defect) && Graded(f, strict)
    ensures forall k :: k in provided <==> !s.isHttp && GrantsProvider(CapsOf(s.capabilities), k)
  {
    r, provided := [], {};
    if s.isHttp {
      r := LintHttpServer(s, strict);
      return;
    }
    var caps := CapsOf(s.capabilities);
    for i := 0 to |caps|
      invariant forall f :: f in r <==> InServer(s.(capabilities := Some(caps[..i])), f.defect) && Graded(f, strict)
      invariant forall k :: k in provided <==> GrantsProvider(caps[..i], k)
    {
      var cap := caps[i];
      assert caps[..i + 1] == caps[..i] + [cap];
      GrantsSnoc(caps[..i], cap);
      forall d ensures InServer(s.(capabilities := Some(caps[..i + 1])), d)
                  <==> InServer(s.(capabilities := Some(caps[..i])), d) || OfServerCap(s.name, cap, d)
      {
        InServerSnoc(s, caps[..i], cap, d);
      }
      if cap.Credential? {
        provided := provided + {ProviderKey(cap.provider)};
      }
      var more := LintServerCap(s.name, cap, strict);
      r := r + more;
    }
    assert caps[..|caps|] == caps;
  }

  /** A defect one grant of an agent or a job gives rise to. */
  predicate OfGrant(names: set<string>, segments: set<string>, who: Holder, cap: Capability, d: Defect) {
    || (cap.Mcp? && d == UnknownServer(who, cap.server) && cap.server !in names)
    || ((cap.KbRead? || cap.KbWrite?) &&
        if IsBareAgentSegment(cap.segment) then d == BareSegment(who, cap.segment)
        else d == UndeclaredSegment(who, cap.segment) && !KbSegmentDeclared(cap.segment, segments))
    || (IsFile(cap) && d == RelativePrefix(who, cap.prefix) && IsSuspectFsPrefix(cap.prefix))
    || (d == InertGrant(who, cap) && !cap.Credential? && Inert(cap, Agent))
  }

  method LintGrant(names: set<string>, segments: set<string>, who: Holder, cap: Capability, strict: bool)
    returns (r: seq<Finding>)
    ensures forall f :: f in r <==> OfGrant(names, segments, who, cap, f.defect) && Graded(f, strict)
  {
    r := [];
    if cap.Mcp? {
      if cap.server !in names {
        r := r + [Report(UnknownServer(who, cap.server), strict)];
      }
    } else if cap.KbRead? || cap.KbWrite? {
      if IsBareAgentSegment(cap.segment) {
        r := r + [Report(BareSegment(who, cap.segment), strict)];
      } else if !KbSegmentDeclared(cap.segment, segments) {
        r := r + [Report(UndeclaredSegment(who, cap.segment), strict)];
      }
    } else if IsFile(cap) && IsSuspectFsPrefix(cap.prefix) {
      r := r + [Report(RelativePrefix(who, cap.prefix), strict)];
    }
    if !cap.Credential? && Inert(cap, Agent) {
      r := r + [Report(InertGrant(who, cap), strict)];
    }
  }

  lemma InGrantsSnoc(names: set<string>, segments: set<string>, who: Holder,
                     caps: seq<Capability>, cap: Capability, d: Defect)
    ensures InGrants(names, segments, who, caps + [cap], d)
       <==> InGrants(names, segments, who, caps, d) || OfGrant(names, segments, who, cap, d)
  {
    GrantsSnoc(caps, cap);
  }

  method LintGrants(names: set<string>, segments: set<string>, who: Holder, caps: seq<Capability>, strict: bool)
    returns (r: seq<Finding>, referenced: set<string>)
    ensures forall f :: f in r <==> InGrants(names, segments, who, caps, f.defect) && Graded(f, strict)
    ensures forall k :: k in referenced <==> GrantsProvider(caps, k)
  {
    r, referenced := [], {};
    for i := 0 to |caps|
      invariant forall f :: f in r <==> InGrants(names, segments, who, caps[..i], f.defect) && Graded(f, strict)
      invariant forall k :: k in referenced <==> GrantsProvider(caps[..i], k)
    {
      var cap := caps[i];
      assert caps[..i + 1] == caps[..i] + [cap];
      var more := LintGrant(names, segments, who, cap, strict);
      GrantsSnoc(caps[..i], cap);
      forall d ensures InGrants(names, segments, who, caps[..i + 1], d)
                  <==> InGrants(names, segments, who, caps[..i], d) || OfGrant(names, segments, who, cap, d)
      {
        InGrantsSnoc(names, segments, who, caps[..i], cap, d);
      }
      r := r + more;
      if cap.Credential? {
        referenced := referenced + {ProviderKey(cap.provider)};
      }
    }
    assert caps[..|caps|] == caps;
  }

  method LintServers(cfg: Config, strict: bool) returns (r: seq<Finding>, provided: set<string>)
    ensures forall f :: f in r <==> (exists s :: s in cfg.servers && InServer(s, f.defect)) && Graded(f, strict)
    ensures forall k :: k in provided <==> Provided(cfg, k)
  {
    r, provided := [], {};
    var servers := cfg.servers;
    for i := 0 to |servers|
      invariant forall f :: f in r <==> (exists s :: s in servers[..i] && InServer(s, f.defect)) && Graded(f, strict)
      invariant forall k :: k in provided
                       <==> (exists s :: s in servers[..i] && !s.isHttp && GrantsProvider(CapsOf(s.capabilities), k))
    {
      var more, keys := LintServer(servers[i], strict);
      assert servers[..i + 1] == servers[..i] + [servers[i]];
      r, provided := r + more, provided + keys;
    }
    assert servers[..|servers|] == servers;
  }

  method LintAgents(cfg: Config, agents: seq<AgentConfig>, strict: bool)
    returns (r: seq<Finding>, referenced: set<string>)
    ensures forall f :: f in r <==> InAgents(cfg, agents, f.defect) && Graded(f, strict)
    ensures forall k :: k in referenced <==> exists a :: a in agents && GrantsProvider(CapsOf(a.capabilities), k)
  {
    r, referenced := [], {};
    var names, segments := ServerNames(cfg), SegmentNames(cfg);
    for i := 0 to |agents|
      invariant forall f :: f in r <==> InAgents(cfg, agents[..i], f.defect) && Graded(f, strict)
      invariant forall k :: k in referenced
                       <==> (exists a :: a in agents[..i] && GrantsProvider(CapsOf(a.capabilities), k))
    {
      var a := agents[i];
      assert agents[..i + 1] == agents[..i] + [a];
      if a.capabilities.None? {
        r := r + [Report(Unrestricted(a.id), strict)];
      }
      var more, keys := LintGrants(names, segments, OfAgent(a.id), CapsOf(a.capabilities), strict);
      r, referenced := r + more, referenced + keys;
    }
    assert agents[..|agents|] == agents;
  }

  method LintJobs(cfg: Config, strict: bool) returns (r: seq<Finding>, referenced: set<string>)
    ensures forall f :: f in r <==> InJobs(cfg, f.defect) && Graded(f, strict)
    ensures forall k :: k in referenced <==> exists j :: j in cfg.jobs && GrantsProvider(j.capabilities, k)
  {
    r, referenced := [], {};
    var names, segments := ServerNames(cfg), SegmentNames(cfg);
    for i := 0 to |cfg.jobs|
      invariant forall f :: f in r <==> InJobs(cfg.(jobs := cfg.jobs[..i]), f.defect) && Graded(f, strict)
      invariant forall k :: k in referenced <==> (exists j :: j in cfg.jobs[..i] && GrantsProvider(j.capabilities, k))
    {
      var j := cfg.jobs[i];
      assert cfg.jobs[..i + 1] == cfg.jobs[..i] + [j];
      var more, keys := LintGrants(names, segments, OfJob(j.id), j.capabilities, strict);
      r, referenced := r + more, referenced + keys;
    }
    assert cfg.jobs[..|cfg.jobs|] == cfg.jobs;
  }

  method LintWiring(referenced: set<string>, provided: set<string>, strict: bool) returns (r: seq<Finding>)
    ensures forall f :: f in r <==> && f.defect.UnwiredProvider? && f.defect.key in referenced
                                    && f.defect.key !in provided && Graded(f, strict)
  {
    r := [];
    var left := referenced;
    while left != {}
      invariant left <= referenced
      invariant forall f :: f in r <==> && f.defect.UnwiredProvider? && f.defect.key in referenced - left
                                        && f.defect.key !in provided && Graded(f, strict)
      decreases left
    {
      var k :| k in left;
      left := left - {k};
      if k !in provided {
        r := r + [Report(UnwiredProvider(k), strict)];
      }
    }
  }

  /** `check_config`: the report holds exactly the defects that are present. */
  method CheckConfig(cfg: Config, strict: bool) returns (r: seq<Finding>)
    ensures forall f :: f in r <==> Present(cfg, f.defect) && Graded(f, strict)
    ensures (exists f :: f in r && f.error) <==> exists d :: Present(cfg, d) && IsError(d, strict)
    ensures (forall f :: f in r ==> !f.error) <==> WellFormed(cfg, strict)
  {
    var provided, referenced, more, keys;
    r, provided := LintServers(cfg, strict);
    var lowered := AgentConfigs(cfg);
    if lowered.Err? {
      r := r + [Report(LoweringFailed, strict)];
    } else {
      var agents := lowered.value;
      more, referenced := LintAgents(cfg, agents, strict);
      r := r + more;
      more, keys := LintJobs(cfg, strict);
      r, referenced := r + more, referenced + keys;
      more := LintWiring(referenced, provided, strict);
      r := r + more;
      if cfg.requireCapabilities && exists s :: s in cfg.servers && s.isHttp {
        r := r + [Report(HttpExempt, strict)];
      }
    }
    ErrorsMeanDefects(cfg, strict, r);
    ErrorFreeIff(cfg, strict);
  }

  lemma ErrorsMeanDefects(cfg: Config, strict: bool, r: seq<Finding>)
    requires forall f :: f in r <==> Present(cfg, f.defect) && Graded(f, strict)
    ensures (exists f :: f in r && f.error) <==> exists d :: Present(cfg, d) && IsError(d, strict)
  {
    if d :| Present(cfg, d) && IsError(d, strict) {
      assert Finding(true, d) in r;
    }
  }

  // ----- what a report means in the config's own fields -----

  /** The agents are given in one form, or left out where that is allowed. */
  predicate Lowers(cfg: Config) {
    if cfg.agent.Some? then cfg.agents == [] else cfg.agents != [] || cfg.allowEmptyAgents
  }

  predicate HasAgent(cfg: Config, a: AgentConfig) {
    cfg.agent == Some(a) || a in cfg.agents
  }

  /** `who` is an agent or a job with this capability list. */
  ghost predicate Lists(cfg: Config, who: Holder, caps: seq<Capability>) {
    || (exists a :: HasAgent(cfg, a) && who == OfAgent(a.id) && a.capabilities == Some(caps))
    || (exists j :: j in cfg.jobs && who == OfJob(j.id) && j.capabilities == caps)
  }

  /** Some stdio server of this name has this capability list. */
  predicate ServerLists(cfg: Config, name: string, caps: seq<Capability>) {
    exists s :: s in cfg.servers && !s.isHttp && s.name == name && s.capabilities == Some(caps)
  }

  lemma LoweredAgents(cfg: Config)
    ensures AgentConfigs(cfg).Ok? <==> Lowers(cfg)
    ensures Lowers(cfg) ==> forall a :: a in AgentConfigs(cfg).value <==> HasAgent(cfg, a)
    ensures Present(cfg, LoweringFailed) <==> !Lowers(cfg)
  {
  }

  /** Defects of held grants are those of the lists that agents and jobs have. */
  lemma HeldDefects(cfg: Config, d: Defect)
    requires Lowers(cfg) && !d.Unrestricted?
    ensures InAgents(cfg, AgentConfigs(cfg).value, d) || InJobs(cfg, d)
       <==> exists who, caps :: Lists(cfg, who, caps) && InGrants(ServerNames(cfg), SegmentNames(cfg), who, caps, d)
  {
    LoweredAgents(cfg);
    var names, segments := ServerNames(cfg), SegmentNames(cfg);
    if InAgents(cfg, AgentConfigs(cfg).value, d) {
      var a :| a in AgentConfigs(cfg).value && InGrants(names, segments, OfAgent(a.id), CapsOf(a.capabilities), d);
      assert HasAgent(cfg, a) && Lists(cfg, OfAgent(a.id), CapsOf(a.capabilities));
    }
    if InJobs(cfg, d) {
      var j :| j in cfg.jobs && InGrants(names, segments, OfJob(j.id), j.capabilities, d);
      assert Lists(cfg, OfJob(j.id), j.capabilities);
    }
  }

  lemma HttpDefectIff(cfg: Config, server: string)
    ensures Present(cfg, HttpCapabilities(server))
       <==> exists s :: s in cfg.servers && s.isHttp && s.name == server && s.capabilities.Some?
    ensures Present(cfg, HttpIsolation(server))
       <==> exists s :: s in cfg.servers && s.isHttp && s.name == server && s.isolated
  {
  }

  lemma UnknownServerIff(cfg: Config, who: Holder, server: string)
    requires Lowers(cfg)
    ensures Present(cfg, UnknownServer(who, server))
       <==> && (exists caps, tools :: Lists(cfg, who, caps) && Mcp(server, tools) in caps)
            && forall s :: s in cfg.servers ==> s.name != server
  {
    HeldDefects(cfg, UnknownServer(who, server));
    forall caps ensures GrantsServer(caps, server) <==> exists tools :: Mcp(server, tools) in caps {
      if c :| c in caps && OnServer(c, server) {
        assert Mcp(server, c.tools) in caps;
      }
      if tools :| Mcp(server, tools) in caps {
        assert OnServer(Mcp(server, tools), server);
      }
    }
  }

  lemma BareSegmentDefectIff(cfg: Config, who: Holder, segment: string)
    requires Lowers(cfg)
    ensures Present(cfg, BareSegment(who, segment))
       <==> segment == "agent"
            && exists caps :: Lists(cfg, who, caps) && (KbRead(segment) in caps || KbWrite(segment) in caps)
  {
    HeldDefects(cfg, BareSegment(who, segment));
  }

  lemma DeclaredIff(cfg: Config, segment: string)
    ensures KbSegmentDeclared(segment, SegmentNames(cfg))
       <==> exists seg :: seg in cfg.segments && (seg == segment || (segment != "" && AtOrBelow(segment, seg)))
  {
    forall seg ensures KbSegmentSatisfies(segment, seg) <==> segment != "" && AtOrBelow(segment, seg) {
      SegmentIff(segment, seg);
    }
    assert forall seg :: seg in SegmentNames(cfg) <==> seg in cfg.segments;
  }

  lemma UndeclaredSegmentIff(cfg: Config, who: Holder, segment: string)
    requires Lowers(cfg)
    ensures Present(cfg, UndeclaredSegment(who, segment))
       <==> && segment != "agent"
            && (exists caps :: Lists(cfg, who, caps) && (KbRead(segment) in caps || KbWrite(segment) in caps))
            && forall seg :: seg in cfg.segments ==> seg != segment && (segment == "" || !AtOrBelow(segment, seg))
  {
    HeldDefects(cfg, UndeclaredSegment(who, segment));
    DeclaredIff(cfg, segment);
  }

  /** Two spellings of one provider: itself, or a custom one with its configuration name. */
  predicate SameProvider(p: Provider, q: Provider) {
    || p == q
    || (p == Google && q == Custom("google")) || (q == Google && p == Custom("google"))
    || (p == BraveSearch && q == Custom("brave-search")) || (q == BraveSearch && p == Custom("brave-search"))
  }

  lemma SameKey(p: Provider, q: Provider)
    ensures ProviderKey(p) == ProviderKey(q) <==> SameProvider(p, q)
  {
    assert "google"[0] != "brave-search"[0];
  }

  /** Some stdio server carries a credential for this provider. */
  ghost predicate Carried(cfg: Config, p: Provider) {
    exists name, caps, q :: ServerLists(cfg, name, caps) && Credential(q) in caps && SameProvider(p, q)
  }

  ghost predicate Held(cfg: Config, c: Capability) {
    exists who, caps :: Lists(cfg, who, caps) && c in caps
  }

  lemma ProvidedIff(cfg: Config, p: Provider)
    ensures Provided(cfg, ProviderKey(p)) <==> Carried(cfg, p)
  {
    if Provided(cfg, ProviderKey(p)) {
      var s :| s in cfg.servers && !s.isHttp && GrantsProvider(CapsOf(s.capabilities), ProviderKey(p));
      var c :| c in CapsOf(s.capabilities) && c.Credential? && ProviderKey(c.provider) == ProviderKey(p);
      SameKey(p, c.provider);
      assert ServerLists(cfg, s.name, CapsOf(s.capabilities)) && Credential(c.provider) in CapsOf(s.capabilities);
    }
    if Carried(cfg, p) {
      var name, caps, q :| ServerLists(cfg, name, caps) && Credential(q) in caps && SameProvider(p, q);
      SameKey(p, q);
      var s :| s in cfg.servers && !s.isHttp && s.name == name && s.capabilities == Some(caps);
      assert GrantsProvider(CapsOf(s.capabilities), ProviderKey(p));
    }
  }

  lemma ReferencedIff(cfg: Config, key: string)
    requires Lowers(cfg)
    ensures Referenced(cfg, AgentConfigs(cfg).value, key)
       <==> exists p :: Held(cfg, Credential(p)) && ProviderKey(p) == key
  {
    LoweredAgents(cfg);
    var agents := AgentConfigs(cfg).value;
    if a :| a in agents && GrantsProvider(CapsOf(a.capabilities), key) {
      var c :| c in CapsOf(a.capabilities) && c.Credential? && ProviderKey(c.provider) == key;
      assert HasAgent(cfg, a) && Lists(cfg, OfAgent(a.id), CapsOf(a.capabilities));
      assert Held(cfg, Credential(c.provider));
    }
    if j :| j in cfg.jobs && GrantsProvider(j.capabilities, key) {
      var c :| c in j.capabilities && c.Credential? && ProviderKey(c.provider) == key;
      assert Lists(cfg, OfJob(j.id), j.capabilities) && Held(cfg, Credential(c.provider));
    }
    if p :| Held(cfg, Credential(p)) && ProviderKey(p) == key {
      var who, caps :| Lists(cfg, who, caps) && Credential(p) in caps;
      assert GrantsProvider(caps, key);
    }
  }

  lemma UnwiredProviderIff(cfg: Config, key: string)
    requires Lowers(cfg)
    ensures Present(cfg, UnwiredProvider(key))
       <==> exists p :: Held(cfg, Credential(p)) && ProviderKey(p) == key && !Carried(cfg, p)
  {
    UnwiredIsReferenced(cfg, key);
    ReferencedIff(cfg, key);
    forall p | ProviderKey(p) == key ensures Provided(cfg, key) <==> Carried(cfg, p) {
      ProvidedIff(cfg, p);
    }
  }

  lemma UnwiredIsReferenced(cfg: Config, key: string)
    requires Lowers(cfg)
    ensures Present(cfg, UnwiredProvider(key))
       <==> Referenced(cfg, AgentConfigs(cfg).value, key) && !Provided(cfg, key)
  {
    LoweredAgents(cfg);
  }

  /** An absolute prefix without white space around it. */
  predicate Tidy(prefix: string) {
    prefix != "" && prefix[0] == '/' && Trim(prefix) == prefix
  }

  lemma {:induction false} TrimEndShrinks(s: string)
    ensures |TrimEnd(s)| <= |s|
    decreases |s|
  {
    if s != [] && IsSpace(s[|s| - 1]) {
      TrimEndShrinks(s[..|s| - 1]);
    }
  }

  lemma SuspectIff(prefix: string)
    ensures IsSuspectFsPrefix(prefix) <==> !Tidy(prefix)
  {
    if prefix != "" && prefix[0] == '/' {
      assert TrimStart(prefix) == prefix;
      TrimEndShrinks(prefix[..|prefix| - 1]);
    }
  }

  lemma RelativePrefixIff(cfg: Config, who: Holder, prefix: string)
    requires Lowers(cfg)
    ensures Present(cfg, RelativePrefix(who, prefix))
       <==> !Tidy(prefix)
            && exists caps :: (Lists(cfg, who, caps) || (who.OfServer? && ServerLists(cfg, who.name, caps)))
                              && (FsRead(prefix) in caps || FsWrite(prefix) in caps)
  {
    var d := RelativePrefix(who, prefix);
    LoweredAgents(cfg);
    SuspectIff(prefix);
    HeldDefects(cfg, d);
    if s :| s in cfg.servers && InServer(s, d) {
      assert ServerLists(cfg, s.name, CapsOf(s.capabilities));
    }
  }

  /** Which grants do nothing where they are: for agents and jobs, and for stdio servers. */
  lemma InertGrantIff(cfg: Config, who: Holder, c: Capability)
    requires Lowers(cfg)
    ensures Present(cfg, InertGrant(who, c))
       <==> || ((c.Net? || c == ShellExec) && exists caps :: Lists(cfg, who, caps) && c in caps)
            || ((c.Mcp? || c.KbRead? || c.KbWrite? || c == RunsRead || c == BriefPublish || c == RunJob)
                && who.OfServer? && exists caps :: ServerLists(cfg, who.name, caps) && c in caps)
  {
    var d := InertGrant(who, c);
    LoweredAgents(cfg);
    HeldDefects(cfg, d);
    if s :| s in cfg.servers && InServer(s, d) {
      assert ServerLists(cfg, s.name, CapsOf(s.capabilities));
    }
  }

  lemma UnrestrictedIff(cfg: Config, agent: string)
    requires Lowers(cfg)
    ensures Present(cfg, Unrestricted(agent)) <==> exists a :: HasAgent(cfg, a) && a.id == agent && a.capabilities.None?
    ensures Present(cfg, HttpExempt) <==> cfg.requireCapabilities && exists s :: s in cfg.servers && s.isHttp
  {
    LoweredAgents(cfg);
  }

  /** What an error-free report stands for. */
  ghost predicate WellFormed(cfg: Config, strict: bool) {
    && Lowers(cfg)
    && (forall s :: s in cfg.servers && s.isHttp ==> s.capabilities == None && !s.isolated)
    && (forall server, tools :: Held(cfg, Mcp(server, tools)) ==> exists s :: s in cfg.servers && s.name == server)
    && !Held(cfg, KbRead("agent")) && !Held(cfg, KbWrite("agent"))
    && (forall p :: Held(cfg, Credential(p)) ==> Carried(cfg, p))
    && (strict ==> forall prefix :: HasFile(cfg, prefix) ==> Tidy(prefix))
  }

  /** An agent, a job or a stdio server has a file grant with this prefix. */
  ghost predicate HasFile(cfg: Config, prefix: string) {
    exists who, caps ::
      (Lists(cfg, who, caps) || (who.OfServer? && ServerLists(cfg, who.name, caps)))
      && (FsRead(prefix) in caps || FsWrite(prefix) in caps)
  }

  ghost predicate NoErrors(cfg: Config, strict: bool) {
    forall d :: Present(cfg, d) ==> !IsError(d, strict)
  }

  lemma UnknownIsHeld(cfg: Config, who: Holder, server: string)
    requires Lowers(cfg) && Present(cfg, UnknownServer(who, server))
    ensures exists tools :: Held(cfg, Mcp(server, tools))
    ensures forall s :: s in cfg.servers ==> s.name != server
  {
    UnknownServerIff(cfg, who, server);
  }

  lemma BareIsHeld(cfg: Config, who: Holder, segment: string)
    requires Lowers(cfg) && Present(cfg, BareSegment(who, segment))
    ensures Held(cfg, KbRead("agent")) || Held(cfg, KbWrite("agent"))
  {
    BareSegmentDefectIff(cfg, who, segment);
  }

  lemma WellFormedHasNoErrors(cfg: Config, strict: bool, d: Defect)
    requires WellFormed(cfg, strict) && Present(cfg, d)
    ensures !IsError(d, strict)
  {
    match d
    case HttpCapabilities(n) => HttpDefectIff(cfg, n);
    case HttpIsolation(n) => HttpDefectIff(cfg, n);
    case LoweringFailed => LoweredAgents(cfg);
    case UnknownServer(who, server) => UnknownIsHeld(cfg, who, server);
    case BareSegment(who, segment) => BareIsHeld(cfg, who, segment);
    case UnwiredProvider(key) => UnwiredProviderIff(cfg, key);
    case RelativePrefix(who, prefix) =>
      RelativePrefixIff(cfg, who, prefix);
      assert HasFile(cfg, prefix);
    case _ =>
  }

  lemma HeldIsFound(cfg: Config, strict: bool)
    requires NoErrors(cfg, strict) && Lowers(cfg)
    ensures forall server, tools :: Held(cfg, Mcp(server, tools)) ==> exists s :: s in cfg.servers && s.name == server
    ensures !Held(cfg, KbRead("agent")) && !Held(cfg, KbWrite("agent"))
    ensures forall p :: Held(cfg, Credential(p)) ==> Carried(cfg, p)
  {
    forall server, tools | Held(cfg, Mcp(server, tools)) ensures exists s :: s in cfg.servers && s.name == server {
      var who, caps :| Lists(cfg, who, caps) && Mcp(server, tools) in caps;
      UnknownServerIff(cfg, who, server);
      assert !Present(cfg, UnknownServer(who, server));
    }
    forall who, caps | Lists(cfg, who, caps) ensures KbRead("agent") !in caps && KbWrite("agent") !in caps {
      BareSegmentDefectIff(cfg, who, "agent");
      assert !Present(cfg, BareSegment(who, "agent"));
    }
    forall p | Held(cfg, Credential(p)) ensures Carried(cfg, p) {
      UnwiredProviderIff(cfg, ProviderKey(p));
      assert !Present(cfg, UnwiredProvider(ProviderKey(p)));
    }
  }

  lemma ServersAreFound(cfg: Config, strict: bool)
    requires NoErrors(cfg, strict)
    ensures forall s :: s in cfg.servers && s.isHttp ==> s.capabilities == None && !s.isolated
  {
    forall s | s in cfg.servers && s.isHttp ensures s.capabilities == None && !s.isolated {
      HttpDefectIff(cfg, s.name);
      assert !Present(cfg, HttpCapabilities(s.name)) && !Present(cfg, HttpIsolation(s.name));
    }
  }

  lemma PrefixesAreFound(cfg: Config)
    requires NoErrors(cfg, true) && Lowers(cfg)
    ensures forall prefix :: HasFile(cfg, prefix) ==> Tidy(prefix)
  {
    forall prefix | HasFile(cfg, prefix) ensures Tidy(prefix) {
      var who, caps :| (Lists(cfg, who, caps) || (who.OfServer? && ServerLists(cfg, who.name, caps)))
                       && (FsRead(prefix) in caps || FsWrite(prefix) in caps);
      RelativePrefixIff(cfg, who, prefix);
      assert !Present(cfg, RelativePrefix(who, prefix));
    }
  }

  /** In either profile, the report is free of errors exactly if the config is well formed. */
  lemma ErrorFreeIff(cfg: Config, strict: bool)
    ensures NoErrors(cfg, strict) <==> WellFormed(cfg, strict)
  {
    if WellFormed(cfg, strict) {
      forall d | Present(cfg, d) ensures !IsError(d, strict) {
        WellFormedHasNoErrors(cfg, strict, d);
      }
    }
    if NoErrors(cfg, strict) {
      LoweredAgents(cfg);
      assert !Present(cfg, LoweringFailed);
      ServersAreFound(cfg, strict);
      HeldIsFound(cfg, strict);
      if strict {
        PrefixesAreFound(cfg);
      }
    }
  }

  // ----- what a clean config guarantees -----

  ghost predicate CleanConfig(cfg: Config) {
    forall d :: Present(cfg, d) ==> !IsError(d, true)
  }

  /** The capability lists the config declares. */
  predicate Declares(cfg: Config, caps: seq<Capability>) {
    || (exists s :: s in cfg.servers && s.capabilities == Some(caps))
    || (AgentConfigs(cfg).Ok? && exists a :: a in AgentConfigs(cfg).value && a.capabilities == Some(caps))
    || (exists j :: j in cfg.jobs && j.capabilities == caps)
  }

  lemma CleanPrefixIsAbsolute(cfg: Config, caps: seq<Capability>, g: Capability)
    requires CleanConfig(cfg) && Declares(cfg, caps) && g in caps && IsFile(g)
    ensures IsAbsolute(g.prefix)
  {
    if s :| s in cfg.servers && s.capabilities == Some(caps) {
      assert !InServer(s, HttpCapabilities(s.name)) by {
        assert InServer(s, HttpCapabilities(s.name)) ==> Present(cfg, HttpCapabilities(s.name));
      }
      assert InServer(s, RelativePrefix(OfServer(s.name), g.prefix))
         ==> Present(cfg, RelativePrefix(OfServer(s.name), g.prefix));
    } else if AgentConfigs(cfg).Err? {
      assert Present(cfg, LoweringFailed);
    } else if a :| a in AgentConfigs(cfg).value && a.capabilities == Some(caps) {
      var d := RelativePrefix(OfAgent(a.id), g.prefix);
      assert InGrants(ServerNames(cfg), SegmentNames(cfg), OfAgent(a.id), caps, d) ==> Present(cfg, d);
    } else {
      var j :| j in cfg.jobs && j.capabilities == caps;
      var d := RelativePrefix(OfJob(j.id), g.prefix);
      assert InGrants(ServerNames(cfg), SegmentNames(cfg), OfJob(j.id), caps, d) ==> Present(cfg, d);
    }
  }

  /** Under a clean config, an absolute file request gets the same answer in every working directory. */
  lemma CleanConfigIgnoresAnchor(cfg: Config, caps: seq<Capability>, required: Capability, here: string, there: string)
    requires CleanConfig(cfg) && Declares(cfg, caps) && IsFile(required) && IsAbsolute(required.prefix)
    ensures Satisfies(here, caps, required) == Satisfies(there, caps, required)
  {
    forall g | g in caps && SameKind(g, required)
      ensures EntrySatisfies(here, g, required) == EntrySatisfies(there, g, required)
    {
      CleanPrefixIsAbsolute(cfg, caps, g);
    }
  }

  /** Under a clean config, no segment granted to an agent or a job reaches two agents' memories. */
  lemma CleanConfigIsolatesMemory(cfg: Config, caps: seq<Capability>, segment: string)
    requires CleanConfig(cfg) && GrantsSegment(caps, segment)
    requires || (AgentConfigs(cfg).Ok? && exists a :: a in AgentConfigs(cfg).value && a.capabilities == Some(caps))
             || exists j :: j in cfg.jobs && j.capabilities == caps
    ensures !CoversTwoAgents(segment)
  {
    if AgentConfigs(cfg).Err? {
      assert Present(cfg, LoweringFailed);
    } else if a :| a in AgentConfigs(cfg).value && a.capabilities == Some(caps) {
      var d := BareSegment(OfAgent(a.id), segment);
      assert InGrants(ServerNames(cfg), SegmentNames(cfg), OfAgent(a.id), caps, d) ==> Present(cfg, d);
    } else {
      var j :| j in cfg.jobs && j.capabilities == caps;
      var d := BareSegment(OfJob(j.id), segment);
      assert InGrants(ServerNames(cfg), SegmentNames(cfg), OfJob(j.id), caps, d) ==> Present(cfg, d);
    }
    if segment != "" {
      BareSegmentIff(segment);
    }
  }
}
