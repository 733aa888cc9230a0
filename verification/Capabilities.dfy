/** Capabilities, the runtime check and the attenuation check (agentd/src/capability.rs). */
module Capabilities {
  import opened Common
  import opened Paths

  datatype Provider = Google | BraveSearch | Custom(name: string)

  /** A TCP port. */
  type Port = n: int | 0 <= n <= 0xFFFF

  datatype Capability =
    | FsRead(prefix: string)
    | FsWrite(prefix: string)
    | Net(hosts: seq<string>, ports: seq<Port>)
    | Mcp(server: string, tools: seq<string>)
    | Spawn
    | KbRead(segment: string)
    | KbWrite(segment: string)
    | ShellExec
    | Credential(provider: Provider)
    | RunsRead
    | BriefPublish
    | RunJob

  /** One granted prefix against one requested path. */
  predicate FsAllows(anchor: string, prefix: string, path: string) {
    !GrantedPrefixIsInvalid(prefix) && PathStartsWith(AnchorAbs(anchor, path), AnchorAbs(anchor, prefix))
  }

  predicate IsDelimiter(c: char) {
    c == ':' || c == '/'
  }

  predicate KbSegmentSatisfies(granted: string, required: string) {
    granted != "" &&
    (required == granted ||
     (granted <= required && |granted| < |required| && IsDelimiter(required[|granted|])))
  }

  predicate McpAllows(g: Capability, server: string, tools: seq<string>) {
    OnServer(g, server) && (g.tools == [] || forall t :: t in tools ==> t in g.tools)
  }

  /** One granted entry against one concrete request. */
  predicate EntrySatisfies(anchor: string, g: Capability, required: Capability) {
    match required
    case FsRead(path) => g.FsRead? && FsAllows(anchor, g.prefix, path)
    case FsWrite(path) => g.FsWrite? && FsAllows(anchor, g.prefix, path)
    case Net(_, _) => true
    case Mcp(server, tools) => McpAllows(g, server, tools)
    case KbRead(segment) => segment != "" && g.KbRead? && KbSegmentSatisfies(g.segment, segment)
    case KbWrite(segment) => segment != "" && g.KbWrite? && KbSegmentSatisfies(g.segment, segment)
    case Credential(provider) => g.Credential? && g.provider == provider
    case Spawn => g.Spawn?
    case ShellExec => g.ShellExec?
    case RunsRead => g.RunsRead?
    case BriefPublish => g.BriefPublish?
    case RunJob => g.RunJob?
  }

  /** `satisfies`; the network is advisory here and always passes. */
  predicate Satisfies(anchor: string, granted: seq<Capability>, required: Capability) {
    required.Net? || exists g :: g in granted && EntrySatisfies(anchor, g, required)
  }

  /** `satisfies_type`: an empty path, segment or custom provider asks for any grant of the kind. */
  predicate SatisfiesType(anchor: string, granted: seq<Capability>, required: Capability) {
    match required
    case FsRead("") => exists g :: g in granted && g.FsRead?
    case FsWrite("") => exists g :: g in granted && g.FsWrite?
    case KbRead("") => exists g :: g in granted && g.KbRead?
    case KbWrite("") => exists g :: g in granted && g.KbWrite?
    case Credential(Custom("")) => exists g :: g in granted && g.Credential?
    case _ => Satisfies(anchor, granted, required)
  }

  predicate ListCovers<T(==)>(parent: seq<T>, child: seq<T>) {
    parent == [] || (child != [] && forall c :: c in child ==> c in parent)
  }

  predicate OnServer(p: Capability, server: string) {
    p.Mcp? && p.server == server
  }

  /** Network grants are compared entry by entry, so hosts and ports of two entries never mix. */
  predicate NetCovered(parent: seq<Capability>, hosts: seq<string>, ports: seq<Port>) {
    exists p :: p in parent && p.Net? && ListCovers(p.hosts, hosts) && ListCovers(p.ports, ports)
  }

  predicate HasServer(parent: seq<Capability>, server: string) {
    exists p :: p in parent && OnServer(p, server)
  }

  predicate HasWildcard(parent: seq<Capability>, server: string) {
    exists p :: p in parent && OnServer(p, server) && p.tools == []
  }

  predicate HasTool(parent: seq<Capability>, server: string, tool: string) {
    exists p :: p in parent && OnServer(p, server) && tool in p.tools
  }

  /** Tools are compared against the union of the server's entries. */
  predicate McpCovered(parent: seq<Capability>, server: string, tools: seq<string>) {
    if !HasServer(parent, server) then false
    else if HasWildcard(parent, server) then true
    else if tools == [] then false
    else forall t :: t in tools ==> HasTool(parent, server, t)
  }

  /** `capability_covered_by`. */
  predicate CoveredBy(anchor: string, parent: seq<Capability>, child: Capability) {
    match child
    case Net(hosts, ports) => NetCovered(parent, hosts, ports)
    case Mcp(server, tools) => McpCovered(parent, server, tools)
    case _ => Satisfies(anchor, parent, child)
  }

  predicate AllCoveredBy(anchor: string, parent: seq<Capability>, child: seq<Capability>) {
    forall c :: c in child ==> CoveredBy(anchor, parent, c)
  }

  // ----- attenuation composes -----

  lemma KbComposes(a: string, b: string, c: string)
    requires KbSegmentSatisfies(a, b) && KbSegmentSatisfies(b, c)
    ensures KbSegmentSatisfies(a, c)
  {
    if a != b && b != c {
      assert c[|a|] == b[|a|];
    }
  }

  /** An entry that covers `b` at runtime also covers what `b` covers. */
  lemma EntryComposes(anchor: string, a: Capability, b: Capability, c: Capability)
    requires EntrySatisfies(anchor, a, b) && EntrySatisfies(anchor, b, c)
    requires !b.Net? && !c.Net? && !b.Mcp? && !c.Mcp?
    ensures EntrySatisfies(anchor, a, c)
  {
    if c.KbRead? || c.KbWrite? {
      KbComposes(a.segment, b.segment, c.segment);
    }
  }

  lemma NetComposes(A: seq<Capability>, B: seq<Capability>, hosts: seq<string>, ports: seq<Port>)
    requires forall b :: b in B && b.Net? ==> NetCovered(A, b.hosts, b.ports)
    requires NetCovered(B, hosts, ports)
    ensures NetCovered(A, hosts, ports)
  {
    var b :| b in B && b.Net? && ListCovers(b.hosts, hosts) && ListCovers(b.ports, ports);
    var a :| a in A && a.Net? && ListCovers(a.hosts, b.hosts) && ListCovers(a.ports, b.ports);
    assert ListCovers(a.hosts, hosts) && ListCovers(a.ports, ports);
  }

  lemma McpComposes(A: seq<Capability>, B: seq<Capability>, server: string, tools: seq<string>)
    requires forall b :: b in B && b.Mcp? ==> McpCovered(A, b.server, b.tools)
    requires McpCovered(B, server, tools)
    ensures McpCovered(A, server, tools)
  {
    if !HasWildcard(A, server) {
      forall t | t in tools ensures HasTool(A, server, t) {
        var b :| b in B && OnServer(b, server) && t in b.tools;
      }
    }
  }

  /** What B covers, A covers, when A covers all of B. */
  lemma CoverComposes(anchor: string, A: seq<Capability>, B: seq<Capability>, c: Capability)
    requires AllCoveredBy(anchor, A, B) && CoveredBy(anchor, B, c)
    ensures CoveredBy(anchor, A, c)
  {
    match c
    case Net(hosts, ports) =>
      forall b | b in B && b.Net? ensures NetCovered(A, b.hosts, b.ports) {
        assert CoveredBy(anchor, A, b);
      }
      NetComposes(A, B, hosts, ports);
    case Mcp(server, tools) =>
      forall b | b in B && b.Mcp? ensures McpCovered(A, b.server, b.tools) {
        assert CoveredBy(anchor, A, b);
      }
      McpComposes(A, B, server, tools);
    case _ => OtherComposes(anchor, A, B, c);
  }

  lemma OtherComposes(anchor: string, A: seq<Capability>, B: seq<Capability>, c: Capability)
    requires AllCoveredBy(anchor, A, B) && Satisfies(anchor, B, c) && !c.Net? && !c.Mcp?
    ensures Satisfies(anchor, A, c)
  {
    var b :| b in B && EntrySatisfies(anchor, b, c);
    assert !b.Net? && !b.Mcp?;
    assert CoveredBy(anchor, A, b) && Satisfies(anchor, A, b);
    var a :| a in A && EntrySatisfies(anchor, a, b);
    EntryComposes(anchor, a, b, c);
  }

  /** An agent's grants; `None` is an unrestricted agent. */
  type Grants = Option<seq<Capability>>

  /** One spawn or narrowing: nothing under an unrestricted parent is refused, a child may inherit. */
  predicate Narrows(anchor: string, parent: Grants, child: Grants) {
    || parent.None?
    || child == parent
    || (child.Some? && AllCoveredBy(anchor, parent.value, child.value))
  }

  /** Unrestricted parents refuse nothing, restricted ones refuse unrestricted children and any gain. */
  lemma NarrowsIff(anchor: string, parent: seq<Capability>, child: seq<Capability>)
    ensures Narrows(anchor, None, None) && Narrows(anchor, None, Some(child))
    ensures !Narrows(anchor, Some(parent), None)
    ensures Narrows(anchor, Some(parent), Some(child))
       <==> child == parent || forall c :: c in child ==> CoveredBy(anchor, parent, c)
  {
  }

  lemma NarrowsComposes(anchor: string, a: Grants, b: Grants, c: Grants)
    requires Narrows(anchor, a, b) && Narrows(anchor, b, c)
    ensures Narrows(anchor, a, c)
  {
    if a.Some? && b != a && c != b {
      forall x | x in c.value ensures CoveredBy(anchor, a.value, x) {
        CoverComposes(anchor, a.value, b.value, x);
      }
    }
  }

  /** Along a chain of spawns and narrowings of any length, the last set narrows the first. */
  lemma {:induction false} ChainNarrows(anchor: string, chain: seq<Grants>)
    requires chain != []
    requires forall i :: 0 <= i < |chain| - 1 ==> Narrows(anchor, chain[i], chain[i + 1])
    ensures Narrows(anchor, chain[0], chain[|chain| - 1])
  {
    var n := |chain| - 1;
    if n > 0 {
      ChainNarrows(anchor, chain[..n]);
      assert Narrows(anchor, chain[n - 1], chain[n]);
      NarrowsComposes(anchor, chain[0], chain[n - 1], chain[n]);
    }
  }

  // ----- no gain by attenuation -----

  /** A request names at most one MCP tool. */
  predicate OneToolAtMost(required: Capability) {
    required.Mcp? ==> forall s, t :: s in required.tools && t in required.tools ==> s == t
  }

  lemma EntryNoGain(anchor: string, parent: seq<Capability>, c: Capability, required: Capability)
    requires CoveredBy(anchor, parent, c) && EntrySatisfies(anchor, c, required)
    requires OneToolAtMost(required)
    ensures Satisfies(anchor, parent, required)
  {
    match required
    case Net(_, _) =>
    case Mcp(server, tools) =>
      McpNoGain(parent, c, server, tools);
      var p :| p in parent && McpAllows(p, server, tools);
      assert EntrySatisfies(anchor, p, required);
    case _ =>
      var p :| p in parent && EntrySatisfies(anchor, p, c);
      EntryComposes(anchor, p, c, required);
  }

  lemma McpNoGain(parent: seq<Capability>, c: Capability, server: string, tools: seq<string>)
    requires McpAllows(c, server, tools) && McpCovered(parent, server, c.tools)
    requires forall s, t :: s in tools && t in tools ==> s == t
    ensures exists p :: p in parent && McpAllows(p, server, tools)
  {
    if HasWildcard(parent, server) {
      var p :| p in parent && OnServer(p, server) && p.tools == [];
      assert McpAllows(p, server, tools);
    } else if tools == [] {
      var p :| p in parent && OnServer(p, server);
      assert McpAllows(p, server, tools);
    } else {
      assert HasTool(parent, server, tools[0]);
      var p :| p in parent && OnServer(p, server) && tools[0] in p.tools;
      assert McpAllows(p, server, tools);
    }
  }

  /** A covered child set can do nothing its parent could not. */
  lemma NoGain(anchor: string, parent: seq<Capability>, child: seq<Capability>, required: Capability)
    requires AllCoveredBy(anchor, parent, child) && Satisfies(anchor, child, required)
    requires OneToolAtMost(required)
    ensures Satisfies(anchor, parent, required)
  {
    if !required.Net? {
      var c :| c in child && EntrySatisfies(anchor, c, required);
      EntryNoGain(anchor, parent, c, required);
    }
  }

  predicate Permits(anchor: string, g: Grants, required: Capability) {
    g.None? || Satisfies(anchor, g.value, required)
  }

  /** Down any chain of spawns, nothing becomes possible that was not possible at the top. */
  lemma ChainNoGain(anchor: string, chain: seq<Grants>, required: Capability)
    requires chain != [] && OneToolAtMost(required)
    requires forall i :: 0 <= i < |chain| - 1 ==> Narrows(anchor, chain[i], chain[i + 1])
    requires Permits(anchor, chain[|chain| - 1], required)
    ensures Permits(anchor, chain[0], required)
  {
    ChainNarrows(anchor, chain);
    var top, last := chain[0], chain[|chain| - 1];
    if top.Some? && last != top {
      NoGain(anchor, top.value, last.value, required);
    }
  }

  ghost predicate NeverGained(required: Capability) {
    forall anchor: string, parent: seq<Capability>, child: seq<Capability> ::
      AllCoveredBy(anchor, parent, child) && Satisfies(anchor, child, required) ==> Satisfies(anchor, parent, required)
  }

  /** A parent with one entry for each tool. */
  function Singles(server: string, tools: seq<string>): seq<Capability> {
    seq(|tools|, i requires 0 <= i < |tools| => Mcp(server, [tools[i]]))
  }

  /** No gain holds for exactly those requests that name at most one tool. */
  lemma NoGainIff(required: Capability)
    ensures NeverGained(required) <==> OneToolAtMost(required)
  {
    if OneToolAtMost(required) {
      forall anchor: string, parent: seq<Capability>, child: seq<Capability>
        | AllCoveredBy(anchor, parent, child) && Satisfies(anchor, child, required)
        ensures Satisfies(anchor, parent, required)
      {
        NoGain(anchor, parent, child, required);
      }
    } else {
      var parent, child := Singles(required.server, required.tools), [required];
      var s, t :| s in required.tools && t in required.tools && s != t;
      SplitGrantGains("/", required.server, required.tools, s, t);
      assert AllCoveredBy("/", parent, child) && Satisfies("/", child, required);
      assert !Satisfies("/", parent, required);
    }
  }

  /** Tools granted one entry each cover the joint grant, but not a request for two at once. */
  lemma SplitGrantGains(anchor: string, server: string, tools: seq<string>, s: string, t: string)
    requires s in tools && t in tools && s != t
    ensures AllCoveredBy(anchor, Singles(server, tools), [Mcp(server, tools)])
    ensures Satisfies(anchor, [Mcp(server, tools)], Mcp(server, tools))
    ensures !Satisfies(anchor, Singles(server, tools), Mcp(server, tools))
  {
    var joint := Mcp(server, tools);
    assert !Satisfies(anchor, Singles(server, tools), joint) by {
      SinglesDoNotAllow(server, tools, s, t);
      McpSatisfiesIff(anchor, Singles(server, tools), server, tools);
    }
    assert Satisfies(anchor, [joint], joint) by {
      McpSatisfiesIff(anchor, [joint], server, tools);
      assert McpAllows([joint][0], server, tools);
    }
    SinglesCover(server, tools);
  }

  lemma McpSatisfiesIff(anchor: string, granted: seq<Capability>, server: string, tools: seq<string>)
    ensures Satisfies(anchor, granted, Mcp(server, tools)) <==> exists g :: g in granted && McpAllows(g, server, tools)
  {
    forall g ensures EntrySatisfies(anchor, g, Mcp(server, tools)) == McpAllows(g, server, tools) {
    }
  }

  lemma SinglesCover(server: string, tools: seq<string>)
    requires tools != []
    ensures McpCovered(Singles(server, tools), server, tools)
  {
    var parent := Singles(server, tools);
    assert parent[0] in parent && OnServer(parent[0], server);
    forall t | t in tools ensures HasTool(parent, server, t) {
      var i :| 0 <= i < |tools| && tools[i] == t;
      assert parent[i] in parent && OnServer(parent[i], server) && t in parent[i].tools;
    }
  }

  lemma SinglesDoNotAllow(server: string, tools: seq<string>, s: string, t: string)
    requires s in tools && t in tools && s != t
    ensures forall p :: p in Singles(server, tools) ==> !McpAllows(p, server, tools)
  {
    forall p | p in Singles(server, tools) ensures !McpAllows(p, server, tools) {
      var x :| p == Mcp(server, [x]);
      assert s !in p.tools || t !in p.tools;
    }
  }

  // ----- what each kind of request needs, in terms of the list alone -----

  predicate IsUnit(c: Capability) {
    c == Spawn || c == ShellExec || c == RunsRead || c == BriefPublish || c == RunJob
  }

  /** A credential is held for its own provider only, and a unit capability only as itself. */
  lemma HeldIff(anchor: string, granted: seq<Capability>, required: Capability)
    requires required.Credential? || IsUnit(required)
    ensures Satisfies(anchor, granted, required) <==> required in granted
    ensures CoveredBy(anchor, granted, required) <==> required in granted
  {
    forall g ensures EntrySatisfies(anchor, g, required) <==> g == required {
    }
  }

  /** `segment` is what is granted, or lies below it in either spelling. */
  predicate AtOrBelow(granted: string, segment: string) {
    segment == granted || granted + "/" <= segment || granted + ":" <= segment
  }

  lemma SegmentIff(granted: string, segment: string)
    ensures KbSegmentSatisfies(granted, segment) <==> granted != "" && AtOrBelow(granted, segment)
  {
    if granted <= segment && |granted| < |segment| {
      assert segment[..|granted| + 1] == granted + [segment[|granted|]];
    }
  }

  /** A segment can be read or written exactly below a granted segment of the same kind. */
  lemma SegmentAllowedIff(anchor: string, granted: seq<Capability>, segment: string)
    ensures Satisfies(anchor, granted, KbRead(segment))
       <==> segment != "" && exists seg :: KbRead(seg) in granted && seg != "" && AtOrBelow(seg, segment)
    ensures Satisfies(anchor, granted, KbWrite(segment))
       <==> segment != "" && exists seg :: KbWrite(seg) in granted && seg != "" && AtOrBelow(seg, segment)
  {
    forall seg ensures KbSegmentSatisfies(seg, segment) <==> seg != "" && AtOrBelow(seg, segment) {
      SegmentIff(seg, segment);
    }
    if seg :| KbRead(seg) in granted && segment != "" && seg != "" && AtOrBelow(seg, segment) {
      assert EntrySatisfies(anchor, KbRead(seg), KbRead(segment));
    }
    if seg :| KbWrite(seg) in granted && segment != "" && seg != "" && AtOrBelow(seg, segment) {
      assert EntrySatisfies(anchor, KbWrite(seg), KbWrite(segment));
    }
  }

  /** At runtime, one entry of the server has to allow all the tools; an empty entry allows any. */
  lemma ToolsAllowedIff(anchor: string, granted: seq<Capability>, server: string, tools: seq<string>)
    ensures Satisfies(anchor, granted, Mcp(server, tools))
       <==> exists held :: Mcp(server, held) in granted && (held == [] || forall t :: t in tools ==> t in held)
  {
    McpSatisfiesIff(anchor, granted, server, tools);
    if held :| Mcp(server, held) in granted && (held == [] || forall t :: t in tools ==> t in held) {
      assert McpAllows(Mcp(server, held), server, tools);
    }
  }

  /** For coverage, some entry of the server allows any tool, or each tool is in some entry of it. */
  lemma ToolsCoveredIff(anchor: string, parent: seq<Capability>, server: string, tools: seq<string>)
    ensures CoveredBy(anchor, parent, Mcp(server, tools))
       <==> || Mcp(server, []) in parent
            || (tools != [] && forall t :: t in tools ==> exists held :: Mcp(server, held) in parent && t in held)
  {
    if Mcp(server, []) in parent {
      assert OnServer(Mcp(server, []), server);
    }
    forall t | HasTool(parent, server, t) ensures exists held :: Mcp(server, held) in parent && t in held {
      var p :| p in parent && OnServer(p, server) && t in p.tools;
      assert p == Mcp(server, p.tools);
    }
    forall held, t | Mcp(server, held) in parent && t in held ensures HasTool(parent, server, t) {
      assert OnServer(Mcp(server, held), server);
    }
    if tools != [] && forall t :: t in tools ==> exists held :: Mcp(server, held) in parent && t in held {
      assert tools[0] in tools;
    }
  }

  /** At runtime the network is open; for coverage one entry has to allow the hosts and the ports. */
  lemma NetworkIff(anchor: string, parent: seq<Capability>, hosts: seq<string>, ports: seq<Port>)
    ensures Satisfies(anchor, parent, Net(hosts, ports))
    ensures CoveredBy(anchor, parent, Net(hosts, ports))
       <==> exists h, p :: Net(h, p) in parent
                           && (h == [] || (hosts != [] && forall x :: x in hosts ==> x in h))
                           && (p == [] || (ports != [] && forall x :: x in ports ==> x in p))
  {
    forall h: seq<string>, p: seq<Port> | Net(h, p) in parent && ListCovers(h, hosts) && ListCovers(p, ports)
      ensures NetCovered(parent, hosts, ports)
    {
      var entry := Net(h, p);
      assert entry in parent && entry.Net? && ListCovers(entry.hosts, hosts) && ListCovers(entry.ports, ports);
    }
    if NetCovered(parent, hosts, ports) {
      var g :| g in parent && g.Net? && ListCovers(g.hosts, hosts) && ListCovers(g.ports, ports);
      assert Net(g.hosts, g.ports) in parent;
    }
  }

  /** Coverage of files and segments is the runtime check of the child's own prefix or segment. */
  lemma CoverageIsSatisfaction(anchor: string, parent: seq<Capability>, child: Capability)
    requires IsFile(child) || child.KbRead? || child.KbWrite?
    ensures CoveredBy(anchor, parent, child) <==> Satisfies(anchor, parent, child)
  {
  }

  /** For a relative normal form, leading below every directory is starting with a name. */
  lemma EntersIff(cs: seq<Component>)
    requires Clean(cs) && Reduced(cs) && RootDir !in cs
    ensures Enters(cs) <==> cs != [] && !cs[0].ParentDir?
  {
    if cs == [] {
      assert Walk([], cs) == [];
    } else if cs[0].ParentDir? {
      var there := Walk([""], cs);
      LeavesSomeDirectory(cs);
      assert there != [] ==> there[0] in there;
    } else {
      assert cs[0] in cs;
      forall dir ensures dir < Walk(dir, cs) {
        EntersEveryDirectory(cs, dir);
      }
    }
  }

  /** Followed from any directory, these components lead strictly below it. */
  ghost predicate Enters(cs: seq<Component>) {
    forall dir :: dir < Walk(dir, cs)
  }

  lemma NormEnters(cs: seq<Component>)
    ensures Enters(Norm(cs)) == Enters(cs)
  {
    forall dir ensures Walk(dir, Norm(cs)) == Walk(dir, cs) {
      NormKeepsWalk(dir, cs);
    }
  }

  lemma RelativeValidIff(prefix: string)
    requires !IsAbsolute(prefix)
    ensures !GrantedPrefixIsInvalid(prefix) <==> Enters(Norm(Components(prefix)))
  {
    NormalizedComponents(prefix);
    ComponentsShape(prefix);
    NormIsClean(Components(prefix));
    EntersIff(Norm(Components(prefix)));
  }

  /** A prefix is valid exactly if it is absolute or leads strictly below every working directory. */
  lemma ValidPrefixIff(prefix: string)
    ensures !GrantedPrefixIsInvalid(prefix) <==> IsAbsolute(prefix) || Enters(Components(prefix))
  {
    if IsAbsolute(prefix) {
      AbsolutePrefixIsValid(prefix);
    } else {
      RelativeValidIff(prefix);
      NormEnters(Components(prefix));
    }
  }

  lemma EntersEveryDirectory(cs: seq<Component>, dir: seq<string>)
    requires Clean(cs) && Reduced(cs) && cs != [] && cs[0].Normal?
    ensures dir < Walk(dir, cs)
  {
    forall j | 0 <= j < |cs| ensures cs[j].Normal? {
      NamesStayNames(cs, 0, j);
    }
    WalkNames(dir, cs);
    assert |Names(cs)| > 0;
  }

  /** After a leading climb, what is reached from a directory with a nameless entry has no such entry. */
  lemma {:induction false} LeavesSomeDirectory(cs: seq<Component>)
    requires cs != [] && cs[0].ParentDir? && Clean(cs)
    ensures "" !in Walk([""], cs)
  {
    var n := |cs| - 1;
    if n == 0 {
      assert cs[..0] == [];
    } else {
      CleanSnoc(cs[..n], cs[n]);
      assert cs == cs[..n] + [cs[n]];
      LeavesSomeDirectory(cs[..n]);
    }
  }

  // ----- files -----

  /** A file request at runtime, and the grants of its kind. */
  predicate IsFile(c: Capability) {
    c.FsRead? || c.FsWrite?
  }

  predicate SameKind(a: Capability, b: Capability) {
    (a.FsRead? && b.FsRead?) || (a.FsWrite? && b.FsWrite?)
  }

  /** `g` is a grant of the right kind and the requested place lies inside it. */
  predicate Encloses(anchor: string, g: Capability, required: Capability)
    requires IsFile(required)
  {
    && SameKind(g, required)
    && Place(anchor, g.prefix) <= Place(anchor, required.prefix)
    && (!IsAbsolute(g.prefix) ==> Walk([], Components(anchor)) <= Place(anchor, required.prefix))
  }

  lemma AllowedEntryEncloses(anchor: string, g: Capability, required: Capability)
    requires IsAbsolute(anchor) && IsFile(required) && EntrySatisfies(anchor, g, required)
    ensures Encloses(anchor, g, required)
  {
    ContainmentIsSound(anchor, g.prefix, required.prefix);
    if !IsAbsolute(g.prefix) {
      RelativePrefixIsBelowAnchor(anchor, g.prefix);
    }
  }

  /** An allowed file lies inside a granted directory; a relative grant never reaches outside the anchor. */
  lemma AllowedFileIsInside(anchor: string, granted: seq<Capability>, required: Capability)
    requires IsAbsolute(anchor) && IsFile(required) && Satisfies(anchor, granted, required)
    ensures exists g :: g in granted && Encloses(anchor, g, required)
  {
    var g :| g in granted && EntrySatisfies(anchor, g, required);
    AllowedEntryEncloses(anchor, g, required);
  }

  /**
   What a grant lets through, in terms of places: those inside it that climb above the root as often as
   it does, or, for a grant of the root itself, at least as often.
   */
  predicate Reaches(anchor: string, prefix: string, path: string) {
    && Place(anchor, prefix) <= Place(anchor, path)
    && (|| Overshoots(anchor, prefix) == Overshoots(anchor, path)
        || (Place(anchor, prefix) == [] && Overshoots(anchor, prefix) <= Overshoots(anchor, path)))
  }

  /** Exactly which files are allowed, for every request and every grant list. */
  lemma AllowedFileIff(anchor: string, granted: seq<Capability>, required: Capability)
    requires IsAbsolute(anchor) && IsFile(required)
    ensures Satisfies(anchor, granted, required) <==>
            exists g :: g in granted && SameKind(g, required) && !GrantedPrefixIsInvalid(g.prefix)
                        && Reaches(anchor, g.prefix, required.prefix)
  {
    forall g | g in granted && SameKind(g, required)
      ensures EntrySatisfies(anchor, g, required)
         <==> !GrantedPrefixIsInvalid(g.prefix) && Reaches(anchor, g.prefix, required.prefix)
    {
      ContainmentIsExact(anchor, g.prefix, required.prefix);
    }
  }

  lemma AbsolutePrefixIsValid(prefix: string)
    requires IsAbsolute(prefix)
    ensures !GrantedPrefixIsInvalid(prefix)
  {
    NormalizedComponents(prefix);
    ComponentsShape(Normalized(prefix));
  }

  /** A request inside a granted directory is refused exactly when the two climb differently. */
  lemma RefusedInsideIff(anchor: string, g: Capability, required: Capability)
    requires IsAbsolute(anchor) && SameKind(g, required) && !GrantedPrefixIsInvalid(g.prefix)
    requires Place(anchor, g.prefix) <= Place(anchor, required.prefix)
    ensures !EntrySatisfies(anchor, g, required)
       <==> if Place(anchor, g.prefix) == [] then Overshoots(anchor, g.prefix) > Overshoots(anchor, required.prefix)
            else Overshoots(anchor, g.prefix) != Overshoots(anchor, required.prefix)
  {
    ContainmentIsExact(anchor, g.prefix, required.prefix);
  }

  lemma PushedComponents(buf: string, cs: seq<Component>, c: Component, text: string)
    requires buf != "" && Components(buf) == cs && text == Push(buf, c)
    requires c.ParentDir? || (c.Normal? && GoodName(c.name))
    ensures Components(text) == cs + [c]
  {
    RenderStep(buf, c);
  }

  lemma NameBelowRoot(name: string)
    requires GoodName(name)
    ensures Components("/" + name) == [RootDir] + [Normal(name)]
  {
    RootRoundTrip();
    PushedComponents("/", [RootDir], Normal(name), "/" + name);
  }

  lemma NameAboveRoot(name: string)
    requires GoodName(name)
    ensures Components("/../" + name) == [RootDir] + [ParentDir] + [Normal(name)]
  {
    RootRoundTrip();
    PushedComponents("/", [RootDir], ParentDir, "/..");
    PushedComponents("/..", [RootDir] + [ParentDir], Normal(name), "/../" + name);
  }

  lemma FollowRoot(dir: seq<string>, c: Component)
    requires c.Normal?
    ensures Walk(dir, [RootDir] + [c]) == Walk(dir, [RootDir] + [ParentDir] + [c]) == [c.name]
    ensures Climbs(dir, [RootDir] + [c]) == 0 && Climbs(dir, [RootDir] + [ParentDir] + [c]) == 1
  {
    var short, long := [RootDir], [RootDir] + [ParentDir];
    assert [] + short == short;
    WalkSnoc(dir, [], RootDir);
    WalkSnoc(dir, short, ParentDir);
    WalkSnoc(dir, short, c);
    WalkSnoc(dir, long, c);
    ClimbsSnoc(dir, [], RootDir);
    ClimbsSnoc(dir, short, ParentDir);
    ClimbsSnoc(dir, short, c);
    ClimbsSnoc(dir, long, c);
  }

  /** So a grant of `/etc` does not let `/../etc` through, which names the same directory. */
  lemma ClimbingRequestIsRefused(anchor: string, name: string)
    requires IsAbsolute(anchor) && GoodName(name)
    ensures Place(anchor, "/../" + name) == Place(anchor, "/" + name)
    ensures EntrySatisfies(anchor, FsRead("/" + name), FsRead("/" + name))
    ensures !EntrySatisfies(anchor, FsRead("/" + name), FsRead("/../" + name))
  {
    NameBelowRoot(name);
    NameAboveRoot(name);
    FollowRoot(Walk([], Components(anchor)), Normal(name));
    AbsolutePrefixIsValid("/" + name);
    ContainmentIsExact(anchor, "/" + name, "/../" + name);
    ContainmentIsExact(anchor, "/" + name, "/" + name);
  }

  // ----- the type-level check -----

  /** The request with its concrete part blanked, as a tool listing asks it. */
  function KindOf(c: Capability): Capability {
    match c
    case FsRead(_) => FsRead("")
    case FsWrite(_) => FsWrite("")
    case KbRead(_) => KbRead("")
    case KbWrite(_) => KbWrite("")
    case Credential(_) => Credential(Custom(""))
    case _ => c
  }

  /** A tool the listing hides can never be invoked. */
  lemma HiddenToolIsUnusable(anchor: string, granted: seq<Capability>, required: Capability)
    requires Satisfies(anchor, granted, required)
    ensures SatisfiesType(anchor, granted, KindOf(required))
  {
    if !required.Net? {
      var g :| g in granted && EntrySatisfies(anchor, g, required);
    }
  }

  /** A listing asks only whether there is a grant of the kind; any other request is asked as it is. */
  lemma ListedIff(anchor: string, granted: seq<Capability>)
    ensures SatisfiesType(anchor, granted, FsRead("")) <==> exists p :: FsRead(p) in granted
    ensures SatisfiesType(anchor, granted, FsWrite("")) <==> exists p :: FsWrite(p) in granted
    ensures SatisfiesType(anchor, granted, KbRead("")) <==> exists seg :: KbRead(seg) in granted
    ensures SatisfiesType(anchor, granted, KbWrite("")) <==> exists seg :: KbWrite(seg) in granted
    ensures SatisfiesType(anchor, granted, Credential(Custom(""))) <==> exists p :: Credential(p) in granted
    ensures forall required :: KindOf(required) != required || required.Mcp? || IsUnit(required) ==>
              SatisfiesType(anchor, granted, required) == Satisfies(anchor, granted, required)
  {
  }

  /** A listed file tool has some path it may be used on exactly when a grant of its kind is valid. */
  lemma ListedFileToolIsUsableIff(anchor: string, granted: seq<Capability>)
    ensures (exists path :: Satisfies(anchor, granted, FsRead(path)))
       <==> exists g :: g in granted && g.FsRead? && !GrantedPrefixIsInvalid(g.prefix)
  {
    if g :| g in granted && g.FsRead? && !GrantedPrefixIsInvalid(g.prefix) {
      assert EntrySatisfies(anchor, g, FsRead(g.prefix));
      assert Satisfies(anchor, granted, FsRead(g.prefix));
    }
  }

  // ----- memory segments -----

  predicate IsBareAgentSegment(segment: string) {
    segment == "agent"
  }

  /** An agent's own memory namespace, in either spelling. */
  function Namespace(delimiter: char, id: string): string {
    "agent" + [delimiter] + id
  }

  predicate PlainId(id: string) {
    forall c :: c in id ==> !IsDelimiter(c)
  }

  ghost predicate CoversAgent(segment: string, id: string) {
    PlainId(id) && exists d :: IsDelimiter(d) && KbSegmentSatisfies(segment, Namespace(d, id))
  }

  ghost predicate CoversTwoAgents(segment: string) {
    exists x, y :: x != y && CoversAgent(segment, x) && CoversAgent(segment, y)
  }

  /** Besides the bare word, only a namespace itself covers that namespace. */
  lemma OneAgentOnly(segment: string, d: char, id: string)
    requires PlainId(id) && IsDelimiter(d) && segment != "agent"
    requires KbSegmentSatisfies(segment, Namespace(d, id))
    ensures segment == Namespace(d, id)
  {
    var ns := Namespace(d, id);
    forall k | 0 <= k < |ns| && k != 5 ensures !IsDelimiter(ns[k]) {
      assert ns[k] == if k < 5 then "agent"[k] else id[k - 6];
    }
    assert ns[..5] == "agent";
  }

  lemma SameAgent(segment: string, x: string, y: string)
    requires segment != "agent" && CoversAgent(segment, x) && CoversAgent(segment, y)
    ensures x == y
  {
    var d :| IsDelimiter(d) && KbSegmentSatisfies(segment, Namespace(d, x));
    var e :| IsDelimiter(e) && KbSegmentSatisfies(segment, Namespace(e, y));
    OneAgentOnly(segment, d, x);
    OneAgentOnly(segment, e, y);
    assert x == Namespace(d, x)[6..] && y == Namespace(e, y)[6..];
  }

  /** The linter's one-word test finds exactly the segments that reach two agents' memories. */
  lemma BareSegmentIff(segment: string)
    requires segment != ""
    ensures CoversTwoAgents(segment) <==> IsBareAgentSegment(segment)
  {
    if segment == "agent" {
      assert KbSegmentSatisfies(segment, Namespace('/', "a")) && KbSegmentSatisfies(segment, Namespace('/', "b"));
      assert CoversAgent(segment, "a") && CoversAgent(segment, "b");
    } else if CoversTwoAgents(segment) {
      var x, y :| x != y && CoversAgent(segment, x) && CoversAgent(segment, y);
      SameAgent(segment, x, y);
    }
  }
}
