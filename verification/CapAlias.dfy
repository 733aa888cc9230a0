/** The command-line aliases for capabilities (agentctl/src/spawn.rs) and the suggestion guard. */
module CapAlias {
  import opened Common
  import opened Paths
  import opened Capabilities

  // ----- port numbers -----

  /** `str::parse::<u16>`: an optional plus sign and decimal digits, up to 65535. */
  function ParseU16(s: string): Option<Port> {
    match ParseDigits(if s != [] && s[0] == '+' then s[1..] else s, false)
    case None => None
    case Some(n) => if n <= 0xFFFF then Some(n) else None
  }

  /** All ports of a comma list, or nothing when one of them does not parse. */
  function ParsePorts(parts: seq<string>): Option<seq<Port>> {
    if parts == [] then Some([])
    else
      match (ParseU16(Trim(parts[0])), ParsePorts(parts[1..]))
      case (Some(p), Some(rest)) => Some([p] + rest)
      case _ => None
  }

  // ----- parsing and printing -----

  /** `parse_cap_alias`. */
  function ParseCapAlias(s: string): Result<Capability, string> {
    if "fs-read:" <= s then
      if s[8..] == "" then Err("requires a path")
      else if !IsAbsolute(Normalized(s[8..])) then Err("path must be absolute")
      else Ok(FsRead(Normalized(s[8..])))
    else if "fs-write:" <= s then
      if s[9..] == "" then Err("requires a path")
      else if !IsAbsolute(Normalized(s[9..])) then Err("path must be absolute")
      else Ok(FsWrite(Normalized(s[9..])))
    else if "kb-read:" <= s then
      if s[8..] == "" then Err("requires a segment name") else Ok(KbRead(s[8..]))
    else if "kb-write:" <= s then
      if s[9..] == "" then Err("requires a segment name") else Ok(KbWrite(s[9..]))
    else if s == "spawn" then Ok(Spawn)
    else if s == "runs-read" || s == "runsread" then Ok(RunsRead)
    else if s == "brief-publish" || s == "briefpublish" then Ok(BriefPublish)
    else if s == "shell-exec" || s == "shellexec" then Ok(ShellExec)
    else if "mcp" <= s then Err("mcp cannot be added")
    else if s == "net" then Err("net requires ports")
    else if "net:" <= s then
      match ParsePorts(Split(s[4..], ','))
      case None => Err("invalid port")
      case Some(ports) => if ports == [] then Err("net requires at least one port") else Ok(Net([], ports))
    else Err("unknown capability alias")
  }

  function ProviderName(p: Provider): string {
    match p
    case Google => "Google"
    case BraveSearch => "BraveSearch"
    case Custom(s) => "Custom(\"" + s + "\")"
  }

  /** `format_cap`. */
  function FormatCap(c: Capability): string {
    match c
    case FsRead(prefix) => "fs-read:" + prefix
    case FsWrite(prefix) => "fs-write:" + prefix
    case KbRead(segment) => "kb-read:" + segment
    case KbWrite(segment) => "kb-write:" + segment
    case RunsRead => "runs-read"
    case BriefPublish => "brief-publish"
    case RunJob => "run-job"
    case Net(_, ports) => "net:" + JoinComma(Decimals(ports))
    case Spawn => "spawn"
    case ShellExec => "shell-exec"
    case Mcp(server, _) => "mcp:" + server
    case Credential(provider) => "credential:" + ProviderName(provider)
  }

  lemma DecimalIsU16(n: Port)
    ensures Trim(Decimal(n)) == Decimal(n) && ParseU16(Decimal(n)) == Some(n) && ',' !in Decimal(n)
  {
    DecimalParses(n, false);
    var s := Decimal(n);
    var first, last := s[0], s[|s| - 1];
    assert first in s && last in s;
    TrimKeeps(s);
  }

  lemma {:induction false} PortsParse(ports: seq<Port>)
    requires ports != []
    ensures ParsePorts(Split(JoinComma(Decimals(ports)), ',')) == Some(ports)
  {
    var head, rest := Decimal(ports[0]), ports[1..];
    DecimalIsU16(ports[0]);
    if rest == [] {
      SplitAtom(head, ',');
      assert Decimals(ports) == [head];
      assert JoinComma([head]) == head && [head][1..] == [];
      assert ParsePorts([head]) == Some([ports[0]] + []) && [ports[0]] + [] == ports;
    } else {
      PortsParse(rest);
      var tail := JoinComma(Decimals(rest));
      assert Decimals(ports)[1..] == Decimals(rest);
      SplitJoin(head, ',', tail);
      SplitAtom(head, ',');
      var parts := Split(JoinComma(Decimals(ports)), ',');
      assert parts == [head] + Split(tail, ',');
      assert parts[1..] == Split(tail, ',') && [ports[0]] + rest == ports;
    }
  }

  /** What a parsed alias can be: a normalised absolute path, a named segment, a unit or real ports. */
  predicate Printable(c: Capability) {
    match c
    case FsRead(p) => IsAbsolute(p) && Normalized(p) == p
    case FsWrite(p) => IsAbsolute(p) && Normalized(p) == p
    case KbRead(seg) => seg != ""
    case KbWrite(seg) => seg != ""
    case Net(hosts, ports) => hosts == [] && ports != []
    case Spawn => true
    case ShellExec => true
    case RunsRead => true
    case BriefPublish => true
    case _ => false
  }

  lemma ParsedIsPrintable(s: string)
    requires ParseCapAlias(s).Ok?
    ensures Printable(ParseCapAlias(s).value)
  {
    if "fs-read:" <= s {
      NormalizeIdempotent(s[8..]);
    } else if "fs-write:" <= s {
      NormalizeIdempotent(s[9..]);
    }
  }

  /** Every printable capability is read back from what is printed for it. */
  lemma PrintedIsParsed(c: Capability)
    requires Printable(c)
    ensures ParseCapAlias(FormatCap(c)) == Ok(c)
  {
    match c
    case FsRead(p) => PrintedFile(c);
    case FsWrite(p) => PrintedFile(c);
    case KbRead(seg) => PrintedSegment(c);
    case KbWrite(seg) => PrintedSegment(c);
    case Net(_, ports) => PrintedPorts(ports);
    case _ => PrintedUnit(c);
  }

  /** The aliases with an argument all start with one of these letters. */
  lemma OtherLetter(s: string)
    requires s != [] && s[0] != 'f' && s[0] != 'k'
    ensures !("fs-read:" <= s) && !("fs-write:" <= s) && !("kb-read:" <= s) && !("kb-write:" <= s)
  {
  }

  lemma PrintedUnit(c: Capability)
    requires c.Spawn? || c.ShellExec? || c.RunsRead? || c.BriefPublish?
    ensures ParseCapAlias(FormatCap(c)) == Ok(c)
  {
    var s := FormatCap(c);
    assert s[0] == if c.RunsRead? then 'r' else if c.BriefPublish? then 'b' else 's';
    OtherLetter(s);
  }

  lemma PrintedFile(c: Capability)
    requires Printable(c) && IsFile(c)
    ensures ParseCapAlias(FormatCap(c)) == Ok(c)
  {
    var s := FormatCap(c);
    if c.FsRead? {
      assert s[8..] == c.prefix;
    } else {
      assert s[3] == 'w' && s[9..] == c.prefix;
    }
  }

  lemma PrintedSegment(c: Capability)
    requires Printable(c) && (c.KbRead? || c.KbWrite?)
    ensures ParseCapAlias(FormatCap(c)) == Ok(c)
  {
    var s := FormatCap(c);
    assert s[0] == 'k';
    if c.KbRead? {
      assert s[8..] == c.segment;
    } else {
      assert s[3] == 'w' && s[9..] == c.segment;
    }
  }

  lemma PrintedPorts(ports: seq<Port>)
    requires ports != []
    ensures ParseCapAlias(FormatCap(Net([], ports))) == Ok(Net([], ports))
  {
    PortsParse(ports);
    NetAlias(JoinComma(Decimals(ports)));
  }

  /** Printing what was parsed and parsing that again gives the same capability. */
  lemma AliasRoundTrip(s: string)
    requires ParseCapAlias(s).Ok?
    ensures ParseCapAlias(FormatCap(ParseCapAlias(s).value)) == ParseCapAlias(s)
  {
    ParsedIsPrintable(s);
    PrintedIsParsed(ParseCapAlias(s).value);
  }

  // ----- the suggestion guard -----

  predicate SuggestionAllows(cap: Capability, s: Capability) {
    match (cap, s)
    case (FsRead(req), FsRead(sug)) => PathStartsWith(Normalized(req), Normalized(sug))
    case (FsWrite(req), FsWrite(sug)) => PathStartsWith(Normalized(req), Normalized(sug))
    case (KbRead(req), KbRead(sug)) => KbSegmentSatisfies(sug, req)
    case (KbWrite(req), KbWrite(sug)) => KbSegmentSatisfies(sug, req)
    case (Net(_, req), Net(_, sug)) => sug == [] || (req != [] && forall p :: p in req ==> p in sug)
    case (Spawn, Spawn) => true
    case (ShellExec, ShellExec) => true
    case (RunsRead, RunsRead) => true
    case (BriefPublish, BriefPublish) => true
    case _ => false
  }

  /** `cap_add_allowed_by_suggestion`. */
  predicate CapAddAllowed(cap: Capability, suggested: seq<Capability>) {
    exists s :: s in suggested && SuggestionAllows(cap, s)
  }

  /** Some suggested prefix of the kind of `cap` is of the given sort. */
  predicate SomeAbsoluteAllows(anchor: string, cap: Capability, suggested: seq<Capability>)
    requires IsFile(cap)
  {
    exists s :: s in suggested && SameKind(s, cap) && IsAbsolute(s.prefix) && FsAllows(anchor, s.prefix, cap.prefix)
  }

  predicate SomeRelativeAllows(anchor: string, cap: Capability, suggested: seq<Capability>)
    requires IsFile(cap)
  {
    exists s :: s in suggested && SameKind(s, cap) && !IsAbsolute(s.prefix) && FsAllows(anchor, s.prefix, cap.prefix)
  }

  predicate SomeEmpty(cap: Capability, suggested: seq<Capability>) {
    exists s :: s in suggested && SameKind(s, cap) && Normalized(s.prefix) == ""
  }

  /** A suggested prefix that comes to nothing passes every path at the guard and none at runtime. */
  lemma EmptySuggestionParts(anchor: string, cap: Capability, s: Capability)
    requires SameKind(s, cap) && Normalized(s.prefix) == ""
    ensures SuggestionAllows(cap, s) && !EntrySatisfies(anchor, s, cap)
  {
    NormalizedComponents(s.prefix);
    assert Components(Normalized(s.prefix)) == [];
  }

  /** Any other relative prefix passes no absolute path at the guard. */
  lemma RelativeSuggestionRefuses(cap: Capability, s: Capability)
    requires SameKind(s, cap) && IsAbsolute(cap.prefix) && !IsAbsolute(s.prefix) && Normalized(s.prefix) != ""
    ensures !SuggestionAllows(cap, s)
  {
    NormalizedComponents(cap.prefix);
    NormalizedComponents(s.prefix);
    ComponentsShape(Normalized(cap.prefix));
    ComponentsShape(Normalized(s.prefix));
  }

  /** One suggestion against one file request: where guard and runtime check agree. */
  lemma FileEntryAgreesIff(anchor: string, cap: Capability, s: Capability)
    requires SameKind(s, cap) && IsAbsolute(cap.prefix)
    ensures SuggestionAllows(cap, s) == EntrySatisfies(anchor, s, cap)
       <==> IsAbsolute(s.prefix) || (Normalized(s.prefix) != "" && !FsAllows(anchor, s.prefix, cap.prefix))
  {
    if IsAbsolute(s.prefix) {
      AbsolutePrefixIsValid(s.prefix);
    } else if Normalized(s.prefix) == "" {
      EmptySuggestionParts(anchor, cap, s);
    } else {
      RelativeSuggestionRefuses(cap, s);
    }
  }

  /** What the guard comes to for a file: an absolute suggestion that contains it, or an empty one. */
  lemma FileGuardIff(anchor: string, cap: Capability, suggested: seq<Capability>)
    requires IsFile(cap) && IsAbsolute(cap.prefix)
    ensures CapAddAllowed(cap, suggested) <==> SomeAbsoluteAllows(anchor, cap, suggested) || SomeEmpty(cap, suggested)
  {
    forall s | s in suggested && SameKind(s, cap)
      ensures SuggestionAllows(cap, s)
         <==> (IsAbsolute(s.prefix) && FsAllows(anchor, s.prefix, cap.prefix)) || Normalized(s.prefix) == ""
    {
      FileEntryAgreesIff(anchor, cap, s);
      NormalizedComponents(s.prefix);
      if !IsAbsolute(s.prefix) && Normalized(s.prefix) != "" {
        RelativeSuggestionRefuses(cap, s);
      }
    }
  }

  /** Every valid relative suggestion parts them: the runtime grants a path that the guard refuses. */
  lemma RelativeSuggestionParts(anchor: string, prefix: string)
    requires IsAbsolute(anchor) && !IsAbsolute(prefix) && !GrantedPrefixIsInvalid(prefix)
    ensures var cap := FsRead(AnchorAbs(anchor, prefix));
            && IsAbsolute(cap.prefix)
            && Satisfies(anchor, [FsRead(prefix)], cap) && !CapAddAllowed(cap, [FsRead(prefix)])
  {
    var cap, s := FsRead(AnchorAbs(anchor, prefix)), FsRead(prefix);
    AnchorAbsPlace(anchor, prefix);
    NormalizeIdempotent(Join(anchor, prefix));
    RelativeSuggestionRefuses(cap, s);
    assert s in [s] && EntrySatisfies(anchor, s, cap);
  }

  /** The runtime check, sorted by what kind of suggestion lets the file through. */
  lemma FileRuntimeIff(anchor: string, cap: Capability, suggested: seq<Capability>)
    requires IsFile(cap)
    ensures Satisfies(anchor, suggested, cap)
       <==> SomeAbsoluteAllows(anchor, cap, suggested) || SomeRelativeAllows(anchor, cap, suggested)
  {
    forall s ensures EntrySatisfies(anchor, s, cap) <==> SameKind(s, cap) && FsAllows(anchor, s.prefix, cap.prefix) {
    }
  }

  lemma OtherEntryAgrees(anchor: string, cap: Capability, s: Capability)
    requires !IsFile(cap) && !cap.Net? && !cap.Mcp? && !cap.Credential? && !cap.RunJob?
    ensures SuggestionAllows(cap, s) == EntrySatisfies(anchor, s, cap)
  {
  }

  /**
   For files with an absolute prefix, segments and unit capabilities, on every suggestion list: guard and
   runtime check agree on a file exactly when an absolute suggestion contains it, or an empty suggestion
   and a relative one that contains it are both there or both missing; on `RunJob`, which the guard has
   no case for, exactly when it is not suggested; and on everything else always.
   */
  lemma GuardAgreesIff(anchor: string, cap: Capability, suggested: seq<Capability>)
    requires !cap.Net? && !cap.Mcp? && !cap.Credential? && (IsFile(cap) ==> IsAbsolute(cap.prefix))
    ensures CapAddAllowed(cap, suggested) == Satisfies(anchor, suggested, cap)
       <==> if IsFile(cap) then
              || SomeAbsoluteAllows(anchor, cap, suggested)
              || (SomeEmpty(cap, suggested) <==> SomeRelativeAllows(anchor, cap, suggested))
            else cap.RunJob? ==> RunJob !in suggested
  {
    if IsFile(cap) {
      FileGuardIff(anchor, cap, suggested);
      FileRuntimeIff(anchor, cap, suggested);
    } else if cap.RunJob? {
      forall s | s in suggested ensures EntrySatisfies(anchor, s, cap) == (s == RunJob) && !SuggestionAllows(cap, s) {
      }
    } else {
      forall s | s in suggested ensures SuggestionAllows(cap, s) == EntrySatisfies(anchor, s, cap) {
        OtherEntryAgrees(anchor, cap, s);
      }
    }
  }

  /** For ports, the guard wants them all in one suggestion, or a suggestion of any port. */
  lemma PortGuardIff(hosts: seq<string>, ports: seq<Port>, suggested: seq<Capability>)
    ensures CapAddAllowed(Net(hosts, ports), suggested)
       <==> exists h, p :: Net(h, p) in suggested && (p == [] || (ports != [] && forall x :: x in ports ==> x in p))
  {
    if h: seq<string>, p: seq<Port> :|
      Net(h, p) in suggested && (p == [] || (ports != [] && forall x :: x in ports ==> x in p))
    {
      assert SuggestionAllows(Net(hosts, ports), Net(h, p));
    }
    if CapAddAllowed(Net(hosts, ports), suggested) {
      var s :| s in suggested && SuggestionAllows(Net(hosts, ports), s);
      assert s == Net(s.hosts, s.ports);
    }
  }

  /** MCP tools, credentials and jobs are never added past the guard. */
  lemma NeverAddedAtTheGuard(cap: Capability, suggested: seq<Capability>)
    requires cap.Mcp? || cap.Credential? || cap.RunJob?
    ensures !CapAddAllowed(cap, suggested)
  {
  }

  // ----- what the aliases stand for -----

  /** The words without an argument. */
  lemma UnitAliases()
    ensures ParseCapAlias("spawn") == Ok(Spawn)
    ensures ParseCapAlias("shell-exec") == ParseCapAlias("shellexec") == Ok(ShellExec)
  {
    OtherLetter("spawn");
    OtherLetter("shell-exec");
    OtherLetter("shellexec");
  }

  lemma ReportAliases()
    ensures ParseCapAlias("runs-read") == ParseCapAlias("runsread") == Ok(RunsRead)
    ensures ParseCapAlias("brief-publish") == ParseCapAlias("briefpublish") == Ok(BriefPublish)
  {
    OtherLetter("runs-read");
    OtherLetter("runsread");
    OtherLetter("brief-publish");
    OtherLetter("briefpublish");
  }

  lemma RefusedAliases()
    ensures ParseCapAlias("net").Err? && ParseCapAlias("mcp").Err? && ParseCapAlias("run-job").Err?
  {
    OtherLetter("net");
    OtherLetter("mcp");
    OtherLetter("run-job");
  }

  /** A file alias is taken for exactly the absolute paths, and names the same place. */
  lemma FileReadAlias(path: string, anchor: string)
    ensures var r := ParseCapAlias("fs-read:" + path);
            && (r.Ok? <==> path != "" && path[0] == '/')
            && (r.Ok? ==> r.value.FsRead? && Place(anchor, r.value.prefix) == Place(anchor, path))
  {
    assert ("fs-read:" + path)[8..] == path;
    NormalizedComponents(path);
    NormalizeKeepsPlace(anchor, path);
  }

  lemma FileWriteBranch(s: string, path: string)
    requires "fs-write:" <= s && s[3] == 'w' && s[9..] == path
    ensures ParseCapAlias(s).Ok? <==> path != "" && IsAbsolute(Normalized(path))
    ensures ParseCapAlias(s).Ok? ==> ParseCapAlias(s).value == FsWrite(Normalized(path))
  {
    assert "fs-read:"[3] == 'r';
  }

  lemma FileWriteAlias(path: string, anchor: string)
    ensures var r := ParseCapAlias("fs-write:" + path);
            && (r.Ok? <==> path != "" && path[0] == '/')
            && (r.Ok? ==> r.value.FsWrite? && Place(anchor, r.value.prefix) == Place(anchor, path))
  {
    var s := "fs-write:" + path;
    assert s[9..] == path && s[3] == 'w';
    FileWriteBranch(s, path);
    NormalizedComponents(path);
    NormalizeKeepsPlace(anchor, path);
  }

  /** A segment alias is taken for exactly the named segments. */
  lemma SegmentAlias(segment: string)
    ensures segment != "" ==> ParseCapAlias("kb-read:" + segment) == Ok(KbRead(segment))
    ensures segment != "" ==> ParseCapAlias("kb-write:" + segment) == Ok(KbWrite(segment))
    ensures ParseCapAlias("kb-read:").Err? && ParseCapAlias("kb-write:").Err?
  {
    assert ("kb-read:" + segment)[8..] == segment && ("kb-write:" + segment)[9..] == segment;
    assert ("kb-read:" + segment)[0] == 'k' && ("kb-write:" + segment)[0] == 'k';
    assert ("kb-write:" + segment)[3] == 'w';
    assert "kb-read:"[8..] == "" && "kb-write:"[9..] == "";
  }

  lemma {:induction false} PortsIff(parts: seq<string>)
    ensures ParsePorts(parts).Some? <==> forall i :: 0 <= i < |parts| ==> ParseU16(Trim(parts[i])).Some?
    ensures ParsePorts(parts).Some? ==>
              && |ParsePorts(parts).value| == |parts|
              && forall i :: 0 <= i < |parts| ==> ParseU16(Trim(parts[i])) == Some(ParsePorts(parts).value[i])
  {
    if parts != [] {
      PortsIff(parts[1..]);
      assert forall i :: 1 <= i < |parts| ==> parts[i] == parts[1..][i - 1];
    }
  }

  /** What a list of pieces says, piece by piece. */
  predicate ReadAs(pieces: seq<string>, ports: seq<Port>) {
    |ports| == |pieces| && forall i :: 0 <= i < |pieces| ==> ParseU16(Trim(pieces[i])) == Some(ports[i])
  }

  /** A port list is taken exactly if every piece between commas is a port, and gives them in order. */
  lemma PortAlias(list: string)
    ensures ParseCapAlias("net:" + list).Ok?
       <==> forall i :: 0 <= i < |Split(list, ',')| ==> ParseU16(Trim(Split(list, ',')[i])).Some?
    ensures ParseCapAlias("net:" + list).Ok? ==>
              exists ports :: ParseCapAlias("net:" + list) == Ok(Net([], ports)) && ReadAs(Split(list, ','), ports)
  {
    NetAlias(list);
    PortsIff(Split(list, ','));
    if ParsePorts(Split(list, ',')).Some? {
      assert ReadAs(Split(list, ','), ParsePorts(Split(list, ',')).value);
    }
  }

  lemma NetBranch(s: string, ports: Option<seq<Port>>)
    requires |s| >= 4 && s[0] == 'n' && s[3] == ':' && "net:" <= s && ports == ParsePorts(Split(s[4..], ','))
    ensures ParseCapAlias(s) == match ports
                                case None => Err("invalid port")
                                case Some(ps) => if ps == [] then Err("net requires at least one port")
                                                 else Ok(Net([], ps))
  {
    OtherLetter(s);
    assert "mcp"[0] == 'm';
  }

  lemma NetAlias(list: string)
    ensures ParseCapAlias("net:" + list).Ok? <==> ParsePorts(Split(list, ',')).Some?
    ensures ParseCapAlias("net:" + list).Ok?
            ==> ParseCapAlias("net:" + list) == Ok(Net([], ParsePorts(Split(list, ',')).value))
  {
    var s := "net:" + list;
    assert s[0] == 'n' && s[3] == ':' && s[4..] == list;
    NetBranch(s, ParsePorts(Split(list, ',')));
    PortsIff(Split(list, ','));
  }

  /** A number is a port exactly up to 65535, with or without a plus sign. */
  lemma PortIff(n: nat)
    ensures ParseU16(Decimal(n)) == ParseU16("+" + Decimal(n)) == if n <= 65535 then Some(n) else None
  {
    DecimalParses(n, false);
    assert Decimal(n)[0] in Decimal(n);
    SignedPort(Decimal(n), n);
  }

  lemma SignedPort(s: string, n: nat)
    requires s != "" && '0' <= s[0] <= '9' && ParseDigits(s, false) == Some(n)
    ensures ParseU16(s) == ParseU16("+" + s) == if n <= 65535 then Some(n) else None
  {
    assert ("+" + s)[1..] == s;
  }

  /** Spaces around a piece do not matter. */
  lemma PaddedPort(s: string)
    requires s != "" && !IsSpace(s[0]) && !IsSpace(s[|s| - 1])
    ensures Trim(" " + (s + " ")) == s
  {
    assert (" " + (s + " "))[1..] == s + " " && (s + " ")[..|s|] == s;
    assert TrimStart(s + " ") == s + " ";
    assert TrimEnd(s + " ") == TrimEnd(s);
  }
}
