/**
 Lexical paths (agentd/src/capability.rs, `normalize_path` and `anchor_abs`) with the parts of
 `std::path` they stand on: splitting into components, joining, and component-wise prefixes.
 */
module Paths {
  import opened Common

  datatype Component = RootDir | CurDir | ParentDir | Normal(name: string)

  predicate IsAbsolute(p: string) {
    p != [] && p[0] == '/'
  }

  function Segment(seg: string): seq<Component> {
    if seg == "" || seg == "." then []
    else if seg == ".." then [ParentDir]
    else [Normal(seg)]
  }

  function Body(segs: seq<string>): seq<Component> {
    if segs == [] then [] else Segment(segs[0]) + Body(segs[1..])
  }

  function Lead(p: string): seq<Component> {
    if IsAbsolute(p) then [RootDir] else if Split(p, '/')[0] == "." then [CurDir] else []
  }

  /** `Path::components` on Unix: separators collapse and `.` vanishes, except a leading one. */
  function Components(p: string): seq<Component> {
    Lead(p) + Body(Split(p, '/'))
  }

  function Text(c: Component): string {
    match c
    case RootDir => "/"
    case CurDir => "."
    case ParentDir => ".."
    case Normal(name) => name
  }

  /** `PathBuf::push` of one component. */
  function Push(buf: string, c: Component): string {
    if c.RootDir? then "/"
    else buf + (if buf == [] || buf[|buf| - 1] == '/' then "" else "/") + Text(c)
  }

  /** Collecting components into a `PathBuf`. */
  function Render(cs: seq<Component>): string {
    if cs == [] then "" else Push(Render(cs[..|cs| - 1]), cs[|cs| - 1])
  }

  /** One turn of the normalising loop. */
  function NormStep(done: seq<Component>, c: Component): seq<Component> {
    match c
    case CurDir => done
    case ParentDir => if done != [] && done[|done| - 1].Normal? then done[..|done| - 1] else done + [c]
    case _ => done + [c]
  }

  function Norm(cs: seq<Component>): seq<Component> {
    if cs == [] then [] else NormStep(Norm(cs[..|cs| - 1]), cs[|cs| - 1])
  }

  function Normalized(p: string): string {
    Render(Norm(Components(p)))
  }

  /** `normalize_path`: a vector of components, pushed to and popped from. */
  method NormalizePath(p: string) returns (r: string)
    ensures r == Normalized(p)
  {
    var cs := Components(p);
    var components: seq<Component> := [];
    for i := 0 to |cs|
      invariant components == Norm(cs[..i])
    {
      assert cs[..i + 1][..i] == cs[..i];
      match cs[i] {
        case CurDir =>
        case ParentDir =>
          if components != [] && components[|components| - 1].Normal? {
            components := components[..|components| - 1];
          } else {
            components := components + [cs[i]];
          }
        case other => components := components + [cs[i]];
      }
    }
    assert cs[..|cs|] == cs;
    r := Render(components);
  }

  /** `Path::join`. */
  function Join(base: string, p: string): string {
    if IsAbsolute(p) then p
    else base + (if base == [] || base[|base| - 1] == '/' then "" else "/") + p
  }

  function AnchorAbs(anchor: string, p: string): string {
    if IsAbsolute(p) then Normalized(p) else Normalized(Join(anchor, p))
  }

  /** `Path::starts_with`: whole components. */
  predicate PathStartsWith(p: string, base: string) {
    Components(base) <= Components(p)
  }

  predicate GrantedPrefixIsInvalid(prefix: string) {
    var norm := Normalized(prefix);
    norm == "" || (Components(norm) != [] && Components(norm)[0].ParentDir?)
  }

  // ----- what a path denotes -----

  function WalkStep(at: seq<string>, c: Component): seq<string> {
    match c
    case RootDir => []
    case CurDir => at
    case ParentDir => if at == [] then [] else at[..|at| - 1]
    case Normal(name) => at + [name]
  }

  /** Following components from directory `dir`; `..` at the root stays at the root. */
  function Walk(dir: seq<string>, cs: seq<Component>): seq<string> {
    if cs == [] then dir else WalkStep(Walk(dir, cs[..|cs| - 1]), cs[|cs| - 1])
  }

  /** The directory or file that `p` names for a process working in `anchor`. */
  function Place(anchor: string, p: string): seq<string> {
    Walk(Walk([], Components(anchor)), Components(p))
  }

  // ----- splitting and rendering are inverse on clean component lists -----

  predicate GoodName(name: string) {
    name != "" && name != "." && name != ".." && '/' !in name
  }

  /** No `.`, the root only in front, and names that are names. */
  predicate Clean(cs: seq<Component>) {
    && (forall c :: c in cs ==> !c.CurDir? && (c.Normal? ==> GoodName(c.name)))
    && (forall i :: 0 < i < |cs| ==> !cs[i].RootDir?)
  }

  lemma BodyCons(seg: string, segs: seq<string>)
    ensures Body([seg] + segs) == Segment(seg) + Body(segs)
  {
    assert ([seg] + segs)[1..] == segs;
  }

  lemma {:induction false} BodyAppend(a: seq<string>, b: seq<string>)
    ensures Body(a + b) == Body(a) + Body(b)
  {
    if a == [] {
      assert a + b == b;
    } else {
      var seg, segs := a[0], a[1..];
      assert a == [seg] + segs && a + b == [seg] + (segs + b);
      BodyAppend(segs, b);
      BodyCons(seg, segs);
      BodyCons(seg, segs + b);
      assert Segment(seg) + (Body(segs) + Body(b)) == (Segment(seg) + Body(segs)) + Body(b);
    }
  }

  lemma {:induction false} BodyIsClean(segs: seq<string>)
    requires forall s :: s in segs ==> '/' !in s
    ensures forall c :: c in Body(segs) ==> (c.ParentDir? || c.Normal?) && (c.Normal? ==> GoodName(c.name))
  {
    if segs != [] {
      BodyIsClean(segs[1..]);
    }
  }

  /** A trailing separator adds no component. */
  lemma BodyTrailing(segs: seq<string>)
    ensures Body(segs + [""]) == Body(segs)
  {
    BodyAppend(segs, [""]);
    assert Body([""]) == [];
  }

  /** Joining splits into the segments of both, with at most an empty one between. */
  lemma JoinBody(base: string, p: string)
    requires base != [] && !IsAbsolute(p)
    ensures Body(Split(Join(base, p), '/')) == Body(Split(base, '/')) + Body(Split(p, '/'))
    ensures Split(Join(base, p), '/')[0] == Split(base, '/')[0]
  {
    var n := |base| - 1;
    if base[n] == '/' {
      var stem := base[..n];
      assert base == stem + ['/'] + "" && Join(base, p) == stem + ['/'] + p;
      SplitJoin(stem, '/', "");
      SplitJoin(stem, '/', p);
      BodyTrailing(Split(stem, '/'));
      BodyAppend(Split(stem, '/'), Split(p, '/'));
    } else {
      assert Join(base, p) == base + ['/'] + p;
      SplitJoin(base, '/', p);
      BodyAppend(Split(base, '/'), Split(p, '/'));
    }
  }

  lemma JoinLead(base: string, p: string)
    requires base != [] && !IsAbsolute(p)
    ensures IsAbsolute(Join(base, p)) == IsAbsolute(base) && Lead(Join(base, p)) == Lead(base)
  {
    JoinBody(base, p);
    assert Join(base, p)[0] == base[0];
  }

  /** Joining a relative path appends its components. */
  lemma ComponentsExtend(base: string, p: string)
    requires base != [] && !IsAbsolute(p)
    ensures Components(Join(base, p)) == Components(base) + Body(Split(p, '/'))
  {
    JoinBody(base, p);
    JoinLead(base, p);
    Reassociate(Lead(base), Body(Split(base, '/')), Body(Split(p, '/')));
  }

  /** The one component a rendered component splits into again. */
  lemma SegmentOfText(c: Component)
    requires c.ParentDir? || (c.Normal? && GoodName(c.name))
    ensures Split(Text(c), '/') == [Text(c)] && Body([Text(c)]) == [c] && Text(c) != "" && !IsAbsolute(Text(c))
  {
    SplitAtom(Text(c), '/');
    assert Segment(Text(c)) == [c];
    assert Body([Text(c)]) == Segment(Text(c)) + Body([]);
  }

  lemma RenderOne(c: Component)
    requires !c.CurDir? && (c.Normal? ==> GoodName(c.name))
    ensures Components(Render([c])) == [c] && Render([c]) != ""
  {
    assert Render([c]) == Push(Render([]), c) == Text(c) by {
      assert [c][..0] == [];
    }
    if c.RootDir? {
      RootRoundTrip();
    } else {
      SegmentOfText(c);
      assert Lead(Text(c)) == [];
    }
  }

  lemma CleanSnoc(cs: seq<Component>, c: Component)
    requires Clean(cs + [c])
    ensures Clean(cs) && !c.CurDir? && (c.Normal? ==> GoodName(c.name)) && (cs != [] ==> !c.RootDir?)
  {
    var all := cs + [c];
    assert c in all && all[|cs|] == c;
    assert forall i :: 0 <= i < |cs| ==> all[i] == cs[i];
    assert forall x :: x in cs ==> x in all;
  }

  lemma {:induction false} RenderRoundTrip(cs: seq<Component>)
    requires Clean(cs)
    ensures Components(Render(cs)) == cs
    ensures cs != [] ==> Render(cs) != ""
  {
    if cs == [] {
      BodyTrailing([]);
    } else {
      var front, c := cs[..|cs| - 1], cs[|cs| - 1];
      assert cs == front + [c];
      CleanSnoc(front, c);
      if front == [] {
        assert cs == [c];
        RenderOne(c);
      } else {
        RenderRoundTrip(front);
        RenderStep(Render(front), c);
      }
    }
  }

  lemma RenderStep(buf: string, c: Component)
    requires buf != "" && (c.ParentDir? || (c.Normal? && GoodName(c.name)))
    ensures Components(Push(buf, c)) == Components(buf) + [c] && Push(buf, c) != ""
  {
    SegmentOfText(c);
    ComponentsExtend(buf, Text(c));
    assert Push(buf, c) == Join(buf, Text(c));
  }

  lemma RootRoundTrip()
    ensures Components("/") == [RootDir]
  {
    assert "/"[1..] == "";
    assert Split("/", '/') == [""] + Split("", '/');
    BodyTrailing([""]);
    BodyTrailing([]);
  }

  // ----- the normal form -----

  /** No name is followed by `..`. */
  predicate Reduced(cs: seq<Component>) {
    forall i :: 0 <= i < |cs| - 1 && cs[i].Normal? ==> !cs[i + 1].ParentDir?
  }

  lemma ComponentsShape(p: string)
    ensures IsAbsolute(p) ==> Components(p) != [] && Components(p)[0] == RootDir
    ensures forall i :: 0 <= i < |Components(p)| && Components(p)[i].RootDir? ==> i == 0 && IsAbsolute(p)
    ensures forall c :: c in Components(p) && c.Normal? ==> GoodName(c.name)
  {
    var lead, body := Lead(p), Body(Split(p, '/'));
    SplitAvoids(p, '/');
    BodyIsClean(Split(p, '/'));
    forall i | 0 <= i < |Components(p)|
      ensures Components(p)[i].RootDir? ==> i == 0 && IsAbsolute(p)
    {
      if i >= |lead| {
        assert Components(p)[i] == body[i - |lead|] && body[i - |lead|] in body;
      }
    }
    forall c | c in Components(p) && c.Normal? ensures GoodName(c.name) {
      assert c in lead || c in body;
    }
  }

  lemma {:induction false} NormIsClean(cs: seq<Component>)
    requires forall c :: c in cs && c.Normal? ==> GoodName(c.name)
    requires forall i :: 0 < i < |cs| ==> !cs[i].RootDir?
    ensures Clean(Norm(cs)) && Reduced(Norm(cs))
    ensures cs != [] && cs[0].RootDir? ==> Norm(cs) != [] && Norm(cs)[0].RootDir?
    ensures (cs == [] || !cs[0].RootDir?) ==> RootDir !in Norm(cs)
  {
    if cs != [] {
      NormIsClean(cs[..|cs| - 1]);
    }
  }

  lemma {:induction false} NormFixesReduced(cs: seq<Component>)
    requires Clean(cs) && Reduced(cs)
    ensures Norm(cs) == cs
  {
    if cs != [] {
      var n := |cs| - 1;
      var front, c := cs[..n], cs[n];
      assert cs == front + [c];
      CleanSnoc(front, c);
      assert Reduced(front) by {
        assert forall i :: 0 <= i < n ==> front[i] == cs[i];
      }
      NormFixesReduced(front);
      if n > 0 {
        assert front[n - 1] == cs[n - 1];
      }
      assert NormStep(front, c) == front + [c];
    }
  }

  /** What a normalised path consists of: the normal form of the components. */
  lemma NormalizedComponents(p: string)
    ensures Components(Normalized(p)) == Norm(Components(p))
    ensures Clean(Norm(Components(p))) && Reduced(Norm(Components(p)))
    ensures IsAbsolute(Normalized(p)) == IsAbsolute(p)
    ensures Normalized(p) == "" <==> Norm(Components(p)) == []
  {
    ComponentsShape(p);
    NormIsClean(Components(p));
    RenderRoundTrip(Norm(Components(p)));
    ComponentsShape(Normalized(p));
  }

  /** Normalising twice is normalising once, as strings. */
  lemma NormalizeIdempotent(p: string)
    ensures Normalized(Normalized(p)) == Normalized(p)
  {
    NormalizedComponents(p);
    NormFixesReduced(Norm(Components(p)));
  }

  lemma WalkSnoc(dir: seq<string>, cs: seq<Component>, c: Component)
    ensures Walk(dir, cs + [c]) == WalkStep(Walk(dir, cs), c)
  {
    assert (cs + [c])[..|cs|] == cs;
  }

  /** One turn of the loop: dropping a name and its `..` together changes nothing. */
  lemma NormStepKeepsWalk(dir: seq<string>, done: seq<Component>, c: Component)
    ensures Walk(dir, NormStep(done, c)) == WalkStep(Walk(dir, done), c)
  {
    WalkSnoc(dir, done, c);
    if c.ParentDir? && done != [] && done[|done| - 1].Normal? {
      var front, last := done[..|done| - 1], done[|done| - 1];
      assert Walk(dir, done) == Walk(dir, front) + [last.name];
      assert Walk(dir, done)[..|Walk(dir, front)|] == Walk(dir, front);
    }
  }

  /** Normalising component lists keeps what they denote from every directory. */
  lemma {:induction false} NormKeepsWalk(dir: seq<string>, cs: seq<Component>)
    ensures Walk(dir, Norm(cs)) == Walk(dir, cs)
  {
    if cs != [] {
      var n := |cs| - 1;
      NormKeepsWalk(dir, cs[..n]);
      NormStepKeepsWalk(dir, Norm(cs[..n]), cs[n]);
    }
  }

  /** Normalising keeps meaning: the same place from every working directory. */
  lemma NormalizeKeepsPlace(anchor: string, p: string)
    ensures Place(anchor, Normalized(p)) == Place(anchor, p)
  {
    NormalizedComponents(p);
    NormKeepsWalk(Walk([], Components(anchor)), Components(p));
  }

  lemma {:induction false} WalkAppend(dir: seq<string>, a: seq<Component>, b: seq<Component>)
    ensures Walk(dir, a + b) == Walk(Walk(dir, a), b)
  {
    if b == [] {
      assert a + b == a;
    } else {
      WalkAppend(dir, a, b[..|b| - 1]);
      assert (a + b)[..|a + b| - 1] == a + b[..|b| - 1];
    }
  }

  lemma {:induction false} WalkFromRoot(dir: seq<string>, cs: seq<Component>)
    requires cs != [] && cs[0].RootDir?
    ensures Walk(dir, cs) == Walk([], cs)
  {
    if |cs| > 1 {
      WalkFromRoot(dir, cs[..|cs| - 1]);
    }
  }

  /** A leading `.` is the only way a relative path's components differ from its segments. */
  lemma RelativeWalk(dir: seq<string>, p: string)
    requires !IsAbsolute(p)
    ensures Walk(dir, Components(p)) == Walk(dir, Body(Split(p, '/')))
  {
    var body := Body(Split(p, '/'));
    WalkAppend(dir, Lead(p), body);
    assert Walk(dir, Lead(p)) == dir by {
      assert [CurDir][..0] == [];
    }
  }

  /** Absolutising names the same place, without needing the working directory any more. */
  lemma AnchorAbsPlace(anchor: string, p: string)
    requires IsAbsolute(anchor)
    ensures IsAbsolute(AnchorAbs(anchor, p))
    ensures Clean(Components(AnchorAbs(anchor, p))) && Reduced(Components(AnchorAbs(anchor, p)))
    ensures Walk([], Components(AnchorAbs(anchor, p))) == Place(anchor, p)
  {
    var home := Walk([], Components(anchor));
    if IsAbsolute(p) {
      NormalizedComponents(p);
      NormKeepsWalk([], Components(p));
      ComponentsShape(p);
      WalkFromRoot(home, Components(p));
    } else {
      var joined := Join(anchor, p);
      ComponentsExtend(anchor, p);
      JoinLead(anchor, p);
      NormalizedComponents(joined);
      NormKeepsWalk([], Components(joined));
      WalkAppend([], Components(anchor), Body(Split(p, '/')));
      RelativeWalk(home, p);
    }
  }

  predicate AllNames(cs: seq<Component>) {
    forall c :: c in cs ==> c.Normal?
  }

  function Names(cs: seq<Component>): seq<string>
    requires AllNames(cs)
  {
    if cs == [] then [] else Names(cs[..|cs| - 1]) + [cs[|cs| - 1].name]
  }

  lemma {:induction false} WalkNames(dir: seq<string>, cs: seq<Component>)
    requires AllNames(cs)
    ensures Walk(dir, cs) == dir + Names(cs)
  {
    if cs == [] {
      assert dir + [] == dir;
    } else {
      var last := cs[|cs| - 1];
      assert last in cs;
      WalkNames(dir, cs[..|cs| - 1]);
      assert Walk(dir, cs) == (dir + Names(cs[..|cs| - 1])) + [last.name];
    }
  }

  /** In a normal form only names follow a name. */
  lemma {:induction false} NamesStayNames(cs: seq<Component>, i: int, j: int)
    requires Clean(cs) && Reduced(cs) && 0 <= i <= j < |cs| && cs[i].Normal?
    ensures cs[j].Normal?
    decreases j - i
  {
    if i < j {
      assert !cs[i + 1].ParentDir? && cs[i + 1] in cs;
      NamesStayNames(cs, i + 1, j);
    }
  }

  /** A longer normal form denotes something at or below a shorter one. */
  lemma PrefixIsBelow(short: seq<Component>, long: seq<Component>)
    requires Clean(long) && Reduced(long) && long != [] && long[0].RootDir?
    requires short != [] && short <= long
    ensures Walk([], short) <= Walk([], long)
  {
    var n := |short|;
    if short[n - 1].Normal? {
      forall j | n - 1 <= j < |long| ensures long[j].Normal? {
        NamesStayNames(long, n - 1, j);
      }
      WalkAppend([], short, long[n..]);
      WalkNames(Walk([], short), long[n..]);
      assert long == short + long[n..];
    } else {
      ClimbsStayAtRoot(short);
    }
  }

  /** Root followed by climbs only is the root. */
  lemma {:induction false} ClimbsStayAtRoot(cs: seq<Component>)
    requires Clean(cs) && Reduced(cs) && cs != [] && cs[0].RootDir? && !cs[|cs| - 1].Normal?
    ensures Walk([], cs) == []
  {
    var n := |cs| - 1;
    if n > 0 {
      assert cs[n] in cs && cs[n].ParentDir?;
      assert !cs[..n][n - 1].Normal?;
      ClimbsStayAtRoot(cs[..n]);
    }
  }

  /** Containment of absolutised paths is containment of places. */
  lemma ContainmentIsSound(anchor: string, prefix: string, p: string)
    requires IsAbsolute(anchor)
    requires PathStartsWith(AnchorAbs(anchor, p), AnchorAbs(anchor, prefix))
    ensures Place(anchor, prefix) <= Place(anchor, p)
  {
    AnchorAbsPlace(anchor, prefix);
    AnchorAbsPlace(anchor, p);
    ComponentsShape(AnchorAbs(anchor, p));
    ComponentsShape(AnchorAbs(anchor, prefix));
    PrefixIsBelow(Components(AnchorAbs(anchor, prefix)), Components(AnchorAbs(anchor, p)));
  }

  // ----- exactly what containment tests -----

  /** How often a walk from `dir` takes a `..` while it stands at the root. */
  function Climbs(dir: seq<string>, cs: seq<Component>): nat {
    if cs == [] then 0
    else
      var n := |cs| - 1;
      Climbs(dir, cs[..n]) + if cs[n].ParentDir? && Walk(dir, cs[..n]) == [] then 1 else 0
  }

  /** How often following `p` from the root through `anchor` tries to climb above the root. */
  function Overshoots(anchor: string, p: string): nat {
    (if IsAbsolute(p) then 0 else Climbs([], Components(anchor))) + Climbs(Walk([], Components(anchor)), Components(p))
  }

  lemma ClimbsSnoc(dir: seq<string>, cs: seq<Component>, c: Component)
    ensures Climbs(dir, cs + [c]) == Climbs(dir, cs) + if c.ParentDir? && Walk(dir, cs) == [] then 1 else 0
  {
    assert (cs + [c])[..|cs|] == cs;
  }

  lemma NormStepKeepsClimbs(dir: seq<string>, done: seq<Component>, c: Component)
    ensures Climbs(dir, NormStep(done, c)) == Climbs(dir, done + [c])
  {
    ClimbsSnoc(dir, done, c);
    if c.ParentDir? && done != [] && done[|done| - 1].Normal? {
      assert Walk(dir, done) != [];
    }
  }

  /** Normalising drops no `..` that is taken at the root, and adds none. */
  lemma {:induction false} NormKeepsClimbs(dir: seq<string>, cs: seq<Component>)
    ensures Climbs(dir, Norm(cs)) == Climbs(dir, cs)
  {
    if cs != [] {
      var n := |cs| - 1;
      NormKeepsClimbs(dir, cs[..n]);
      NormKeepsWalk(dir, cs[..n]);
      NormStepKeepsClimbs(dir, Norm(cs[..n]), cs[n]);
      ClimbsSnoc(dir, Norm(cs[..n]), cs[n]);
    }
  }

  lemma {:induction false} ClimbsAppend(dir: seq<string>, a: seq<Component>, b: seq<Component>)
    ensures Climbs(dir, a + b) == Climbs(dir, a) + Climbs(Walk(dir, a), b)
  {
    if b == [] {
      assert a + b == a;
    } else {
      var n := |b| - 1;
      ClimbsAppend(dir, a, b[..n]);
      WalkAppend(dir, a, b[..n]);
      assert (a + b)[..|a + b| - 1] == a + b[..n];
    }
  }

  lemma {:induction false} ClimbsFromRoot(dir: seq<string>, cs: seq<Component>)
    requires cs != [] && cs[0].RootDir?
    ensures Climbs(dir, cs) == Climbs([], cs)
  {
    if |cs| > 1 {
      ClimbsFromRoot(dir, cs[..|cs| - 1]);
      WalkFromRoot(dir, cs[..|cs| - 1]);
    }
  }

  /** A leading `.` does not count. */
  lemma RelativeClimbs(dir: seq<string>, p: string)
    requires !IsAbsolute(p)
    ensures Climbs(dir, Components(p)) == Climbs(dir, Body(Split(p, '/')))
  {
    ClimbsAppend(dir, Lead(p), Body(Split(p, '/')));
    assert Walk(dir, Lead(p)) == dir && Climbs(dir, Lead(p)) == 0 by {
      assert [CurDir][..0] == [];
    }
  }

  lemma AnchorAbsClimbs(anchor: string, p: string)
    requires IsAbsolute(anchor)
    ensures Climbs([], Components(AnchorAbs(anchor, p))) == Overshoots(anchor, p)
  {
    var home := Walk([], Components(anchor));
    if IsAbsolute(p) {
      NormalizedComponents(p);
      NormKeepsClimbs([], Components(p));
      ComponentsShape(p);
      ClimbsFromRoot(home, Components(p));
    } else {
      var joined := Join(anchor, p);
      ComponentsExtend(anchor, p);
      NormalizedComponents(joined);
      NormKeepsClimbs([], Components(joined));
      ClimbsAppend([], Components(anchor), Body(Split(p, '/')));
      RelativeClimbs(home, p);
    }
  }

  /** The component list that is the root, `climbs` times `..`, and these names. */
  function Rooted(climbs: nat, names: seq<string>): seq<Component> {
    [RootDir] + seq(climbs, _ => ParentDir) + seq(|names|, i requires 0 <= i < |names| => Normal(names[i]))
  }

  lemma RootedSnoc(climbs: nat, names: seq<string>, name: string)
    ensures Rooted(climbs, names + [name]) == Rooted(climbs, names) + [Normal(name)]
    ensures Rooted(climbs + 1, []) == Rooted(climbs, []) + [ParentDir]
  {
    var more := names + [name];
    assert seq(|more|, i requires 0 <= i < |more| => Normal(more[i]))
        == seq(|names|, i requires 0 <= i < |names| => Normal(names[i])) + [Normal(name)];
  }

  /** One more name, or one more climb at the root. */
  lemma RootedGrows(front: seq<Component>, c: Component)
    requires front == Rooted(Climbs([], front), Walk([], front))
    requires c.Normal? || (c.ParentDir? && Walk([], front) == [])
    ensures front + [c] == Rooted(Climbs([], front + [c]), Walk([], front + [c]))
  {
    WalkSnoc([], front, c);
    ClimbsSnoc([], front, c);
    RootedSnoc(Climbs([], front), Walk([], front), if c.Normal? then c.name else "");
  }

  lemma RootAlone()
    ensures [RootDir] == Rooted(Climbs([], [RootDir]), Walk([], [RootDir]))
  {
    assert [] + [RootDir] == [RootDir];
    WalkSnoc([], [], RootDir);
    ClimbsSnoc([], [], RootDir);
  }

  /** A rooted normal form is determined by where it leads and how often it climbs at the root. */
  lemma {:induction false} RootedIsDetermined(cs: seq<Component>)
    requires Clean(cs) && Reduced(cs) && cs != [] && cs[0].RootDir?
    ensures cs == Rooted(Climbs([], cs), Walk([], cs))
  {
    var n := |cs| - 1;
    var front, c := cs[..n], cs[n];
    assert cs == front + [c];
    if n == 0 {
      assert cs == [RootDir];
      RootAlone();
    } else {
      CleanSnoc(front, c);
      assert forall i :: 0 <= i < n ==> front[i] == cs[i];
      RootedIsDetermined(front);
      if c.ParentDir? {
        assert !front[n - 1].Normal?;
        ClimbsStayAtRoot(front);
      }
      RootedGrows(front, c);
    }
  }

  /** One such list begins with another exactly if it climbs as often, or the other is nothing but climbs. */
  lemma RootedPrefixIff(k: nat, a: seq<string>, l: nat, b: seq<string>)
    ensures Rooted(k, a) <= Rooted(l, b) <==> a <= b && (k == l || (a == [] && k <= l))
  {
    var short, long := Rooted(k, a), Rooted(l, b);
    assert k < l && a != [] ==> short[k + 1] != long[k + 1];
    assert l < k ==> short[l + 1].ParentDir? && (l + 1 < |long| ==> !long[l + 1].ParentDir?);
    if short <= long {
      if k == l {
        forall i | 0 <= i < |a| ensures i < |b| && a[i] == b[i] {
          assert short[k + 1 + i] == long[k + 1 + i];
        }
      }
    }
  }

  /**
   Exactly what the component-wise test means, for every prefix and every path: containment of places,
   with as many `..` at the root on both sides, unless the prefix leads to the root itself and has fewer.
   */
  lemma ContainmentIsExact(anchor: string, prefix: string, p: string)
    requires IsAbsolute(anchor)
    ensures PathStartsWith(AnchorAbs(anchor, p), AnchorAbs(anchor, prefix))
       <==> && Place(anchor, prefix) <= Place(anchor, p)
            && (|| Overshoots(anchor, prefix) == Overshoots(anchor, p)
                || (Place(anchor, prefix) == [] && Overshoots(anchor, prefix) <= Overshoots(anchor, p)))
  {
    PlaceDetermines(anchor, prefix);
    PlaceDetermines(anchor, p);
    RootedPrefixIff(Overshoots(anchor, prefix), Place(anchor, prefix), Overshoots(anchor, p), Place(anchor, p));
  }

  /** An absolutised path is determined by its place and by how often it climbs at the root. */
  lemma PlaceDetermines(anchor: string, p: string)
    requires IsAbsolute(anchor)
    ensures Components(AnchorAbs(anchor, p)) == Rooted(Overshoots(anchor, p), Place(anchor, p))
  {
    AnchorAbsPlace(anchor, p);
    AnchorAbsClimbs(anchor, p);
    ComponentsShape(AnchorAbs(anchor, p));
    RootedIsDetermined(Components(AnchorAbs(anchor, p)));
  }

  /** A valid relative prefix names something at or below the anchor. */
  lemma RelativePrefixIsBelowAnchor(anchor: string, prefix: string)
    requires !IsAbsolute(prefix) && !GrantedPrefixIsInvalid(prefix)
    ensures Walk([], Components(anchor)) <= Place(anchor, prefix)
  {
    NormalizedComponents(prefix);
    NormalizeKeepsPlace(anchor, prefix);
    ComponentsShape(Normalized(prefix));
    var cs := Components(Normalized(prefix));
    assert cs[0] in cs && cs[0].Normal?;
    forall j | 0 <= j < |cs| ensures cs[j].Normal? {
      NamesStayNames(cs, 0, j);
    }
    WalkNames(Walk([], Components(anchor)), cs);
  }
}
