/** The debounced directory watcher (docker/fs_watch_mcp.py). */
module DirectoryWatcher {
  import opened Common

  datatype Stat = Stat(mtime: int, size: int, inode: int)

  /** A scan result: a dictionary with the order its paths were inserted in. */
  datatype Snapshot = Snapshot(order: seq<string>, stats: map<string, Stat>) {
    ghost predicate Valid() {
      && (forall i, j :: 0 <= i < j < |order| ==> order[i] != order[j])
      && (forall p :: p in order <==> p in stats)
    }
  }

  datatype Kind = Created | Modified | Deleted

  datatype Change = Change(path: string, kind: Kind)

  // ----- the difference of two snapshots -----

  function Appeared(was: map<string, Stat>, now: map<string, Stat>, order: seq<string>): seq<Change>
    requires forall p :: p in order ==> p in now
  {
    if order == [] then []
    else
      var n := |order| - 1;
      var p := order[n];
      assert p in order;
      Appeared(was, now, order[..n]) +
      if p !in was then [Change(p, Created)] else if now[p] != was[p] then [Change(p, Modified)] else []
  }

  function Vanished(now: map<string, Stat>, order: seq<string>): seq<Change> {
    if order == [] then []
    else Vanished(now, order[..|order| - 1]) +
         if order[|order| - 1] !in now then [Change(order[|order| - 1], Deleted)] else []
  }

  function Changes(before: Snapshot, after: Snapshot): seq<Change>
    requires after.Valid()
  {
    Appeared(before.stats, after.stats, after.order) + Vanished(after.stats, before.order)
  }

  /** `_diff`. */
  method Diff(before: Snapshot, after: Snapshot) returns (changes: seq<Change>)
    requires before.Valid() && after.Valid()
    ensures changes == Changes(before, after)
  {
    changes := DiffAppeared(before.stats, after);
    var gone := DiffVanished(before, after.stats);
    changes := changes + gone;
  }

  method DiffAppeared(was: map<string, Stat>, after: Snapshot) returns (changes: seq<Change>)
    requires after.Valid()
    ensures changes == Appeared(was, after.stats, after.order)
  {
    changes := [];
    for i := 0 to |after.order|
      invariant changes == Appeared(was, after.stats, after.order[..i])
    {
      var p := after.order[i];
      assert after.order[..i + 1][..i] == after.order[..i];
      if p !in was {
        changes := changes + [Change(p, Created)];
      } else if after.stats[p] != was[p] {
        changes := changes + [Change(p, Modified)];
      }
    }
    assert after.order[..|after.order|] == after.order;
  }

  method DiffVanished(before: Snapshot, now: map<string, Stat>) returns (changes: seq<Change>)
    ensures changes == Vanished(now, before.order)
  {
    changes := [];
    for i := 0 to |before.order|
      invariant changes == Vanished(now, before.order[..i])
    {
      assert before.order[..i + 1][..i] == before.order[..i];
      if before.order[i] !in now {
        changes := changes + [Change(before.order[i], Deleted)];
      }
    }
    assert before.order[..|before.order|] == before.order;
  }

  /** What a reported change says about the two snapshots. */
  predicate Explains(c: Change, was: map<string, Stat>, now: map<string, Stat>) {
    match c.kind
    case Created => c.path in now && c.path !in was
    case Modified => c.path in now && c.path in was && now[c.path] != was[c.path]
    case Deleted => c.path in was && c.path !in now
  }

  lemma {:induction false} AppearedExact(was: map<string, Stat>, now: map<string, Stat>, order: seq<string>)
    requires forall p :: p in order ==> p in now
    ensures forall c :: c in Appeared(was, now, order)
                   <==> c.path in order && !c.kind.Deleted? && Explains(c, was, now)
  {
    if order != [] {
      AppearedExact(was, now, order[..|order| - 1]);
      assert order == order[..|order| - 1] + [order[|order| - 1]];
    }
  }

  lemma {:induction false} VanishedExact(now: map<string, Stat>, order: seq<string>)
    ensures forall c :: c in Vanished(now, order) <==> c.path in order && c.kind.Deleted? && c.path !in now
  {
    if order != [] {
      VanishedExact(now, order[..|order| - 1]);
      assert order == order[..|order| - 1] + [order[|order| - 1]];
    }
  }

  /** The diff reports exactly the paths that appeared, changed or vanished. */
  lemma DiffIsExact(before: Snapshot, after: Snapshot)
    requires before.Valid() && after.Valid()
    ensures forall c :: c in Changes(before, after) <==> Explains(c, before.stats, after.stats)
  {
    AppearedExact(before.stats, after.stats, after.order);
    VanishedExact(after.stats, before.order);
  }

  // ----- replaying changes -----

  /** The paths after one change; it must fit the paths it is applied to. */
  function Fit(at: set<string>, c: Change): Option<set<string>> {
    match c.kind
    case Created => if c.path in at then None else Some(at + {c.path})
    case Modified => if c.path in at then Some(at) else None
    case Deleted => if c.path in at then Some(at - {c.path}) else None
  }

  /** Replays changes on a set of paths; fails on a change that does not fit. */
  function Replay(paths: set<string>, changes: seq<Change>): Option<set<string>> {
    if changes == [] then Some(paths)
    else
      match Replay(paths, changes[..|changes| - 1])
      case None => None
      case Some(at) => Fit(at, changes[|changes| - 1])
  }

  lemma ReplaySnoc(paths: set<string>, s: seq<Change>, c: Change)
    requires Replay(paths, s).Some?
    ensures Replay(paths, s + [c]) == Fit(Replay(paths, s).value, c)
  {
    assert (s + [c])[..|s|] == s;
  }

  lemma {:induction false} ReplayAppend(paths: set<string>, a: seq<Change>, b: seq<Change>)
    ensures Replay(paths, a + b) == if Replay(paths, a).None? then None else Replay(Replay(paths, a).value, b)
  {
    if b == [] {
      assert a + b == a;
    } else {
      ReplayAppend(paths, a, b[..|b| - 1]);
      assert (a + b)[..|a + b| - 1] == a + b[..|b| - 1];
    }
  }

  function PathsOf(order: seq<string>): set<string> {
    set p | p in order
  }

  predicate Distinct(order: seq<string>) {
    forall i, j :: 0 <= i < j < |order| ==> order[i] != order[j]
  }

  lemma PathsSnoc(order: seq<string>)
    requires Distinct(order) && order != []
    ensures var n := |order| - 1;
            && order[n] !in PathsOf(order[..n]) && PathsOf(order) == PathsOf(order[..n]) + {order[n]}
            && Distinct(order[..n])
  {
    assert order == order[..|order| - 1] + [order[|order| - 1]];
  }

  lemma {:induction false} ReplayAppeared(was: map<string, Stat>, now: map<string, Stat>, order: seq<string>)
    requires Distinct(order) && forall p :: p in order ==> p in now
    ensures Replay(was.Keys, Appeared(was, now, order)) == Some(was.Keys + PathsOf(order))
  {
    if order == [] {
      assert was.Keys + PathsOf(order) == was.Keys;
    } else {
      var n := |order| - 1;
      var p, front := order[n], order[..n];
      PathsSnoc(order);
      ReplayAppeared(was, now, front);
      var done, at := Appeared(was, now, front), was.Keys + PathsOf(front);
      assert was.Keys + PathsOf(order) == at + {p};
      if p !in was {
        ReplaySnoc(was.Keys, done, Change(p, Created));
      } else {
        assert at + {p} == at && done + [] == done;
        ReplaySnoc(was.Keys, done, Change(p, Modified));
      }
    }
  }

  lemma {:induction false} ReplayVanished(paths: set<string>, now: map<string, Stat>, order: seq<string>)
    requires Distinct(order) && forall p :: p in order ==> p in paths
    ensures Replay(paths, Vanished(now, order)) == Some(paths - (PathsOf(order) - now.Keys))
  {
    if order == [] {
      assert paths - (PathsOf(order) - now.Keys) == paths;
    } else {
      var n := |order| - 1;
      var p, front := order[n], order[..n];
      PathsSnoc(order);
      ReplayVanished(paths, now, front);
      var done, at := Vanished(now, front), paths - (PathsOf(front) - now.Keys);
      assert p in order && p in at;
      if p !in now {
        assert paths - (PathsOf(order) - now.Keys) == at - {p};
        ReplaySnoc(paths, done, Change(p, Deleted));
      } else {
        assert PathsOf(order) - now.Keys == PathsOf(front) - now.Keys;
        assert done + [] == done;
      }
    }
  }

  /** Replaying a diff on the old paths gives the new paths, every change fitting where it applies. */
  lemma ReplayDiff(before: Snapshot, after: Snapshot)
    requires before.Valid() && after.Valid()
    ensures Replay(before.stats.Keys, Changes(before, after)) == Some(after.stats.Keys)
  {
    var all := before.stats.Keys + PathsOf(after.order);
    ReplayAppeared(before.stats, after.stats, after.order);
    ReplayVanished(all, after.stats, before.order);
    ReplayAppend(before.stats.Keys, Appeared(before.stats, after.stats, after.order),
                 Vanished(after.stats, before.order));
    assert all - (PathsOf(before.order) - after.stats.Keys) == after.stats.Keys;
  }

  // ----- waiting -----

  /** A delivered report: when, how many snapshots had been taken by then, and the changes. */
  datatype Fire = Fire(at: int, scans: nat, changes: seq<Change>)

  /** The module state, followed by its history: reports, snapshots from the baseline on, readings after them. */
  datatype Watch = Watch(snapshot: Snapshot, pending: seq<Change>, lastChange: Option<int>, waitStart: Option<int>,
                         fires: seq<Fire>, snaps: seq<Snapshot>, readings: seq<int>)

  datatype Reply = Fired(changes: seq<Change>) | Waiting | TimedOut

  /** One turn of the polling loop: its clock readings and what the scan returned. */
  datatype Poll = Poll(guard: int, check: int, scan: Snapshot, seen: int, rest: int)

  /** One call: the first reading, the clamped timeout, its polls, and the reading of the last check. */
  datatype Request = Request(mono: int, timeout: int, polls: seq<Poll>, last: int)

  ghost predicate ScansValid(polls: seq<Poll>) {
    forall i :: 0 <= i < |polls| ==> polls[i].scan.Valid()
  }

  function Polled(w: Watch, scan: Snapshot, seen: int): Watch
    requires scan.Valid()
  {
    var diff := Changes(w.snapshot, scan);
    var v := w.(snapshot := scan, snaps := w.snaps + [scan], readings := w.readings + [seen]);
    if diff == [] then v else v.(pending := w.pending + diff, lastChange := Some(seen))
  }

  predicate Settled(w: Watch, quiet: int, now: int) {
    w.pending != [] && w.lastChange.Some? && now - w.lastChange.value >= quiet
  }

  function Flushed(w: Watch, now: int): Watch {
    w.(pending := [], lastChange := None, waitStart := None,
       fires := w.fires + [Fire(now, |w.snaps|, w.pending)])
  }

  function LastCheck(w: Watch, quiet: int, now: int): (Watch, Reply) {
    if Settled(w, quiet, now) then (Flushed(w, now), Fired(w.pending)) else (w, Waiting)
  }

  function PollLoop(w: Watch, quiet: int, deadline: int, polls: seq<Poll>, last: int): (Watch, Reply)
    requires ScansValid(polls)
    decreases |polls|
  {
    if polls == [] || polls[0].guard >= deadline then LastCheck(w, quiet, last)
    else if Settled(w, quiet, polls[0].check) then (Flushed(w, polls[0].check), Fired(w.pending))
    else
      var v := Polled(w, polls[0].scan, polls[0].seen);
      if deadline - polls[0].rest <= 0 then LastCheck(v, quiet, last)
      else PollLoop(v, quiet, deadline, polls[1..], last)
  }

  /** The loop from its `i`-th turn on. */
  lemma LoopTurn(w: Watch, quiet: int, deadline: int, polls: seq<Poll>, i: nat, last: int)
    requires ScansValid(polls) && i <= |polls|
    ensures var rest := PollLoop(w, quiet, deadline, polls[i..], last);
            if i == |polls| || polls[i].guard >= deadline then rest == LastCheck(w, quiet, last)
            else if Settled(w, quiet, polls[i].check) then rest == (Flushed(w, polls[i].check), Fired(w.pending))
            else
              var v := Polled(w, polls[i].scan, polls[i].seen);
              rest == if deadline - polls[i].rest <= 0 then LastCheck(v, quiet, last)
                      else PollLoop(v, quiet, deadline, polls[i + 1..], last)
  {
    if i < |polls| {
      assert polls[i..][0] == polls[i] && polls[i..][1..] == polls[i + 1..];
    }
  }

  const MAX_TIMEOUT_S := 25
  const MICROS := 1_000_000

  /** The first call of a wait cycle starts its total time. */
  function Begun(w: Watch, mono: int): Watch {
    if w.waitStart.None? then w.(waitStart := Some(mono)) else w
  }

  function Deadline(r: Request): int {
    r.mono + Max(1, Min(r.timeout, MAX_TIMEOUT_S)) * MICROS
  }

  /** `handle_wait_for_trigger`. */
  function Handle(w: Watch, quiet: int, maxWait: Option<int>, r: Request): (Watch, Reply)
    requires ScansValid(r.polls)
  {
    var v := Begun(w, r.mono);
    if maxWait.Some? && r.mono - v.waitStart.value >= maxWait.value then (v, TimedOut)
    else PollLoop(v, quiet, Deadline(r), r.polls, r.last)
  }

  class Watcher {
    const quiet: int
    const maxWait: Option<int>
    var snapshot: Snapshot
    var pending: seq<Change>
    var lastChange: Option<int>
    var waitStart: Option<int>
    ghost var fires: seq<Fire>
    ghost var snaps: seq<Snapshot>
    ghost var readings: seq<int>

    ghost function Value(): Watch
      reads this
    {
      Watch(snapshot, pending, lastChange, waitStart, fires, snaps, readings)
    }

    constructor (quiet: int, maxWait: Option<int>, baseline: Snapshot)
      ensures this.quiet == quiet && this.maxWait == maxWait && Value() == Initial(baseline)
    {
      this.quiet, this.maxWait := quiet, maxWait;
      snapshot, pending, lastChange, waitStart := baseline, [], None, None;
      fires, snaps, readings := [], [baseline], [];
    }

    method Flush(now: int) returns (changes: seq<Change>)
      modifies this
      ensures changes == old(pending) && Value() == Flushed(old(Value()), now)
    {
      changes := pending;
      fires := fires + [Fire(now, |snaps|, pending)];
      pending, lastChange, waitStart := [], None, None;
    }

    method PollOnce(scan: Snapshot, seen: int)
      requires snapshot.Valid() && scan.Valid()
      modifies this
      ensures Value() == Polled(old(Value()), scan, seen)
    {
      var diff := Diff(snapshot, scan);
      snapshot := scan;
      snaps, readings := snaps + [scan], readings + [seen];
      if diff != [] {
        pending := pending + diff;
        lastChange := Some(seen);
      }
    }

    method Wait(r: Request) returns (reply: Reply)
      requires snapshot.Valid() && ScansValid(r.polls)
      modifies this
      ensures snapshot.Valid()
      ensures (Value(), reply) == Handle(old(Value()), quiet, maxWait, r)
    {
      if waitStart.None? {
        waitStart := Some(r.mono);
      }
      if maxWait.Some? {
        if r.mono - waitStart.value >= maxWait.value {
          return TimedOut;
        }
      }
      var deadline := r.mono + Max(1, Min(r.timeout, MAX_TIMEOUT_S)) * MICROS;
      reply := PollUntil(deadline, r.polls, r.last);
    }

    /** The polling loop. */
    method PollUntil(deadline: int, polls: seq<Poll>, last: int) returns (reply: Reply)
      requires snapshot.Valid() && ScansValid(polls)
      modifies this
      ensures snapshot.Valid()
      ensures (Value(), reply) == PollLoop(old(Value()), quiet, deadline, polls, last)
    {
      ghost var start := Value();
      var i := 0;
      assert polls[0..] == polls;
      while i < |polls| && polls[i].guard < deadline
        invariant 0 <= i <= |polls| && snapshot.Valid()
        invariant PollLoop(Value(), quiet, deadline, polls[i..], last) == PollLoop(start, quiet, deadline, polls, last)
      {
        var p := polls[i];
        LoopTurn(Value(), quiet, deadline, polls, i, last);
        if pending != [] && lastChange.Some? {
          if p.check - lastChange.value >= quiet {
            var changes := Flush(p.check);
            return Fired(changes);
          }
        }
        PollOnce(p.scan, p.seen);
        if deadline - p.rest <= 0 {
          reply := Conclude(last);
          return;
        }
        i := i + 1;
      }
      LoopTurn(Value(), quiet, deadline, polls, i, last);
      reply := Conclude(last);
    }

    /** The last debounce check before answering. */
    method Conclude(last: int) returns (reply: Reply)
      modifies this
      ensures snapshot == old(snapshot) && (Value(), reply) == LastCheck(old(Value()), quiet, last)
    {
      if pending != [] && lastChange.Some? {
        if last - lastChange.value >= quiet {
          var changes := Flush(last);
          return Fired(changes);
        }
      }
      return Waiting;
    }
  }

  function Initial(baseline: Snapshot): Watch {
    Watch(baseline, [], None, None, [], [baseline], [])
  }

  // ----- nothing is lost -----

  /** The diffs between consecutive snapshots, one after the other. */
  ghost function AllChanges(snaps: seq<Snapshot>): seq<Change>
    requires forall i :: 0 <= i < |snaps| ==> snaps[i].Valid()
  {
    if |snaps| <= 1 then []
    else AllChanges(snaps[..|snaps| - 1]) + Changes(snaps[|snaps| - 2], snaps[|snaps| - 1])
  }

  function Reported(fires: seq<Fire>): seq<Change> {
    if fires == [] then [] else Reported(fires[..|fires| - 1]) + fires[|fires| - 1].changes
  }

  ghost predicate Snapshots(snaps: seq<Snapshot>, baseline: Snapshot, current: Snapshot) {
    && snaps != [] && snaps[0] == baseline && snaps[|snaps| - 1] == current
    && forall i :: 0 <= i < |snaps| ==> snaps[i].Valid()
  }

  /** `told` is all that was detected, and replays the baseline's paths to the current ones. */
  ghost predicate Complete(told: seq<Change>, snaps: seq<Snapshot>, baseline: Snapshot, current: Snapshot) {
    && Snapshots(snaps, baseline, current)
    && told == AllChanges(snaps)
    && Replay(baseline.stats.Keys, told) == Some(current.stats.Keys)
  }

  /** The reading after the last snapshot that differs from the one before it. */
  function LastDifference(snaps: seq<Snapshot>, readings: seq<int>): Option<int>
    requires |snaps| == |readings| + 1
  {
    var n := |readings|;
    if n == 0 then None
    else if snaps[n].stats != snaps[n - 1].stats then Some(readings[n - 1])
    else LastDifference(snaps[..n], readings[..n - 1])
  }

  /** The report came at least the quiet period after the last difference seen before it. */
  predicate Quiet(f: Fire, snaps: seq<Snapshot>, readings: seq<int>, quiet: int)
    requires |snaps| == |readings| + 1
  {
    && 1 <= f.scans <= |snaps|
    && var last := LastDifference(snaps[..f.scans], readings[..f.scans - 1]);
       last.Some? && f.at - last.value >= quiet
  }

  /** Every report told something, and kept its quiet period. */
  ghost predicate ReportsQuiet(fires: seq<Fire>, snaps: seq<Snapshot>, readings: seq<int>, quiet: int)
    requires |snaps| == |readings| + 1
  {
    forall i :: 0 <= i < |fires| ==> Quiet(fires[i], snaps, readings, quiet) && fires[i].changes != []
  }

  /** Each report completes what was detected up to its last snapshot. */
  ghost predicate ReportsComplete(fires: seq<Fire>, snaps: seq<Snapshot>)
    requires forall i :: 0 <= i < |snaps| ==> snaps[i].Valid()
  {
    forall i :: 0 <= i < |fires| ==>
      fires[i].scans <= |snaps| && Reported(fires[..i + 1]) == AllChanges(snaps[..fires[i].scans])
  }

  ghost predicate Sound(w: Watch, baseline: Snapshot, quiet: int) {
    // what was reported, followed by what is pending, is all that was ever detected
    && Complete(Reported(w.fires) + w.pending, w.snaps, baseline, w.snapshot)
    && |w.snaps| == |w.readings| + 1
    // pending changes are always waiting for their quiet period, counted from the last difference
    && (w.pending != [] ==> w.lastChange.Some? && w.lastChange == LastDifference(w.snaps, w.readings))
    && ReportsQuiet(w.fires, w.snaps, w.readings, quiet)
    && ReportsComplete(w.fires, w.snaps)
  }

  /** The diff is empty exactly if nothing differs. */
  lemma NoChangesIff(before: Snapshot, after: Snapshot)
    requires before.Valid() && after.Valid()
    ensures Changes(before, after) == [] <==> before.stats == after.stats
  {
    DiffIsExact(before, after);
    if Changes(before, after) == [] {
      forall p ensures p in before.stats <==> p in after.stats {
        assert !Explains(Change(p, Created), before.stats, after.stats);
        assert !Explains(Change(p, Deleted), before.stats, after.stats);
      }
      forall p | p in before.stats ensures before.stats[p] == after.stats[p] {
        assert !Explains(Change(p, Modified), before.stats, after.stats);
      }
    } else {
      assert Explains(Changes(before, after)[0], before.stats, after.stats);
    }
  }

  lemma AllChangesSnoc(snaps: seq<Snapshot>, scan: Snapshot)
    requires snaps != [] && scan.Valid() && forall i :: 0 <= i < |snaps| ==> snaps[i].Valid()
    ensures AllChanges(snaps + [scan]) == AllChanges(snaps) + Changes(snaps[|snaps| - 1], scan)
  {
    assert (snaps + [scan])[..|snaps|] == snaps;
  }

  /** One more snapshot appends its diff to what was detected, and moves the replayed paths along. */
  lemma CompleteSnoc(told: seq<Change>, snaps: seq<Snapshot>, baseline: Snapshot, current: Snapshot, scan: Snapshot)
    requires Complete(told, snaps, baseline, current) && scan.Valid()
    ensures Complete(told + Changes(current, scan), snaps + [scan], baseline, scan)
  {
    AllChangesSnoc(snaps, scan);
    ReplayDiff(current, scan);
    ReplayAppend(baseline.stats.Keys, told, Changes(current, scan));
  }

  /** One more snapshot: what it means for the last difference. */
  lemma DifferenceSnoc(snaps: seq<Snapshot>, readings: seq<int>, scan: Snapshot, seen: int)
    requires |snaps| == |readings| + 1
    ensures LastDifference(snaps + [scan], readings + [seen])
         == if scan.stats != snaps[|readings|].stats then Some(seen) else LastDifference(snaps, readings)
  {
    var n := |readings|;
    assert (snaps + [scan])[..n + 1] == snaps && (readings + [seen])[..n] == readings;
  }

  /** Older reports are as they were. */
  lemma QuietKept(fires: seq<Fire>, snaps: seq<Snapshot>, readings: seq<int>, scan: Snapshot, seen: int, quiet: int)
    requires |snaps| == |readings| + 1 && ReportsQuiet(fires, snaps, readings, quiet)
    ensures ReportsQuiet(fires, snaps + [scan], readings + [seen], quiet)
  {
    forall i | 0 <= i < |fires| ensures Quiet(fires[i], snaps + [scan], readings + [seen], quiet) {
      var k := fires[i].scans;
      assert Quiet(fires[i], snaps, readings, quiet);
      assert (snaps + [scan])[..k] == snaps[..k] && (readings + [seen])[..k - 1] == readings[..k - 1];
    }
  }

  lemma CompletedKept(fires: seq<Fire>, snaps: seq<Snapshot>, scan: Snapshot)
    requires scan.Valid() && (forall i :: 0 <= i < |snaps| ==> snaps[i].Valid()) && ReportsComplete(fires, snaps)
    ensures ReportsComplete(fires, snaps + [scan])
  {
    forall i | 0 <= i < |fires| ensures Reported(fires[..i + 1]) == AllChanges((snaps + [scan])[..fires[i].scans]) {
      assert (snaps + [scan])[..fires[i].scans] == snaps[..fires[i].scans];
    }
  }

  lemma PolledIsSound(w: Watch, baseline: Snapshot, quiet: int, scan: Snapshot, seen: int)
    requires Sound(w, baseline, quiet) && scan.Valid()
    ensures Sound(Polled(w, scan, seen), baseline, quiet)
  {
    var diff, told := Changes(w.snapshot, scan), Reported(w.fires);
    CompleteSnoc(told + w.pending, w.snaps, baseline, w.snapshot, scan);
    NoChangesIff(w.snapshot, scan);
    DifferenceSnoc(w.snaps, w.readings, scan, seen);
    QuietKept(w.fires, w.snaps, w.readings, scan, seen, quiet);
    CompletedKept(w.fires, w.snaps, scan);
    Reassociate(told, w.pending, diff);
    assert w.pending + [] == w.pending;
  }

  lemma ReportedSnoc(fires: seq<Fire>, f: Fire)
    ensures Reported(fires + [f]) == Reported(fires) + f.changes
  {
    assert (fires + [f])[..|fires|] == fires;
  }

  /** One more report, that kept its quiet period. */
  lemma QuietSnoc(fires: seq<Fire>, f: Fire, snaps: seq<Snapshot>, readings: seq<int>, quiet: int)
    requires |snaps| == |readings| + 1 && ReportsQuiet(fires, snaps, readings, quiet)
    requires f.scans == |snaps| && f.changes != []
    requires LastDifference(snaps, readings).Some? && f.at - LastDifference(snaps, readings).value >= quiet
    ensures ReportsQuiet(fires + [f], snaps, readings, quiet)
  {
    assert snaps[..|snaps|] == snaps && readings[..|snaps| - 1] == readings;
    assert Quiet(f, snaps, readings, quiet);
  }

  /** One more report, of all that was detected so far. */
  lemma CompletedSnoc(fires: seq<Fire>, f: Fire, snaps: seq<Snapshot>)
    requires (forall i :: 0 <= i < |snaps| ==> snaps[i].Valid()) && ReportsComplete(fires, snaps)
    requires f.scans == |snaps| && Reported(fires + [f]) == AllChanges(snaps)
    ensures ReportsComplete(fires + [f], snaps)
  {
    var more := fires + [f];
    assert snaps[..|snaps|] == snaps;
    forall i | 0 <= i < |more|
      ensures more[i].scans <= |snaps| && Reported(more[..i + 1]) == AllChanges(snaps[..more[i].scans])
    {
      assert more[..i + 1] == if i < |fires| then fires[..i + 1] else more;
    }
  }

  lemma FlushedIsSound(w: Watch, baseline: Snapshot, quiet: int, now: int)
    requires Sound(w, baseline, quiet) && Settled(w, quiet, now)
    ensures Sound(Flushed(w, now), baseline, quiet)
  {
    var f := Fire(now, |w.snaps|, w.pending);
    ReportedSnoc(w.fires, f);
    QuietSnoc(w.fires, f, w.snaps, w.readings, quiet);
    CompletedSnoc(w.fires, f, w.snaps);
    assert Reported(w.fires + [f]) + [] == Reported(w.fires) + w.pending;
  }

  lemma {:induction false} LoopIsSound(w: Watch, baseline: Snapshot, quiet: int, deadline: int,
                                       polls: seq<Poll>, last: int)
    requires Sound(w, baseline, quiet) && ScansValid(polls)
    ensures Sound(PollLoop(w, quiet, deadline, polls, last).0, baseline, quiet)
    decreases |polls|
  {
    if polls == [] || polls[0].guard >= deadline {
      CheckIsSound(w, baseline, quiet, last);
    } else if Settled(w, quiet, polls[0].check) {
      FlushedIsSound(w, baseline, quiet, polls[0].check);
    } else {
      var v := Polled(w, polls[0].scan, polls[0].seen);
      PolledIsSound(w, baseline, quiet, polls[0].scan, polls[0].seen);
      if deadline - polls[0].rest <= 0 {
        CheckIsSound(v, baseline, quiet, last);
      } else {
        LoopIsSound(v, baseline, quiet, deadline, polls[1..], last);
      }
    }
  }

  lemma CheckIsSound(w: Watch, baseline: Snapshot, quiet: int, now: int)
    requires Sound(w, baseline, quiet)
    ensures Sound(LastCheck(w, quiet, now).0, baseline, quiet)
  {
    if Settled(w, quiet, now) {
      FlushedIsSound(w, baseline, quiet, now);
    }
  }

  function Run(w: Watch, quiet: int, maxWait: Option<int>, calls: seq<Request>): Watch
    requires forall i :: 0 <= i < |calls| ==> ScansValid(calls[i].polls)
    decreases |calls|
  {
    if calls == [] then w else Run(Handle(w, quiet, maxWait, calls[0]).0, quiet, maxWait, calls[1..])
  }

  lemma BegunIsSound(w: Watch, baseline: Snapshot, quiet: int, mono: int)
    requires Sound(w, baseline, quiet)
    ensures Sound(Begun(w, mono), baseline, quiet)
  {
  }

  /** A call times out at once or is its polling loop. */
  lemma HandleCases(w: Watch, quiet: int, maxWait: Option<int>, r: Request, v: Watch)
    requires ScansValid(r.polls) && v == Begun(w, r.mono)
    ensures || Handle(w, quiet, maxWait, r) == (v, TimedOut)
            || Handle(w, quiet, maxWait, r) == PollLoop(v, quiet, Deadline(r), r.polls, r.last)
  {
  }

  lemma HandleIsSound(w: Watch, baseline: Snapshot, quiet: int, maxWait: Option<int>, r: Request)
    requires Sound(w, baseline, quiet) && ScansValid(r.polls)
    ensures Sound(Handle(w, quiet, maxWait, r).0, baseline, quiet)
  {
    var v := Begun(w, r.mono);
    BegunIsSound(w, baseline, quiet, r.mono);
    LoopIsSound(v, baseline, quiet, Deadline(r), r.polls, r.last);
    HandleCases(w, quiet, maxWait, r, v);
  }

  lemma {:induction false} RunIsSound(w: Watch, baseline: Snapshot, quiet: int, maxWait: Option<int>,
                                      calls: seq<Request>)
    requires Sound(w, baseline, quiet) && forall i :: 0 <= i < |calls| ==> ScansValid(calls[i].polls)
    ensures Sound(Run(w, quiet, maxWait, calls), baseline, quiet)
    decreases |calls|
  {
    if calls != [] {
      HandleIsSound(w, baseline, quiet, maxWait, calls[0]);
      RunIsSound(Handle(w, quiet, maxWait, calls[0]).0, baseline, quiet, maxWait, calls[1..]);
    }
  }

  /** What the calls of a run are answered. */
  function Replies(w: Watch, quiet: int, maxWait: Option<int>, calls: seq<Request>): seq<Reply>
    requires forall i :: 0 <= i < |calls| ==> ScansValid(calls[i].polls)
    decreases |calls|
  {
    if calls == [] then []
    else
      var (v, reply) := Handle(w, quiet, maxWait, calls[0]);
      [reply] + Replies(v, quiet, maxWait, calls[1..])
  }

  function Tells(reply: Reply): seq<Change> {
    if reply.Fired? then reply.changes else []
  }

  /** All changes that replies tell of, in order. */
  function Told(replies: seq<Reply>): seq<Change> {
    if replies == [] then [] else Tells(replies[0]) + Told(replies[1..])
  }

  /** Nothing is answered but what is recorded as reported. */
  predicate Answers(w: Watch, v: Watch, reply: Reply) {
    Reported(v.fires) == Reported(w.fires) + Tells(reply)
  }

  lemma CheckAnswers(w: Watch, quiet: int, now: int)
    ensures Answers(w, LastCheck(w, quiet, now).0, LastCheck(w, quiet, now).1)
    ensures Answers(w, Flushed(w, now), Fired(w.pending))
  {
    ReportedSnoc(w.fires, Fire(now, |w.snaps|, w.pending));
    assert Reported(w.fires) + [] == Reported(w.fires);
  }

  lemma {:induction false} LoopAnswers(w: Watch, quiet: int, deadline: int, polls: seq<Poll>, last: int)
    requires ScansValid(polls)
    ensures Answers(w, PollLoop(w, quiet, deadline, polls, last).0, PollLoop(w, quiet, deadline, polls, last).1)
    decreases |polls|
  {
    if polls == [] || polls[0].guard >= deadline {
      CheckAnswers(w, quiet, last);
    } else if Settled(w, quiet, polls[0].check) {
      CheckAnswers(w, quiet, polls[0].check);
    } else {
      var v := Polled(w, polls[0].scan, polls[0].seen);
      assert v.fires == w.fires;
      if deadline - polls[0].rest <= 0 {
        CheckAnswers(v, quiet, last);
      } else {
        LoopAnswers(v, quiet, deadline, polls[1..], last);
      }
    }
  }

  lemma HandleAnswers(w: Watch, quiet: int, maxWait: Option<int>, r: Request)
    requires ScansValid(r.polls)
    ensures Answers(w, Handle(w, quiet, maxWait, r).0, Handle(w, quiet, maxWait, r).1)
  {
    var v := Begun(w, r.mono);
    LoopAnswers(v, quiet, Deadline(r), r.polls, r.last);
    HandleCases(w, quiet, maxWait, r, v);
    assert Reported(w.fires) + [] == Reported(w.fires);
  }

  /** Over a run, what the caller is told is what is recorded as reported. */
  lemma {:induction false} ToldIsReported(w: Watch, quiet: int, maxWait: Option<int>, calls: seq<Request>)
    requires forall i :: 0 <= i < |calls| ==> ScansValid(calls[i].polls)
    ensures Reported(Run(w, quiet, maxWait, calls).fires)
         == Reported(w.fires) + Told(Replies(w, quiet, maxWait, calls))
    decreases |calls|
  {
    if calls == [] {
      assert Reported(w.fires) + [] == Reported(w.fires);
    } else {
      var (v, reply) := Handle(w, quiet, maxWait, calls[0]);
      var rest := Replies(v, quiet, maxWait, calls[1..]);
      HandleAnswers(w, quiet, maxWait, calls[0]);
      ToldIsReported(v, quiet, maxWait, calls[1..]);
      assert ([reply] + rest)[1..] == rest;
      Reassociate(Reported(w.fires), Tells(reply), Told(rest));
    }
  }

  /**
   Over every run of calls, what the caller was told followed by the pending changes is the concatenated
   diffs, and replays the baseline's paths to the current ones; each report tells all that was detected
   up to its last snapshot, at least the quiet period after the last one that differs from its predecessor.
   */
  lemma NothingIsLost(baseline: Snapshot, quiet: int, maxWait: Option<int>, calls: seq<Request>)
    requires baseline.Valid() && forall i :: 0 <= i < |calls| ==> ScansValid(calls[i].polls)
    ensures var w := Run(Initial(baseline), quiet, maxWait, calls);
            var told := Told(Replies(Initial(baseline), quiet, maxWait, calls));
            && (forall i :: 0 <= i < |w.snaps| ==> w.snaps[i].Valid())
            && told + w.pending == AllChanges(w.snaps)
            && Replay(baseline.stats.Keys, told + w.pending) == Some(w.snapshot.stats.Keys)
            && |w.snaps| == |w.readings| + 1
            && (w.pending != [] ==> w.lastChange == LastDifference(w.snaps, w.readings))
            && ReportsQuiet(w.fires, w.snaps, w.readings, quiet) && ReportsComplete(w.fires, w.snaps)
  {
    RunIsSound(Initial(baseline), baseline, quiet, maxWait, calls);
    ToldIsReported(Initial(baseline), quiet, maxWait, calls);
    assert [] + Told(Replies(Initial(baseline), quiet, maxWait, calls))
        == Told(Replies(Initial(baseline), quiet, maxWait, calls));
  }

  // ----- which scans a call takes -----

  function ScansOf(polls: seq<Poll>): seq<Snapshot> {
    if polls == [] then [] else ScansOf(polls[..|polls| - 1]) + [polls[|polls| - 1].scan]
  }

  function SeenOf(polls: seq<Poll>): seq<int> {
    if polls == [] then [] else SeenOf(polls[..|polls| - 1]) + [polls[|polls| - 1].seen]
  }

  /** `v` has taken the scans of exactly these turns more than `w`. */
  predicate Took(w: Watch, v: Watch, turns: seq<Poll>) {
    v.snaps == w.snaps + ScansOf(turns) && v.readings == w.readings + SeenOf(turns)
  }

  lemma {:induction false} TookCons(w: Watch, v: Watch, u: Watch, p: Poll, turns: seq<Poll>)
    requires v.snaps == w.snaps + [p.scan] && v.readings == w.readings + [p.seen] && Took(v, u, turns)
    ensures Took(w, u, [p] + turns)
  {
    ScansCons(p, turns);
    Reassociate(w.snaps, [p.scan], ScansOf(turns));
    Reassociate(w.readings, [p.seen], SeenOf(turns));
  }

  lemma {:induction false} ScansCons(p: Poll, turns: seq<Poll>)
    ensures ScansOf([p] + turns) == [p.scan] + ScansOf(turns) && SeenOf([p] + turns) == [p.seen] + SeenOf(turns)
  {
    if turns == [] {
      assert [p] + turns == [p] && [p][..0] == [];
    } else {
      var n := |turns| - 1;
      ScansCons(p, turns[..n]);
      assert ([p] + turns)[..n + 1] == [p] + turns[..n] && ([p] + turns)[n + 1] == turns[n];
    }
  }

  /**
   The loop took the scans of its first `k` turns, each begun before the deadline, and stopped early only
   to report; otherwise it went on until a reading reached the deadline.
   */
  predicate Scanned(w: Watch, deadline: int, polls: seq<Poll>, k: nat, out: (Watch, Reply)) {
    && k <= |polls| && Took(w, out.0, polls[..k])
    && (forall i :: 0 <= i < k ==> polls[i].guard < deadline)
    && (out.1.Fired? || k == |polls| || polls[k].guard >= deadline || (k > 0 && polls[k - 1].rest >= deadline))
  }

  lemma ScannedNone(w: Watch, deadline: int, polls: seq<Poll>, out: (Watch, Reply))
    requires out.0.snaps == w.snaps && out.0.readings == w.readings
    requires out.1.Fired? || polls == [] || polls[0].guard >= deadline
    ensures Scanned(w, deadline, polls, 0, out)
  {
    assert polls[..0] == [];
  }

  lemma ScannedCons(w: Watch, v: Watch, deadline: int, polls: seq<Poll>, k: nat, out: (Watch, Reply))
    requires polls != [] && polls[0].guard < deadline
    requires v.snaps == w.snaps + [polls[0].scan] && v.readings == w.readings + [polls[0].seen]
    requires if polls[0].rest >= deadline then k == 0 && Took(v, out.0, [])
             else Scanned(v, deadline, polls[1..], k, out)
    ensures Scanned(w, deadline, polls, k + 1, out)
  {
    assert polls[1..][..k] == [] || k > 0;
    assert polls[..k + 1] == [polls[0]] + polls[1..][..k];
    TookCons(w, v, out.0, polls[0], polls[1..][..k]);
  }

  lemma {:induction false} LoopScans(w: Watch, quiet: int, deadline: int, polls: seq<Poll>, last: int) returns (k: nat)
    requires ScansValid(polls)
    ensures Scanned(w, deadline, polls, k, PollLoop(w, quiet, deadline, polls, last))
    decreases |polls|
  {
    var out := PollLoop(w, quiet, deadline, polls, last);
    k := 0;
    if polls == [] || polls[0].guard >= deadline || Settled(w, quiet, polls[0].check) {
      ScannedNone(w, deadline, polls, out);
    } else {
      var v := Polled(w, polls[0].scan, polls[0].seen);
      if deadline - polls[0].rest > 0 {
        k := LoopScans(v, quiet, deadline, polls[1..], last);
      }
      ScannedCons(w, v, deadline, polls, k, out);
      k := k + 1;
    }
  }

  /** Within the total limit, a call polls for the requested seconds, at least one and at most 25. */
  lemma CallScans(w: Watch, quiet: int, maxWait: Option<int>, r: Request) returns (k: nat)
    requires ScansValid(r.polls) && !Expired(w, maxWait, r.mono) && (maxWait.Some? ==> maxWait.value >= 1)
    ensures var seconds := if r.timeout < 1 then 1 else if r.timeout > 25 then 25 else r.timeout;
            Scanned(w, r.mono + seconds * 1_000_000, r.polls, k, Handle(w, quiet, maxWait, r))
  {
    k := LoopScans(Begun(w, r.mono), quiet, Deadline(r), r.polls, r.last);
  }

  // ----- what the total limit strands -----

  /** A call at `mono` finds the total waiting time used up. */
  predicate Expired(w: Watch, maxWait: Option<int>, mono: int) {
    maxWait.Some? && w.waitStart.Some? && mono - w.waitStart.value >= maxWait.value
  }

  /** The reading at which a call first looks for settled changes. */
  function FirstCheck(r: Request): int {
    var seconds := if r.timeout < 1 then 1 else if r.timeout > 25 then 25 else r.timeout;
    if r.polls != [] && r.polls[0].guard < r.mono + seconds * 1_000_000 then r.polls[0].check else r.last
  }

  /** Changes that are settled when a call looks are reported by it exactly if the limit is not used up. */
  lemma SettledIsReportedIff(w: Watch, quiet: int, maxWait: Option<int>, r: Request)
    requires ScansValid(r.polls) && (maxWait.Some? ==> maxWait.value >= 1)
    requires w.pending != [] && w.lastChange.Some? && FirstCheck(r) - w.lastChange.value >= quiet
    ensures Handle(w, quiet, maxWait, r).1 == Fired(w.pending) <==> !Expired(w, maxWait, r.mono)
  {
  }

  /** Once a call timed out so does every later one: nothing is scanned and nothing pending is reported. */
  lemma {:induction false} ExpiredForGood(w: Watch, quiet: int, maxWait: Option<int>, calls: seq<Request>, mono: int)
    requires forall i :: 0 <= i < |calls| ==> ScansValid(calls[i].polls) && mono <= calls[i].mono
    requires Expired(w, maxWait, mono)
    ensures Run(w, quiet, maxWait, calls) == w
    ensures forall i :: 0 <= i < |calls| ==> Handle(w, quiet, maxWait, calls[i]) == (w, TimedOut)
    decreases |calls|
  {
    if calls != [] {
      assert Handle(w, quiet, maxWait, calls[0]) == (w, TimedOut);
      ExpiredForGood(w, quiet, maxWait, calls[1..], mono);
      forall i | 0 <= i < |calls| ensures Handle(w, quiet, maxWait, calls[i]) == (w, TimedOut) {
      }
    }
  }

  /** The readings of one turn, in the order they are taken. */
  predicate TurnInOrder(p: Poll) {
    p.guard <= p.check <= p.seen <= p.rest
  }

  /** The readings of a call from a clock that never goes back. */
  predicate InOrder(r: Request) {
    && (forall i :: 0 <= i < |r.polls| ==>
          TurnInOrder(r.polls[i]) && r.mono <= r.polls[i].guard && r.polls[i].rest <= r.last)
    && (forall i, j :: 0 <= i < j < |r.polls| ==> r.polls[i].rest <= r.polls[j].guard)
    && r.mono <= r.last
  }

  /**
   That happens with changes pending: a change seen by the last poll of a call is never reported when the
   limit is used up by the time of the next one.
   */
  lemma PendingCanBeStranded(quiet: int, limit: int) returns (baseline: Snapshot, call: Request)
    requires quiet >= 1 && limit >= 1
    ensures baseline.Valid() && ScansValid(call.polls) && InOrder(call)
    ensures Handle(Initial(baseline), quiet, Some(limit), call).1 == Waiting
    ensures var w := Run(Initial(baseline), quiet, Some(limit), [call]);
            w.pending != [] && Expired(w, Some(limit), Max(limit, call.last))
  {
    var found := Snapshot(["a"], map["a" := Stat(0, 0, 0)]);
    baseline := Snapshot([], map[]);
    assert found.order[..0] == [];
    assert Changes(baseline, found) == [Change("a", Created)];
    call := Request(0, 1, [Poll(0, 0, found, MICROS, MICROS)], MICROS);
    var w := Initial(baseline).(waitStart := Some(0));
    var v := Polled(w, found, MICROS);
    assert !Settled(w, quiet, 0) && !Settled(v, quiet, MICROS);
    assert PollLoop(w, quiet, MICROS, call.polls, MICROS) == (v, Waiting);
    assert Handle(Initial(baseline), quiet, Some(limit), call).0 == v;
    assert [call][1..] == [];
  }
}
