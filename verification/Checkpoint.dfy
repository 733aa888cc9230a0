/**
 The checkpoint store (agentd/src/checkpoint.rs): a directory of named files changed by single file
 operations, any two of which a crash can separate.
 */
module Checkpoint {
  import opened Common

  const FORMAT_VERSION := 4
  const PRIMARY := "checkpoint.json"
  const RESTORED := "checkpoint.json.restored"

  type State = string

  /** What a file holds: a checkpoint of some version, or bytes that do not parse as one. */
  datatype Content = Saved(version: int, state: State) | Garbage {
    /** `read_and_parse` succeeds. */
    predicate Readable() {
      Saved? && version <= FORMAT_VERSION
    }
  }

  type Disk = map<string, Content>

  datatype FileOp = Write(name: string, content: Content) | Rename(from: string, to: string) | Remove(name: string)

  /** One operation; renaming or removing a missing file changes nothing. */
  function Apply(d: Disk, op: FileOp): Disk {
    match op
    case Write(name, content) => d[name := content]
    case Rename(from, to) => if from in d && from != to then (d - {from})[to := d[from]] else d
    case Remove(name) => d - {name}
  }

  function ApplyAll(d: Disk, ops: seq<FileOp>): Disk
    decreases |ops|
  {
    if ops == [] then d else ApplyAll(Apply(d, ops[0]), ops[1..])
  }

  lemma {:induction false} ApplyAppend(d: Disk, a: seq<FileOp>, b: seq<FileOp>)
    ensures ApplyAll(d, a + b) == ApplyAll(ApplyAll(d, a), b)
    decreases |a|
  {
    if a == [] {
      assert a + b == b;
    } else {
      ApplyAppend(Apply(d, a[0]), a[1..], b);
      assert (a + b)[1..] == a[1..] + b;
    }
  }

  lemma ApplyOne(d: Disk, a: FileOp)
    ensures ApplyAll(d, [a]) == Apply(d, a)
  {
    assert [a][1..] == [];
  }

  lemma ApplyTwo(d: Disk, a: FileOp, b: FileOp)
    ensures ApplyAll(d, [a, b]) == Apply(Apply(d, a), b)
  {
    ApplyAppend(d, [a], [b]);
    ApplyOne(d, a);
    ApplyOne(Apply(d, a), b);
    assert [a] + [b] == [a, b];
  }

  function Corrupt(name: string): string {
    name + ".corrupt"
  }

  /** The names the sweep may delete. */
  predicate IsTmp(name: string) {
    StartsWith(name, PRIMARY + ".") && EndsWith(name, ".tmp")
  }

  function TmpName(pid: string, nanos: string): string {
    PRIMARY + "." + pid + "." + nanos + ".tmp"
  }

  /** A directory entry, and whether its modification time makes it old enough to sweep. */
  datatype Entry = Entry(name: string, stale: bool)

  // ----- the operations each call performs, in order -----

  /** `save`: a temporary file, empty at first, is completed, renamed, and supersedes the old copy. */
  function SaveOps(tmp: string, state: State): seq<FileOp> {
    [Remove(tmp), Write(tmp, Garbage), Write(tmp, Saved(FORMAT_VERSION, state)), Rename(tmp, PRIMARY), Remove(RESTORED)]
  }

  /** The rename takes effect with the fourth operation. */
  const RENAME_DONE := 4

  function SweepOps(entries: seq<Entry>): seq<FileOp> {
    if entries == [] then []
    else (if IsTmp(entries[0].name) && entries[0].stale then [Remove(entries[0].name)] else []) + SweepOps(entries[1..])
  }

  /** What a load moves out of the way. */
  function QuarantineOps(d: Disk): seq<FileOp> {
    if PRIMARY in d then
      if d[PRIMARY].Readable() then []
      else [Rename(PRIMARY, Corrupt(PRIMARY))] +
           if RESTORED in d && !d[RESTORED].Readable() then [Rename(RESTORED, Corrupt(RESTORED))] else []
    else if RESTORED in d && !d[RESTORED].Readable() then [Rename(RESTORED, Corrupt(RESTORED))]
    else []
  }

  function LoadOps(d: Disk, entries: seq<Entry>): seq<FileOp> {
    SweepOps(entries) + QuarantineOps(ApplyAll(d, SweepOps(entries)))
  }

  /** What a load returns. */
  function LoadResult(d: Disk): Result<Option<State>, string> {
    if PRIMARY in d then
      if d[PRIMARY].Readable() then Ok(Some(d[PRIMARY].state))
      else if RESTORED in d && d[RESTORED].Readable() then Ok(Some(d[RESTORED].state))
      else Err("unreadable checkpoint")
    else if RESTORED in d then
      if d[RESTORED].Readable() then Ok(Some(d[RESTORED].state)) else Err("unreadable checkpoint")
    else Ok(None)
  }

  const MARK_RESTORED_OPS := [Rename(PRIMARY, RESTORED)]

  /** What a boot does after both loads. */
  function SetAsideOps(d1: Disk): seq<FileOp> {
    if LoadResult(d1).Ok? && LoadResult(d1).value.Some? then MARK_RESTORED_OPS else []
  }

  /** A boot peeks at the checkpoint, loads it again and, if there was one, sets it aside. */
  function BootOps(d: Disk, first: seq<Entry>, second: seq<Entry>): seq<FileOp> {
    var peek := LoadOps(d, first);
    var d1 := ApplyAll(d, peek);
    var load := LoadOps(d1, second);
    peek + load + SetAsideOps(d1)
  }

  // ----- the store -----

  /** The directory, and every file operation performed on it so far; only `Perform` touches either. */
  class CheckpointStore {
    var disk: Disk
    ghost var trace: seq<FileOp>

    constructor (disk: Disk)
      ensures this.disk == disk && trace == []
    {
      this.disk, this.trace := disk, [];
    }

    /** One atomic file operation; renaming or removing a missing file fails and changes nothing. */
    method Perform(op: FileOp)
      modifies this
      ensures disk == Apply(old(disk), op) && trace == old(trace) + [op]
    {
      match op {
        case Write(name, content) => disk := disk[name := content];
        case Rename(from, to) =>
          if from in disk && from != to {
            disk := (disk - {from})[to := disk[from]];
          }
        case Remove(name) => disk := disk - {name};
      }
      trace := trace + [op];
    }

    method Save(tmp: string, state: State)
      modifies this
      ensures trace == old(trace) + SaveOps(tmp, state)
      ensures disk == ApplyAll(old(disk), SaveOps(tmp, state))
    {
      ghost var ops := SaveOps(tmp, state);
      PrefixesOfSave(old(disk), ops);
      assert ops[..5] == ops;
      Perform(Remove(tmp));
      Perform(Write(tmp, Garbage));
      Perform(Write(tmp, Saved(FORMAT_VERSION, state)));
      Perform(Rename(tmp, PRIMARY));
      Perform(Remove(RESTORED));
    }

    /** Succeeds also when the primary is gone but the copy is in place. */
    method MarkRestored() returns (ok: bool)
      modifies this
      ensures trace == old(trace) + MARK_RESTORED_OPS
      ensures disk == ApplyAll(old(disk), MARK_RESTORED_OPS)
      ensures ok == (PRIMARY in old(disk) || RESTORED in old(disk))
    {
      var there := PRIMARY in disk;
      ApplyOne(disk, Rename(PRIMARY, RESTORED));
      Perform(Rename(PRIMARY, RESTORED));
      return there || RESTORED in disk;
    }

    method SweepStaleTmp(entries: seq<Entry>)
      modifies this
      ensures trace == old(trace) + SweepOps(entries)
      ensures disk == ApplyAll(old(disk), SweepOps(entries))
    {
      for i := 0 to |entries|
        invariant old(trace) + SweepOps(entries) == trace + SweepOps(entries[i..])
        invariant ApplyAll(disk, SweepOps(entries[i..])) == ApplyAll(old(disk), SweepOps(entries))
      {
        assert entries[i..][1..] == entries[i + 1..];
        var e := entries[i];
        if IsTmp(e.name) && e.stale {
          ghost var rest := SweepOps(entries[i + 1..]);
          assert ([Remove(e.name)] + rest)[1..] == rest;
          Reassociate(trace, [Remove(e.name)], rest);
          Perform(Remove(e.name));
        } else {
          assert SweepOps(entries[i..]) == SweepOps(entries[i + 1..]);
        }
      }
    }

    method Quarantine(name: string)
      modifies this
      ensures trace == old(trace) + [Rename(name, Corrupt(name))]
      ensures disk == Apply(old(disk), Rename(name, Corrupt(name)))
    {
      Perform(Rename(name, Corrupt(name)));
    }

    method Load(entries: seq<Entry>) returns (r: Result<Option<State>, string>)
      modifies this
      ensures trace == old(trace) + LoadOps(old(disk), entries)
      ensures disk == ApplyAll(old(disk), LoadOps(old(disk), entries))
      ensures r == LoadResult(ApplyAll(old(disk), SweepOps(entries)))
    {
      SweepStaleTmp(entries);
      ghost var swept := disk;
      ApplyAppend(old(disk), SweepOps(entries), QuarantineOps(swept));
      Reassociate(old(trace), SweepOps(entries), QuarantineOps(swept));
      r := Choose();
    }

    /** The part of `load` after the sweep. */
    method Choose() returns (r: Result<Option<State>, string>)
      modifies this
      ensures trace == old(trace) + QuarantineOps(old(disk))
      ensures disk == ApplyAll(old(disk), QuarantineOps(old(disk))) && r == LoadResult(old(disk))
    {
      QuarantineMoves(disk);
      NamesDiffer();
      if PRIMARY in disk {
        if disk[PRIMARY].Readable() {
          return Ok(Some(disk[PRIMARY].state));
        }
        Quarantine(PRIMARY);
        if RESTORED in disk {
          if disk[RESTORED].Readable() {
            return Ok(Some(disk[RESTORED].state));
          }
          Quarantine(RESTORED);
        }
        return Err("unreadable checkpoint");
      } else if RESTORED in disk {
        if disk[RESTORED].Readable() {
          return Ok(Some(disk[RESTORED].state));
        }
        Quarantine(RESTORED);
        return Err("unreadable checkpoint");
      }
      return Ok(None);
    }

    /** What the program does at start (agentd/src/main.rs:510, 1267-1285). */
    method Boot(first: seq<Entry>, second: seq<Entry>) returns (r: Result<Option<State>, string>)
      modifies this
      ensures trace == old(trace) + BootOps(old(disk), first, second)
      ensures disk == ApplyAll(old(disk), BootOps(old(disk), first, second))
      ensures r == LoadResult(ApplyAll(old(disk), LoadOps(old(disk), first)))
    {
      ghost var d := disk;
      var _ := Load(first);
      ghost var d1 := disk;
      BootSplit(d, first, second, d1);
      r := Load(second);
      assert r == LoadResult(d1);
      Reassociate(old(trace), LoadOps(d, first), LoadOps(d1, second));
      Reassociate(old(trace), LoadOps(d, first) + LoadOps(d1, second), SetAsideOps(d1));
      if r.Ok? && r.value.Some? {
        var _ := MarkRestored();
      }
    }
  }

  lemma BootSplit(d: Disk, first: seq<Entry>, second: seq<Entry>, d1: Disk)
    requires d1 == ApplyAll(d, LoadOps(d, first))
    ensures BootOps(d, first, second) == LoadOps(d, first) + LoadOps(d1, second) + SetAsideOps(d1)
    ensures ApplyAll(d, BootOps(d, first, second)) == ApplyAll(ApplyAll(d1, LoadOps(d1, second)), SetAsideOps(d1))
    ensures LoadResult(ApplyAll(d1, SweepOps(second))) == LoadResult(d1)
  {
    ApplyAppend(d, LoadOps(d, first), LoadOps(d1, second));
    ApplyAppend(d, LoadOps(d, first) + LoadOps(d1, second), SetAsideOps(d1));
    SweepKeepsCopies(d1, second);
  }

  lemma NamesDiffer()
    ensures PRIMARY != RESTORED && Corrupt(PRIMARY) != PRIMARY && Corrupt(PRIMARY) != RESTORED
    ensures Corrupt(RESTORED) != RESTORED && Corrupt(RESTORED) != PRIMARY
    ensures !IsTmp(PRIMARY) && !IsTmp(RESTORED)
  {
    assert |PRIMARY| == 15 && |RESTORED| == 24 && |Corrupt(PRIMARY)| == 23 && |Corrupt(RESTORED)| == 32;
    assert RESTORED[20..] == "ored" && "ored"[0] == 'o' && ".tmp"[0] == '.';
  }

  // ----- loading, on any disk whatever -----

  /** The two files a load looks at. */
  ghost predicate SameCopies(d: Disk, e: Disk) {
    && (PRIMARY in d <==> PRIMARY in e) && (PRIMARY in d ==> d[PRIMARY] == e[PRIMARY])
    && (RESTORED in d <==> RESTORED in e) && (RESTORED in d ==> d[RESTORED] == e[RESTORED])
  }

  /** The sweep never touches either copy, whatever the directory lists. */
  lemma {:induction false} SweepKeepsCopies(d: Disk, entries: seq<Entry>)
    ensures SameCopies(d, ApplyAll(d, SweepOps(entries)))
    decreases |entries|
  {
    if entries != [] {
      NamesDiffer();
      var rest := SweepOps(entries[1..]);
      if IsTmp(entries[0].name) && entries[0].stale {
        SweepKeepsCopies(d - {entries[0].name}, entries[1..]);
        assert ([Remove(entries[0].name)] + rest)[1..] == rest;
      } else {
        SweepKeepsCopies(d, entries[1..]);
        assert SweepOps(entries) == rest;
      }
    }
  }

  /** A checkpoint of this or an older format; anything else cannot be loaded. */
  predicate Usable(c: Content) {
    c.Saved? && c.version <= 4
  }

  /** The primary if it can be used, else the other copy if that can; nothing only if neither exists. */
  lemma LoadUsesAValidCopy(d: Disk)
    ensures PRIMARY in d && Usable(d[PRIMARY]) ==> LoadResult(d) == Ok(Some(d[PRIMARY].state))
    ensures !(PRIMARY in d && Usable(d[PRIMARY])) && RESTORED in d && Usable(d[RESTORED])
            ==> LoadResult(d) == Ok(Some(d[RESTORED].state))
    ensures LoadResult(d) == Ok(None) <==> PRIMARY !in d && RESTORED !in d
    ensures LoadResult(d).Err? <==> && (PRIMARY in d || RESTORED in d) && (PRIMARY in d ==> !Usable(d[PRIMARY]))
                                    && (RESTORED in d ==> !Usable(d[RESTORED]))
  {
  }

  /** Some listed entry of this name is old and is named like a temporary file. */
  predicate Swept(entries: seq<Entry>, name: string) {
    && "checkpoint.json." <= name && |name| >= 4 && name[|name| - 4..] == ".tmp"
    && exists i :: 0 <= i < |entries| && entries[i].name == name && entries[i].stale
  }

  /** A sweep removes exactly those, and changes nothing else. */
  lemma {:induction false} SweepIsExact(d: Disk, entries: seq<Entry>)
    ensures ApplyAll(d, SweepOps(entries)) == map name | name in d && !Swept(entries, name) :: d[name]
    decreases |entries|
  {
    if entries == [] {
      assert d == map name | name in d && !Swept(entries, name) :: d[name];
    } else {
      var e, rest := entries[0], entries[1..];
      forall name ensures Swept(entries, name) <==> Swept(rest, name) || (name == e.name && e.stale && IsTmp(name)) {
        SweptCons(entries, name);
      }
      if IsTmp(e.name) && e.stale {
        SweepIsExact(d - {e.name}, rest);
        assert ([Remove(e.name)] + SweepOps(rest))[1..] == SweepOps(rest);
      } else {
        SweepIsExact(d, rest);
        assert SweepOps(entries) == SweepOps(rest);
      }
    }
  }

  lemma SweptCons(entries: seq<Entry>, name: string)
    requires entries != []
    ensures Swept(entries, name)
       <==> Swept(entries[1..], name) || (name == entries[0].name && entries[0].stale && IsTmp(name))
  {
    var rest := entries[1..];
    assert IsTmp(name) <==> "checkpoint.json." <= name && |name| >= 4 && name[|name| - 4..] == ".tmp";
    if i :| 0 <= i < |rest| && rest[i].name == name && rest[i].stale {
      assert entries[i + 1] == rest[i];
    }
    if i :| 0 <= i < |entries| && entries[i].name == name && entries[i].stale {
      assert i == 0 || rest[i - 1] == entries[i];
    }
  }

  /** What the quarantine comes to. */
  lemma QuarantineMoves(d: Disk)
    ensures var e := ApplyAll(d, QuarantineOps(d));
            var badPrimary := PRIMARY in d && !d[PRIMARY].Readable();
            var badRestored := RESTORED in d && !d[RESTORED].Readable() && (PRIMARY !in d || badPrimary);
            var d1 := if badPrimary then Apply(d, Rename(PRIMARY, Corrupt(PRIMARY))) else d;
            e == if badRestored then Apply(d1, Rename(RESTORED, Corrupt(RESTORED))) else d1
  {
    var p, r := Rename(PRIMARY, Corrupt(PRIMARY)), Rename(RESTORED, Corrupt(RESTORED));
    ApplyOne(d, p);
    ApplyOne(d, r);
    ApplyTwo(d, p, r);
    assert [p] + [] == [p] && [p] + [r] == [p, r];
  }

  /** What a load leaves of the two copies: the readable ones it may still need. */
  lemma AfterLoad(d: Disk, entries: seq<Entry>)
    ensures var e := ApplyAll(d, LoadOps(d, entries));
            && (PRIMARY in e <==> PRIMARY in d && d[PRIMARY].Readable())
            && (PRIMARY in e ==> e[PRIMARY] == d[PRIMARY])
            && (RESTORED in e ==> RESTORED in d && e[RESTORED] == d[RESTORED])
            && (RESTORED in d && d[RESTORED].Readable() ==> RESTORED in e)
            && (PRIMARY !in e && RESTORED in e ==> e[RESTORED].Readable())
  {
    var swept := ApplyAll(d, SweepOps(entries));
    SweepKeepsCopies(d, entries);
    ApplyAppend(d, SweepOps(entries), QuarantineOps(swept));
    NamesDiffer();
    QuarantineMoves(swept);
  }

  /** What cannot be used is put aside under its own name with its bytes, and is out of the way. */
  lemma UnusableIsKeptAside(d: Disk, entries: seq<Entry>)
    ensures var e := ApplyAll(d, LoadOps(d, entries));
            && (PRIMARY in d && !Usable(d[PRIMARY]) ==>
                  PRIMARY !in e && "checkpoint.json.corrupt" in e && e["checkpoint.json.corrupt"] == d[PRIMARY])
            && (RESTORED in d && !Usable(d[RESTORED]) && !(PRIMARY in d && Usable(d[PRIMARY])) ==>
                  && RESTORED !in e && "checkpoint.json.restored.corrupt" in e
                  && e["checkpoint.json.restored.corrupt"] == d[RESTORED])
  {
    var swept := ApplyAll(d, SweepOps(entries));
    SweepKeepsCopies(d, entries);
    ApplyAppend(d, SweepOps(entries), QuarantineOps(swept));
    NamesDiffer();
    QuarantineMoves(swept);
    assert Corrupt(PRIMARY) == "checkpoint.json.corrupt" && Corrupt(RESTORED) == "checkpoint.json.restored.corrupt";
  }

  /** Loading again gives the same checkpoint, and never fails twice: after a failure it starts fresh. */
  lemma LoadAgain(d: Disk, first: seq<Entry>)
    ensures LoadResult(ApplyAll(d, LoadOps(d, first)))
         == if LoadResult(d).Ok? then LoadResult(d) else Ok(None)
  {
    AfterLoad(d, first);
  }

  /** A spoilt primary does not cost the other copy: it is loaded, and survives setting aside. */
  lemma SpoiltPrimaryKeepsRestored(d: Disk, first: seq<Entry>, second: seq<Entry>)
    requires PRIMARY in d && !d[PRIMARY].Readable() && RESTORED in d && d[RESTORED].Readable()
    ensures LoadResult(d) == Ok(Some(d[RESTORED].state))
    ensures LoadResult(ApplyAll(d, BootOps(d, first, second))) == Ok(Some(d[RESTORED].state))
  {
    BootKeepsResult(d, first, second);
  }

  /** A whole boot leaves a directory that loads what the boot loaded. */
  lemma BootKeepsResult(d: Disk, first: seq<Entry>, second: seq<Entry>)
    requires LoadResult(d).Ok?
    ensures LoadResult(ApplyAll(d, BootOps(d, first, second))) == LoadResult(d)
  {
    var peek := LoadOps(d, first);
    var d1 := ApplyAll(d, peek);
    var load := LoadOps(d1, second);
    var d2 := ApplyAll(d1, load);
    LoadAgain(d, first);
    LoadAgain(d1, second);
    AfterLoad(d, first);
    AfterLoad(d1, second);
    ApplyAppend(d, peek, load);
    NamesDiffer();
    if LoadResult(d).value.Some? {
      ApplyAppend(d, peek + load, MARK_RESTORED_OPS);
      ApplyOne(d2, Rename(PRIMARY, RESTORED));
    } else {
      assert BootOps(d, first, second) == peek + load + [] == peek + load;
    }
  }

  // ----- runs with crashes -----

  /** A call performs its first `done` operations; fewer than all of them means it crashed there. */
  datatype Step =
    | Save(pid: string, nanos: string, state: State, done: nat)
    | Boot(first: seq<Entry>, second: seq<Entry>, done: nat)

  function StepOps(d: Disk, step: Step): seq<FileOp> {
    match step
    case Save(pid, nanos, state, _) => SaveOps(TmpName(pid, nanos), state)
    case Boot(first, second, _) => BootOps(d, first, second)
  }

  function Do(d: Disk, step: Step): Disk {
    var ops := StepOps(d, step);
    ApplyAll(d, ops[..Min(step.done, |ops|)])
  }

  function After(d: Disk, steps: seq<Step>): Disk
    decreases |steps|
  {
    if steps == [] then d else After(Do(d, steps[0]), steps[1..])
  }

  /** The states whose save got as far as its rename, oldest first. */
  function Durable(steps: seq<Step>): seq<State> {
    if steps == [] then []
    else Durable(steps[..|steps| - 1]) + Renamed(steps[|steps| - 1])
  }

  function Renamed(step: Step): seq<State> {
    if step.Save? && step.done >= RENAME_DONE then [step.state] else []
  }

  function Last(saves: seq<State>): Option<State> {
    if saves == [] then None else Some(saves[|saves| - 1])
  }

  /**
   The directory holds the last of `saves`: in the primary, or in the other copy when there is no
   primary. Whatever the other copy is, it was saved once.
   */
  ghost predicate Holds(d: Disk, saves: seq<State>) {
    && (saves == [] ==> PRIMARY !in d && RESTORED !in d)
    && (saves != [] ==> (PRIMARY in d || RESTORED in d) && InUse(d) == Saved(FORMAT_VERSION, Last(saves).value))
    && (RESTORED in d ==> exists x :: x in saves && d[RESTORED] == Saved(FORMAT_VERSION, x))
  }

  function InUse(d: Disk): Content
    requires PRIMARY in d || RESTORED in d
  {
    if PRIMARY in d then d[PRIMARY] else d[RESTORED]
  }

  lemma TmpIsTmp(pid: string, nanos: string)
    ensures IsTmp(TmpName(pid, nanos)) && TmpName(pid, nanos) != PRIMARY && TmpName(pid, nanos) != RESTORED
  {
    var name := TmpName(pid, nanos);
    var middle := pid + "." + nanos;
    assert name == (PRIMARY + ".") + (middle + ".tmp");
    assert name == (PRIMARY + "." + middle) + ".tmp";
    NamesDiffer();
  }

  /** Working on the temporary file leaves both copies alone. */
  lemma TmpOpHolds(d: Disk, op: FileOp, tmp: string, saves: seq<State>)
    requires Holds(d, saves) && tmp != PRIMARY && tmp != RESTORED
    requires op == Remove(tmp) || (op.Write? && op.name == tmp)
    ensures Holds(Apply(d, op), saves)
  {
    SameCopiesHold(d, Apply(d, op), saves);
  }

  lemma RenameHolds(d: Disk, tmp: string, state: State, saves: seq<State>)
    requires Holds(d, saves) && tmp != PRIMARY && tmp != RESTORED
    requires tmp in d && d[tmp] == Saved(FORMAT_VERSION, state)
    ensures Holds(Apply(d, Rename(tmp, PRIMARY)), saves + [state])
    ensures PRIMARY in Apply(d, Rename(tmp, PRIMARY))
  {
    NamesDiffer();
    var e := Apply(d, Rename(tmp, PRIMARY));
    if RESTORED in e {
      var x :| x in saves && d[RESTORED] == Saved(FORMAT_VERSION, x);
      assert x in saves + [state];
    }
  }

  lemma RemoveRestoredHolds(d: Disk, saves: seq<State>)
    requires Holds(d, saves) && PRIMARY in d
    ensures Holds(Apply(d, Remove(RESTORED)), saves)
  {
    NamesDiffer();
  }

  /** A save keeps the last durable state until its rename, and makes its own state the last one then. */
  lemma SaveHolds(d: Disk, tmp: string, state: State, done: nat, saves: seq<State>)
    requires Holds(d, saves) && tmp != PRIMARY && tmp != RESTORED && done <= 5
    ensures Holds(ApplyAll(d, SaveOps(tmp, state)[..done]), if done >= RENAME_DONE then saves + [state] else saves)
  {
    var ops := SaveOps(tmp, state);
    var d1 := Apply(d, ops[0]);
    var d2 := Apply(d1, ops[1]);
    var d3 := Apply(d2, ops[2]);
    var d4 := Apply(d3, ops[3]);
    TmpOpHolds(d, ops[0], tmp, saves);
    TmpOpHolds(d1, ops[1], tmp, saves);
    TmpOpHolds(d2, ops[2], tmp, saves);
    RenameHolds(d3, tmp, state, saves);
    RemoveRestoredHolds(d4, saves + [state]);
    PrefixesOfSave(d, ops);
  }

  /** What a whole save leaves: the new state as the only copy, and no temporary file. */
  lemma SaveLeaves(d: Disk, tmp: string, state: State)
    requires tmp != PRIMARY && tmp != RESTORED
    ensures var e := ApplyAll(d, SaveOps(tmp, state));
            && PRIMARY in e && e[PRIMARY] == Saved(4, state) && RESTORED !in e && tmp !in e
            && forall name :: name != PRIMARY && name != RESTORED && name != tmp ==>
                 (name in e <==> name in d) && (name in e ==> e[name] == d[name])
  {
    var ops := SaveOps(tmp, state);
    PrefixesOfSave(d, ops);
    assert ops[..5] == ops;
    NamesDiffer();
  }

  /** Applying the first operations of a list of five, written out. */
  lemma PrefixesOfSave(d: Disk, ops: seq<FileOp>)
    requires |ops| == 5
    ensures ApplyAll(d, ops[..0]) == d && ApplyAll(d, ops[..1]) == Apply(d, ops[0])
    ensures ApplyAll(d, ops[..2]) == Apply(Apply(d, ops[0]), ops[1])
    ensures ApplyAll(d, ops[..3]) == Apply(Apply(Apply(d, ops[0]), ops[1]), ops[2])
    ensures ApplyAll(d, ops[..4]) == Apply(Apply(Apply(Apply(d, ops[0]), ops[1]), ops[2]), ops[3])
    ensures ApplyAll(d, ops[..5]) == Apply(Apply(Apply(Apply(Apply(d, ops[0]), ops[1]), ops[2]), ops[3]), ops[4])
  {
    ApplyPrefix(d, ops, 0);
    ApplyPrefix(d, ops, 1);
    ApplyPrefix(d, ops, 2);
    ApplyPrefix(d, ops, 3);
    ApplyPrefix(d, ops, 4);
  }

  lemma ApplyPrefix(d: Disk, ops: seq<FileOp>, n: nat)
    requires n < |ops|
    ensures ApplyAll(d, ops[..n + 1]) == Apply(ApplyAll(d, ops[..n]), ops[n])
  {
    assert ops[..n + 1] == ops[..n] + [ops[n]];
    ApplyAppend(d, ops[..n], [ops[n]]);
    ApplyOne(ApplyAll(d, ops[..n]), ops[n]);
  }

  /** A prefix of a sweep is a sweep of a prefix of the listing. */
  lemma {:induction false} SweepPrefix(entries: seq<Entry>, n: nat) returns (k: nat)
    requires n <= |SweepOps(entries)|
    ensures k <= |entries| && SweepOps(entries)[..n] == SweepOps(entries[..k])
    decreases |entries|
  {
    if n == 0 {
      k := 0;
    } else {
      var e := entries[0];
      var head := if IsTmp(e.name) && e.stale then 1 else 0;
      var j := SweepPrefix(entries[1..], n - head);
      k := j + 1;
      assert entries[..k][1..] == entries[1..][..j];
    }
  }

  /** A directory with the same two copies holds the same. */
  lemma SameCopiesHold(d: Disk, e: Disk, saves: seq<State>)
    requires Holds(d, saves) && SameCopies(d, e)
    ensures Holds(e, saves)
  {
  }

  /** While the directory holds a save, a load quarantines nothing and so only sweeps. */
  lemma HoldingLoadOnlySweeps(d: Disk, entries: seq<Entry>, saves: seq<State>)
    requires Holds(d, saves)
    ensures LoadOps(d, entries) == SweepOps(entries)
    ensures Holds(ApplyAll(d, SweepOps(entries)), saves)
  {
    SweepKeepsCopies(d, entries);
    SameCopiesHold(d, ApplyAll(d, SweepOps(entries)), saves);
    assert SweepOps(entries) + [] == SweepOps(entries);
  }

  lemma SweepPrefixKeepsCopies(d: Disk, entries: seq<Entry>, n: nat)
    requires n <= |SweepOps(entries)|
    ensures SameCopies(d, ApplyAll(d, SweepOps(entries)[..n]))
  {
    var k := SweepPrefix(entries, n);
    SweepKeepsCopies(d, entries[..k]);
  }

  lemma MarkHolds(d: Disk, saves: seq<State>)
    requires Holds(d, saves)
    ensures Holds(ApplyAll(d, MARK_RESTORED_OPS), saves)
  {
    ApplyOne(d, Rename(PRIMARY, RESTORED));
    NamesDiffer();
    if PRIMARY in d {
      assert Last(saves).value in saves;
    }
  }

  /** `e` is what setting the checkpoint aside makes of the copies in `d`. */
  ghost predicate SetAside(d: Disk, e: Disk) {
    exists m :: SameCopies(d, m) && e == ApplyAll(m, MARK_RESTORED_OPS)
  }

  /** While the directory holds a save, a boot is two sweeps and, if there is a primary or copy, a mark. */
  lemma HoldingBoot(d: Disk, first: seq<Entry>, second: seq<Entry>, saves: seq<State>)
    requires Holds(d, saves)
    ensures BootOps(d, first, second)
         == SweepOps(first) + SweepOps(second) + if PRIMARY in d || RESTORED in d then MARK_RESTORED_OPS else []
  {
    var d1 := ApplyAll(d, SweepOps(first));
    HoldingLoadOnlySweeps(d, first, saves);
    HoldingLoadOnlySweeps(d1, second, saves);
    SweepKeepsCopies(d, first);
  }

  /** Any prefix of a boot leaves both copies alone, or has set the primary aside; a whole boot has. */
  lemma BootPrefix(d: Disk, first: seq<Entry>, second: seq<Entry>, done: nat, saves: seq<State>)
    requires Holds(d, saves) && done <= |BootOps(d, first, second)|
    ensures var ops := BootOps(d, first, second);
            var e := ApplyAll(d, ops[..done]);
            && (SameCopies(d, e) || SetAside(d, e))
            && (done == |ops| ==> PRIMARY !in e)
  {
    var ops := BootOps(d, first, second);
    var a, b := SweepOps(first), SweepOps(second);
    var d1 := ApplyAll(d, a);
    HoldingBoot(d, first, second, saves);
    SweepKeepsCopies(d, first);
    if done <= |a| {
      assert ops[..done] == a[..done];
      SweepPrefixKeepsCopies(d, first, done);
    } else if done <= |a| + |b| {
      assert ops[..done] == a + b[..done - |a|];
      ApplyAppend(d, a, b[..done - |a|]);
      SweepPrefixKeepsCopies(d1, second, done - |a|);
    } else {
      assert ops[..done] == (a + b) + MARK_RESTORED_OPS;
      BootMarks(d, d1, a, b);
      SweepKeepsCopies(d1, second);
    }
  }

  lemma BootMarks(d: Disk, d1: Disk, a: seq<FileOp>, b: seq<FileOp>)
    requires d1 == ApplyAll(d, a)
    ensures ApplyAll(d, (a + b) + MARK_RESTORED_OPS) == ApplyAll(ApplyAll(d1, b), MARK_RESTORED_OPS)
    ensures PRIMARY !in ApplyAll(d, (a + b) + MARK_RESTORED_OPS)
  {
    ApplyAppend(d, a, b);
    ApplyAppend(d, a + b, MARK_RESTORED_OPS);
    ApplyOne(ApplyAll(d1, b), Rename(PRIMARY, RESTORED));
    NamesDiffer();
  }

  /** Any prefix of a boot keeps the last durable state. */
  lemma BootHolds(d: Disk, first: seq<Entry>, second: seq<Entry>, done: nat, saves: seq<State>)
    requires Holds(d, saves) && done <= |BootOps(d, first, second)|
    ensures Holds(ApplyAll(d, BootOps(d, first, second)[..done]), saves)
  {
    var e := ApplyAll(d, BootOps(d, first, second)[..done]);
    BootPrefix(d, first, second, done, saves);
    if SameCopies(d, e) {
      SameCopiesHold(d, e, saves);
    } else {
      var m :| SameCopies(d, m) && e == ApplyAll(m, MARK_RESTORED_OPS);
      SameCopiesHold(d, m, saves);
      MarkHolds(m, saves);
    }
  }

  lemma StepHolds(d: Disk, step: Step, saves: seq<State>)
    requires Holds(d, saves)
    ensures Holds(Do(d, step), saves + Renamed(step))
  {
    assert saves + [] == saves;
    match step
    case Save(pid, nanos, state, done) =>
      TmpIsTmp(pid, nanos);
      SaveHolds(d, TmpName(pid, nanos), state, Min(done, 5), saves);
    case Boot(first, second, done) =>
      BootHolds(d, first, second, Min(done, |BootOps(d, first, second)|), saves);
  }

  lemma {:induction false} RunSnoc(d: Disk, steps: seq<Step>, last: Step)
    ensures After(d, steps + [last]) == Do(After(d, steps), last)
    decreases |steps|
  {
    if steps == [] {
      assert After(d, [last]) == After(Do(d, last), [last][1..]);
    } else {
      var first, rest := steps[0], steps[1..];
      assert steps + [last] == [first] + (rest + [last]) && (steps + [last])[1..] == rest + [last];
      RunSnoc(Do(d, first), rest, last);
    }
  }

  lemma {:induction false} RunHolds(d: Disk, steps: seq<Step>)
    requires PRIMARY !in d && RESTORED !in d
    ensures Holds(After(d, steps), Durable(steps))
    decreases |steps|
  {
    if steps != [] {
      var n := |steps| - 1;
      assert steps == steps[..n] + [steps[n]];
      RunHolds(d, steps[..n]);
      RunSnoc(d, steps[..n], steps[n]);
      StepHolds(After(d, steps[..n]), steps[n], Durable(steps[..n]));
    }
  }

  /**
   Durability over every run of saves and boots with a crash after any file operation: a load returns
   the state of the last save whose rename took effect, never an older one and never none.
   */
  lemma LoadReturnsLastDurable(d: Disk, steps: seq<Step>)
    requires PRIMARY !in d && RESTORED !in d
    ensures LoadResult(After(d, steps)) == Ok(Last(Durable(steps)))
  {
    RunHolds(d, steps);
  }

  // ----- what a spoilt copy costs -----

  /** After these steps a process is up: the last one was not cut short. */
  predicate Up(d: Disk, steps: seq<Step>) {
    && steps != []
    && var last := steps[|steps| - 1];
       last.done >= |StepOps(After(d, steps[..|steps| - 1]), last)|
  }

  /** Only a process that is up saves, so a crash is always followed by a boot. */
  predicate Orderly(d: Disk, steps: seq<Step>) {
    steps != [] ==>
      var front := steps[..|steps| - 1];
      Orderly(d, front) && (steps[|steps| - 1].Save? ==> Up(d, front))
  }

  /** Where there are two copies, the second is the save just before the last one. */
  ghost predicate OneBehind(d: Disk, saves: seq<State>) {
    PRIMARY in d && RESTORED in d ==>
      |saves| >= 2 && d[RESTORED] == Saved(FORMAT_VERSION, saves[|saves| - 2])
  }

  predicate OneCopy(d: Disk) {
    !(PRIMARY in d && RESTORED in d)
  }

  /** The rename leaves the save before in the second copy, if there is one. */
  lemma RenameOneBehind(d: Disk, tmp: string, state: State, saves: seq<State>)
    requires Holds(d, saves) && OneCopy(d) && tmp != PRIMARY && tmp != RESTORED && tmp in d
    ensures OneBehind(Apply(d, Rename(tmp, PRIMARY)), saves + [state])
  {
    NamesDiffer();
  }

  lemma TmpOpKeepsCopies(d: Disk, op: FileOp, tmp: string)
    requires tmp != PRIMARY && tmp != RESTORED && (op == Remove(tmp) || (op.Write? && op.name == tmp))
    ensures SameCopies(d, Apply(d, op))
  {
  }

  lemma SaveOneBehind(d: Disk, tmp: string, state: State, done: nat, saves: seq<State>)
    requires Holds(d, saves) && OneCopy(d) && tmp != PRIMARY && tmp != RESTORED && done <= 5
    ensures var e := ApplyAll(d, SaveOps(tmp, state)[..done]);
            && OneBehind(e, if done >= RENAME_DONE then saves + [state] else saves)
            && (done == 5 ==> OneCopy(e))
  {
    var ops := SaveOps(tmp, state);
    var d1 := Apply(d, ops[0]);
    var d2 := Apply(d1, ops[1]);
    var d3 := Apply(d2, ops[2]);
    TmpOpKeepsCopies(d, ops[0], tmp);
    TmpOpKeepsCopies(d1, ops[1], tmp);
    TmpOpKeepsCopies(d2, ops[2], tmp);
    SameCopiesHold(d, d3, saves);
    RenameOneBehind(d3, tmp, state, saves);
    PrefixesOfSave(d, ops);
  }

  lemma BootOneBehind(d: Disk, first: seq<Entry>, second: seq<Entry>, done: nat, saves: seq<State>)
    requires Holds(d, saves) && OneBehind(d, saves) && done <= |BootOps(d, first, second)|
    ensures var e := ApplyAll(d, BootOps(d, first, second)[..done]);
            && OneBehind(e, saves)
            && (done == |BootOps(d, first, second)| ==> OneCopy(e))
  {
    var e := ApplyAll(d, BootOps(d, first, second)[..done]);
    BootPrefix(d, first, second, done, saves);
    if !SameCopies(d, e) {
      var m :| SameCopies(d, m) && e == ApplyAll(m, MARK_RESTORED_OPS);
      ApplyOne(m, Rename(PRIMARY, RESTORED));
      NamesDiffer();
    }
  }

  lemma StepOneBehind(d: Disk, step: Step, saves: seq<State>)
    requires Holds(d, saves) && OneBehind(d, saves) && (step.Save? ==> OneCopy(d))
    ensures OneBehind(Do(d, step), saves + Renamed(step))
    ensures step.done >= |StepOps(d, step)| ==> OneCopy(Do(d, step))
  {
    assert saves + [] == saves;
    match step
    case Save(pid, nanos, state, done) =>
      TmpIsTmp(pid, nanos);
      SaveOneBehind(d, TmpName(pid, nanos), state, Min(done, 5), saves);
    case Boot(first, second, done) =>
      BootOneBehind(d, first, second, Min(done, |BootOps(d, first, second)|), saves);
  }

  /** Over every orderly run the second copy is one save behind, and a running process keeps only one. */
  lemma {:induction false} RunOneBehind(d: Disk, steps: seq<Step>)
    requires PRIMARY !in d && RESTORED !in d && Orderly(d, steps)
    ensures OneBehind(After(d, steps), Durable(steps))
    ensures Up(d, steps) ==> OneCopy(After(d, steps))
    decreases |steps|
  {
    if steps != [] {
      var n := |steps| - 1;
      assert steps == steps[..n] + [steps[n]];
      RunHolds(d, steps[..n]);
      RunOneBehind(d, steps[..n]);
      RunSnoc(d, steps[..n], steps[n]);
      StepOneBehind(After(d, steps[..n]), steps[n], Durable(steps[..n]));
    }
  }

  /** What is loaded from `e` once its primary is spoilt, and what that costs of `saves`. */
  ghost predicate FallsBack(e: Disk, saves: seq<State>, junk: Content) {
    var r := LoadResult(e[PRIMARY := junk]);
    if RESTORED !in e then r == Err("unreadable checkpoint")
    else if PRIMARY !in e then r == Ok(Last(saves))
    else |saves| >= 2 && r == Ok(Some(saves[|saves| - 2]))
  }

  lemma SpoiltLoad(e: Disk, saves: seq<State>, junk: Content)
    requires Holds(e, saves) && OneBehind(e, saves) && !junk.Readable()
    ensures FallsBack(e, saves, junk)
  {
    NamesDiffer();
    LoadUsesAValidCopy(e[PRIMARY := junk]);
  }

  /**
   Over every orderly run with a crash after any file operation, exactly what a primary spoilt from
   outside costs: the last save when there is a second copy beside it, and then the save before it is
   loaded; nothing when the second copy is all there was; and everything only without a second copy.
   */
  lemma SpoiltPrimaryFallsBack(d: Disk, steps: seq<Step>, junk: Content)
    requires PRIMARY !in d && RESTORED !in d && Orderly(d, steps) && !junk.Readable()
    ensures FallsBack(After(d, steps), Durable(steps), junk)
  {
    RunHolds(d, steps);
    RunOneBehind(d, steps);
    SpoiltLoad(After(d, steps), Durable(steps), junk);
  }

  /** A spoilt second copy costs nothing while the primary is there. */
  lemma SpoiltRestoredCostsNothing(d: Disk, steps: seq<Step>, junk: Content)
    requires PRIMARY !in d && RESTORED !in d && !junk.Readable() && PRIMARY in After(d, steps)
    ensures LoadResult(After(d, steps)[RESTORED := junk]) == Ok(Last(Durable(steps)))
  {
    NamesDiffer();
    RunHolds(d, steps);
  }
}
