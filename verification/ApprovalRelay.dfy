/**
 The Telegram approval bridge (docker/telegram_mcp.py): what it sends, re-reads, posts and stores, as
 single effects that a crash can separate, against an environment that changes the pending list.
 */
module ApprovalRelay {
  import opened Common

  /** A pending approval as the management API lists it; an entry without an id has the empty id. */
  datatype Approval = Approval(id: string, args: string)

  datatype Verb = Approve | Deny

  /** What the outside world saw, in order. */
  datatype Event =
    | Started
    | Sent(id: string, digest: string)
    | Read(pending: seq<Approval>)
    | Posted(verb: Verb, id: string, digest: string, ok: bool)
    | Processed(uid: int)

  datatype Saved = Saved(offset: int, delivered: map<string, string>)

  /** The module state. `busy` is the update being processed, `owed` an id posted but not yet unbound. */
  datatype Memory = Memory(offset: int, delivered: map<string, string>, writable: bool,
                           busy: Option<int>, owed: Option<string>)

  /** A successful store: how much the outside world had seen then, and the offset stored. */
  datatype Store = Store(at: nat, offset: int)

  datatype World = World(mem: Option<Memory>, file: Option<Saved>, log: seq<Event>, stores: seq<Store>)

  /** The first pending entry with this id. */
  function FirstMatch(pending: seq<Approval>, id: string): Option<Approval> {
    if pending == [] then None
    else if pending[0].id == id then Some(pending[0])
    else FirstMatch(pending[1..], id)
  }

  /** Entry `i` is the first one with this id. */
  predicate IsFirst(pending: seq<Approval>, i: int, id: string) {
    0 <= i < |pending| && pending[i].id == id && forall j :: 0 <= j < i ==> pending[j].id != id
  }

  lemma {:induction false} FirstMatchIff(pending: seq<Approval>, id: string)
    ensures FirstMatch(pending, id).None? <==> forall i :: 0 <= i < |pending| ==> pending[i].id != id
    ensures FirstMatch(pending, id).Some? ==>
              exists i :: IsFirst(pending, i, id) && pending[i] == FirstMatch(pending, id).value
  {
    if pending != [] {
      if pending[0].id == id {
        assert IsFirst(pending, 0, id);
      } else {
        var rest := pending[1..];
        FirstMatchIff(rest, id);
        if FirstMatch(rest, id).Some? {
          var i :| IsFirst(rest, i, id) && rest[i] == FirstMatch(rest, id).value;
          assert IsFirst(pending, i + 1, id);
        }
        assert forall i :: 1 <= i < |pending| ==> pending[i] == rest[i - 1];
      }
    }
  }

  // ----- atomic effects -----

  datatype Action =
    | Deliver(approval: Approval)
    | Bind(id: string, digest: string)
    | Unbind(id: string)
    | Persist(ok: bool)
    | Reread(pending: seq<Approval>)
    | Post(verb: Verb, id: string, ok: bool)
    | Begin(uid: int)
    | Advance

  datatype Step = Start | Kill | Act(action: Action)

  predicate LastIs(log: seq<Event>, e: Event) {
    log != [] && log[|log| - 1] == e
  }

  /** The last thing done was a re-read in which `id` is pending with the bound digest. */
  predicate Verified(sha: string -> string, log: seq<Event>, delivered: map<string, string>, id: string) {
    && log != [] && log[|log| - 1].Read? && id in delivered
    && FirstMatch(log[|log| - 1].pending, id).Some?
    && sha(FirstMatch(log[|log| - 1].pending, id).value.args) == delivered[id]
  }

  /** What the code guarantees where it performs each effect; `sha` is the digest it uses. */
  predicate Allowed(sha: string -> string, log: seq<Event>, m: Memory, a: Action) {
    match a
    case Deliver(approval) => approval.id != ""
    case Bind(id, digest) => LastIs(log, Sent(id, digest))
    case Unbind(_) => true
    case Persist(_) => m.owed.None?
    case Reread(_) => true
    case Post(_, id, _) => m.owed.None? && Verified(sha, log, m.delivered, id)
    case Begin(uid) => m.busy.None? && m.offset <= uid
    case Advance => m.busy.Some?
  }

  predicate Enabled(sha: string -> string, w: World, step: Step) {
    match step
    case Start => w.mem.None?
    case Kill => true
    case Act(a) => w.mem.Some? && Allowed(sha, w.log, w.mem.value, a)
  }

  function Noted(sha: string -> string, log: seq<Event>, m: Memory, a: Action): seq<Event>
    requires Allowed(sha, log, m, a)
  {
    match a
    case Deliver(approval) => log + [Sent(approval.id, sha(approval.args))]
    case Reread(pending) => log + [Read(pending)]
    case Post(verb, id, ok) => log + [Posted(verb, id, m.delivered[id], ok)]
    case Begin(uid) => log + [Processed(uid)]
    case _ => log
  }

  function Remembered(sha: string -> string, log: seq<Event>, m: Memory, a: Action): Memory
    requires Allowed(sha, log, m, a)
  {
    match a
    case Bind(id, digest) => m.(delivered := m.delivered[id := digest])
    case Unbind(id) => m.(delivered := m.delivered - {id}, owed := if m.owed == Some(id) then None else m.owed)
    case Persist(ok) => if m.writable && !ok then m.(writable := false) else m
    case Post(_, id, ok) => m.(owed := if ok then Some(id) else None)
    case Begin(uid) => m.(busy := Some(uid))
    case Advance => m.(offset := m.busy.value + 1, busy := None)
    case _ => m
  }

  function Booted(file: Option<Saved>): Memory {
    var s := if file.Some? then file.value else Saved(0, map[]);
    Memory(s.offset, s.delivered, true, None, None)
  }

  function Do(sha: string -> string, w: World, step: Step): World
    requires Enabled(sha, w, step)
  {
    match step
    case Start => World(Some(Booted(w.file)), w.file, w.log + [Started], w.stores)
    case Kill => w.(mem := None)
    case Act(a) =>
      var m := w.mem.value;
      var stored := a == Persist(true) && m.writable;
      World(Some(Remembered(sha, w.log, m, a)),
            if stored then Some(Saved(m.offset, m.delivered)) else w.file,
            Noted(sha, w.log, m, a),
            if stored then w.stores + [Store(|w.log|, m.offset)] else w.stores)
  }

  ghost predicate Legal(sha: string -> string, w: World, steps: seq<Step>)
    decreases |steps|
  {
    steps == [] || (Enabled(sha, w, steps[0]) && Legal(sha, Do(sha, w, steps[0]), steps[1..]))
  }

  ghost function After(sha: string -> string, w: World, steps: seq<Step>): World
    requires Legal(sha, w, steps)
    decreases |steps|
  {
    if steps == [] then w else After(sha, Do(sha, w, steps[0]), steps[1..])
  }

  lemma {:induction false} RunAppend(sha: string -> string, w: World, a: seq<Step>, b: seq<Step>)
    requires Legal(sha, w, a) && Legal(sha, After(sha, w, a), b)
    ensures Legal(sha, w, a + b) && After(sha, w, a + b) == After(sha, After(sha, w, a), b)
    decreases |a|
  {
    if a == [] {
      assert a + b == b;
    } else {
      RunAppend(sha, Do(sha, w, a[0]), a[1..], b);
      assert (a + b)[1..] == a[1..] + b;
    }
  }

  lemma {:induction false} RunPrefix(sha: string -> string, w: World, steps: seq<Step>, k: nat)
    requires Legal(sha, w, steps) && k <= |steps|
    ensures Legal(sha, w, steps[..k])
    decreases |steps|
  {
    if k > 0 {
      RunPrefix(sha, Do(sha, w, steps[0]), steps[1..], k - 1);
      assert steps[..k][1..] == steps[1..][..k - 1];
    }
  }

  // ----- safety over every run -----

  ghost predicate WasSent(log: seq<Event>, id: string, digest: string) {
    Sent(id, digest) in log
  }

  /** Every post comes right after a re-read that shows the id with the digest of an earlier message. */
  ghost predicate PostsAreBacked(sha: string -> string, log: seq<Event>) {
    forall k :: 0 <= k < |log| && log[k].Posted? ==>
      && k >= 1 && log[k - 1].Read?
      && FirstMatch(log[k - 1].pending, log[k].id).Some?
      && sha(FirstMatch(log[k - 1].pending, log[k].id).value.args) == log[k].digest
      && WasSent(log[..k - 1], log[k].id, log[k].digest)
  }

  /** No restart between two positions of the log. */
  ghost predicate SameProcess(log: seq<Event>, i: int, j: int)
    requires 0 <= i <= j <= |log|
  {
    Started !in log[i..j]
  }

  /** Within one process the processed update ids strictly increase. */
  ghost predicate UpdatesIncrease(log: seq<Event>) {
    forall i, j :: 0 <= i < j < |log| && log[i].Processed? && log[j].Processed? && SameProcess(log, i, j)
                   ==> log[i].uid < log[j].uid
  }

  /** Within one process, between two accepted posts for an id it was sent to the operator anew. */
  ghost predicate PostsAreFresh(log: seq<Event>) {
    forall i, j :: 0 <= i < j < |log| && log[i].Posted? && log[j].Posted? && log[i].ok && log[i].id == log[j].id
                   && SameProcess(log, i, j)
                   ==> SentBetween(log, i, j, log[i].id)
  }

  ghost predicate SentBetween(log: seq<Event>, i: int, j: int, id: string)
    requires 0 <= i <= j <= |log|
  {
    exists k :: i < k < j && log[k].Sent? && log[k].id == id
  }

  ghost predicate BindingsWereSent(log: seq<Event>, delivered: map<string, string>) {
    forall id :: id in delivered ==> WasSent(log, id, delivered[id])
  }

  ghost predicate MemorySafe(log: seq<Event>, m: Memory) {
    && BindingsWereSent(log, m.delivered)
    && (forall i :: 0 <= i < |log| && log[i].Processed? && SameProcess(log, i, |log|)
                    ==> log[i].uid < m.offset || m.busy == Some(log[i].uid))
    && (m.busy.Some? ==> m.offset <= m.busy.value)
    && (forall i :: 0 <= i < |log| && log[i].Posted? && log[i].ok && SameProcess(log, i, |log|)
                    && log[i].id in m.delivered && m.owed != Some(log[i].id)
                    ==> SentBetween(log, i, |log|, log[i].id))
  }

  ghost predicate Safe(sha: string -> string, w: World) {
    && PostsAreBacked(sha, w.log)
    && UpdatesIncrease(w.log)
    && PostsAreFresh(w.log)
    && (w.mem.Some? ==> MemorySafe(w.log, w.mem.value))
    && (w.file.Some? ==> BindingsWereSent(w.log, w.file.value.delivered))
  }

  /** A longer log keeps what was sent, and its old part is unchanged. */
  lemma LogGrows(log: seq<Event>, e: Event)
    ensures forall id, digest :: WasSent(log, id, digest) ==> WasSent(log + [e], id, digest)
    ensures forall i, j :: 0 <= i <= j <= |log| ==> (log + [e])[i..j] == log[i..j]
    ensures forall i :: 0 <= i <= |log| ==> (log + [e])[i..|log| + 1] == log[i..|log|] + [e]
  {
  }

  /** Recording an event that is neither a post nor a processed update. */
  lemma SafeNote(sha: string -> string, w: World, e: Event)
    requires Safe(sha, w) && (e.Sent? || e.Read?)
    ensures Safe(sha, w.(log := w.log + [e]))
  {
    LogGrows(w.log, e);
    BackedNote(sha, w.log, e);
    if w.mem.Some? {
      MemoryNote(w.log, w.mem.value, e);
    }
    FreshNote(w.log, e);
  }

  lemma MemoryNote(log: seq<Event>, m: Memory, e: Event)
    requires MemorySafe(log, m) && (e.Sent? || e.Read?)
    ensures MemorySafe(log + [e], m)
  {
    var more := log + [e];
    LogGrows(log, e);
    forall i | 0 <= i < |more| && SameProcess(more, i, |more|)
      ensures i < |log| ==> SameProcess(log, i, |log|)
    {
      if i < |log| {
        assert more[i..|more|] == log[i..|log|] + [e];
      }
    }
    forall i | 0 <= i < |more| && more[i].Posted? && more[i].ok && SameProcess(more, i, |more|)
               && more[i].id in m.delivered && m.owed != Some(more[i].id)
      ensures SentBetween(more, i, |more|, more[i].id)
    {
      assert SentBetween(log, i, |log|, log[i].id);
      var k :| i < k < |log| && log[k].Sent? && log[k].id == log[i].id;
      assert more[k] == log[k];
    }
  }

  /** Posts so far stay fresh when the log grows by something that is not a post. */
  lemma FreshNote(log: seq<Event>, e: Event)
    requires PostsAreFresh(log) && UpdatesIncrease(log) && !e.Posted?
    ensures PostsAreFresh(log + [e])
    ensures !e.Processed? ==> UpdatesIncrease(log + [e])
  {
    var more := log + [e];
    LogGrows(log, e);
    forall i, j | 0 <= i < j < |more| && more[i].Posted? && more[j].Posted? && more[i].ok && more[i].id == more[j].id
                  && SameProcess(more, i, j)
      ensures SentBetween(more, i, j, more[i].id)
    {
      assert SameProcess(log, i, j);
      assert SentBetween(log, i, j, log[i].id);
      var k :| i < k < j && log[k].Sent? && log[k].id == log[i].id;
      assert more[k] == log[k];
    }
    if !e.Processed? {
      forall i, j | 0 <= i < j < |more| && more[i].Processed? && more[j].Processed? && SameProcess(more, i, j)
        ensures more[i].uid < more[j].uid
      {
        assert SameProcess(log, i, j);
      }
    }
  }

  lemma BindIsSafe(log: seq<Event>, m: Memory, id: string, digest: string)
    requires MemorySafe(log, m) && LastIs(log, Sent(id, digest))
    ensures MemorySafe(log, m.(delivered := m.delivered[id := digest]))
  {
    var n := |log| - 1;
    assert log[n] in log;
    forall i | 0 <= i < |log| && log[i].Posted? && log[i].id == id ensures SentBetween(log, i, |log|, id) {
      assert i < n < |log| && log[n].Sent?;
    }
  }

  /** A verified post is backed by the re-read before it and by the message that made the binding. */
  lemma PostIsBacked(sha: string -> string, log: seq<Event>, m: Memory, verb: Verb, id: string, ok: bool)
    requires PostsAreBacked(sha, log) && MemorySafe(log, m) && Verified(sha, log, m.delivered, id)
    ensures PostsAreBacked(sha, log + [Posted(verb, id, m.delivered[id], ok)])
  {
    var more := log + [Posted(verb, id, m.delivered[id], ok)];
    var n := |log|;
    forall k | 0 <= k < |more| && more[k].Posted?
      ensures && k >= 1 && more[k - 1].Read?
              && FirstMatch(more[k - 1].pending, more[k].id).Some?
              && sha(FirstMatch(more[k - 1].pending, more[k].id).value.args) == more[k].digest
              && WasSent(more[..k - 1], more[k].id, more[k].digest)
    {
      if k == n {
        assert WasSent(log, id, m.delivered[id]);
        var i :| 0 <= i < n && log[i] == Sent(id, m.delivered[id]);
        assert i != n - 1 && more[..k - 1][i] == Sent(id, m.delivered[id]);
      } else {
        assert more[..k - 1] == log[..k - 1];
      }
    }
  }

  lemma PostIsFresh(log: seq<Event>, m: Memory, verb: Verb, id: string, digest: string, ok: bool)
    requires PostsAreFresh(log) && UpdatesIncrease(log) && MemorySafe(log, m)
    requires m.owed.None? && id in m.delivered
    ensures PostsAreFresh(log + [Posted(verb, id, digest, ok)])
    ensures UpdatesIncrease(log + [Posted(verb, id, digest, ok)])
    ensures MemorySafe(log + [Posted(verb, id, digest, ok)], m.(owed := if ok then Some(id) else None))
  {
    var more := log + [Posted(verb, id, digest, ok)];
    LogGrows(log, more[|log|]);
    forall i, j | 0 <= i < j < |more| && more[i].Processed? && more[j].Processed? && SameProcess(more, i, j)
      ensures more[i].uid < more[j].uid
    {
      assert SameProcess(log, i, j);
    }
    forall i | 0 <= i < |log| && SameProcess(more, i, |more|) ensures SameProcess(log, i, |log|) {
      assert more[i..|more|] == log[i..|log|] + [more[|log|]];
    }
    forall i, j | 0 <= i < j < |more| && more[i].Posted? && more[j].Posted? && more[i].ok && more[i].id == more[j].id
                  && SameProcess(more, i, j)
      ensures SentBetween(more, i, j, more[i].id)
    {
      assert SameProcess(log, i, j);
      assert SentBetween(log, i, j, log[i].id);
      SentStays(log, more, i, j, log[i].id);
    }
    var after := m.(owed := if ok then Some(id) else None);
    forall i | 0 <= i < |more| && more[i].Posted? && more[i].ok && SameProcess(more, i, |more|)
               && more[i].id in after.delivered && after.owed != Some(more[i].id)
      ensures SentBetween(more, i, |more|, more[i].id)
    {
      assert SentBetween(log, i, |log|, log[i].id);
      SentStays(log, more, i, |log|, log[i].id);
    }
  }

  lemma SentStays(log: seq<Event>, more: seq<Event>, i: int, j: int, id: string)
    requires 0 <= i <= j <= |log| && log <= more && SentBetween(log, i, j, id)
    ensures SentBetween(more, i, j, id) && SentBetween(more, i, |more|, id)
  {
    var k :| i < k < j && log[k].Sent? && log[k].id == id;
    assert more[k] == log[k];
  }

  lemma BeginIsSafe(log: seq<Event>, m: Memory, uid: int)
    requires PostsAreFresh(log) && UpdatesIncrease(log) && MemorySafe(log, m)
    requires m.busy.None? && m.offset <= uid
    ensures UpdatesIncrease(log + [Processed(uid)])
    ensures MemorySafe(log + [Processed(uid)], m.(busy := Some(uid)))
  {
    var e := Processed(uid);
    var more := log + [e];
    LogGrows(log, e);
    forall i | 0 <= i < |log| && SameProcess(more, i, |more|) ensures SameProcess(log, i, |log|) {
      assert more[i..|more|] == log[i..|log|] + [e];
    }
    forall i, j | 0 <= i < j < |more| && more[i].Processed? && more[j].Processed? && SameProcess(more, i, j)
      ensures more[i].uid < more[j].uid
    {
      assert SameProcess(log, i, j);
    }
    forall i | 0 <= i < |more| && more[i].Posted? && more[i].ok && SameProcess(more, i, |more|)
               && more[i].id in m.delivered && m.owed != Some(more[i].id)
      ensures SentBetween(more, i, |more|, more[i].id)
    {
      assert SentBetween(log, i, |log|, log[i].id);
      SentStays(log, more, i, |log|, log[i].id);
    }
  }

  /** The backing of earlier posts survives any further event that is not a post. */
  lemma BackedNote(sha: string -> string, log: seq<Event>, e: Event)
    requires PostsAreBacked(sha, log) && !e.Posted?
    ensures PostsAreBacked(sha, log + [e])
  {
    var more := log + [e];
    forall k | 0 <= k < |more| && more[k].Posted? ensures more[..k - 1] == log[..k - 1] && k >= 1 {
    }
  }

  /** Forgetting a binding, closing an update, or a failed write. */
  lemma MemoryShrinkIsSafe(log: seq<Event>, m: Memory, id: string)
    requires MemorySafe(log, m)
    ensures MemorySafe(log, m.(delivered := m.delivered - {id}, owed := if m.owed == Some(id) then None else m.owed))
    ensures MemorySafe(log, m.(writable := false))
    ensures m.busy.Some? ==> MemorySafe(log, m.(offset := m.busy.value + 1, busy := None))
  {
  }

  lemma ActKeepsSafe(sha: string -> string, w: World, a: Action)
    requires Safe(sha, w) && Enabled(sha, w, Act(a))
    ensures Safe(sha, Do(sha, w, Act(a)))
  {
    var m := w.mem.value;
    match a
    case Deliver(approval) => SafeNote(sha, w, Sent(approval.id, sha(approval.args)));
    case Reread(pending) => SafeNote(sha, w, Read(pending));
    case Bind(id, digest) => BindIsSafe(w.log, m, id, digest);
    case Unbind(id) => MemoryShrinkIsSafe(w.log, m, id);
    case Persist(ok) => MemoryShrinkIsSafe(w.log, m, "");
    case Advance => MemoryShrinkIsSafe(w.log, m, "");
    case Post(verb, id, ok) =>
      LogGrows(w.log, Posted(verb, id, m.delivered[id], ok));
      PostIsBacked(sha, w.log, m, verb, id, ok);
      PostIsFresh(w.log, m, verb, id, m.delivered[id], ok);
    case Begin(uid) =>
      LogGrows(w.log, Processed(uid));
      BackedNote(sha, w.log, Processed(uid));
      FreshNote(w.log, Processed(uid));
      BeginIsSafe(w.log, m, uid);
  }

  lemma StartKeepsSafe(sha: string -> string, w: World)
    requires Safe(sha, w) && w.mem.None?
    ensures Safe(sha, Do(sha, w, Start))
  {
    var more := w.log + [Started];
    LogGrows(w.log, Started);
    BackedNote(sha, w.log, Started);
    FreshNote(w.log, Started);
    forall i | 0 <= i < |more| ensures !SameProcess(more, i, |more|) {
      assert more[i..|more|][|more| - 1 - i] == Started;
    }
  }

  const FRESH := World(None, None, [], [])

  /** Over every run of effects, kills and restarts, posts are backed and fresh and updates increase. */
  lemma {:induction false} RunsAreSafe(sha: string -> string, w: World, steps: seq<Step>)
    requires Safe(sha, w) && Legal(sha, w, steps)
    ensures Safe(sha, After(sha, w, steps))
    decreases |steps|
  {
    if steps != [] {
      match steps[0] {
        case Start => StartKeepsSafe(sha, w);
        case Kill =>
        case Act(a) => ActKeepsSafe(sha, w, a);
      }
      RunsAreSafe(sha, Do(sha, w, steps[0]), steps[1..]);
    }
  }

  /** A call cut short after any of its effects is a run too, and leaves what the next start may rely on. */
  lemma CrashedCallIsSafe(sha: string -> string, w: World, steps: seq<Step>, k: nat)
    requires Safe(sha, w) && Legal(sha, w, steps) && k <= |steps|
    ensures Legal(sha, w, steps[..k] + [Kill])
    ensures Safe(sha, After(sha, w, steps[..k] + [Kill])) && After(sha, w, steps[..k] + [Kill]).mem.None?
  {
    RunPrefix(sha, w, steps, k);
    assert [Kill][1..] == [];
    RunAppend(sha, w, steps[..k], [Kill]);
    RunsAreSafe(sha, w, steps[..k] + [Kill]);
  }

  /** From a first start on, with any number of crashes and restarts. */
  lemma RelayIsSafe(sha: string -> string, steps: seq<Step>)
    requires Legal(sha, FRESH, steps)
    ensures var log := After(sha, FRESH, steps).log;
            PostsAreBacked(sha, log) && UpdatesIncrease(log) && PostsAreFresh(log)
  {
    RunsAreSafe(sha, FRESH, steps);
  }
}
