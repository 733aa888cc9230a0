/** What a stored state rules out across crashes (docker/telegram_mcp.py, `_persist_state` and its offset). */
module ApprovalDurability {
  import opened Common
  import opened ApprovalRelay

  /**
   The process that made the event at `i` has stored nothing since and up to `j`, or, with a bound,
   no offset beyond that bound.
   */
  ghost predicate Uncovered(log: seq<Event>, stores: seq<Store>, i: int, j: int, bound: Option<int>)
    requires 0 <= i < j <= |log|
  {
    forall k :: 0 <= k < |stores| && i < stores[k].at <= j && SameProcess(log, i, stores[k].at)
                ==> bound.Some? && stores[k].offset <= bound.value
  }

  /** From `i` to `j` the process ended before it stored what would have covered the event at `i`. */
  ghost predicate CutShort(log: seq<Event>, stores: seq<Store>, i: int, j: int, bound: Option<int>)
    requires 0 <= i < j <= |log|
  {
    !SameProcess(log, i, j) && Uncovered(log, stores, i, j, bound)
  }

  /** An accepted post is repeated only for a new message, or after a process that ended without a store. */
  ghost predicate PostsRepeat(log: seq<Event>, stores: seq<Store>) {
    forall i, j :: 0 <= i < j < |log| && log[i].Posted? && log[j].Posted? && log[i].ok && log[i].id == log[j].id
                   ==> SentBetween(log, i, j, log[i].id) || CutShort(log, stores, i, j, None)
  }

  /** An update comes again, or late, only after a process that ended before it stored an offset beyond it. */
  ghost predicate UpdatesRepeat(log: seq<Event>, stores: seq<Store>) {
    forall i, j :: 0 <= i < j < |log| && log[i].Processed? && log[j].Processed?
                   ==> log[i].uid < log[j].uid || CutShort(log, stores, i, j, Some(log[i].uid))
  }

  ghost predicate PostsKnown(log: seq<Event>, stores: seq<Store>, m: Memory) {
    forall i :: 0 <= i < |log| && log[i].Posted? && log[i].ok && log[i].id in m.delivered && m.owed != Some(log[i].id)
                ==> SentBetween(log, i, |log|, log[i].id) || CutShort(log, stores, i, |log|, None)
  }

  ghost predicate UpdatesKnown(log: seq<Event>, stores: seq<Store>, m: Memory) {
    && (m.busy.Some? ==> m.offset <= m.busy.value)
    && forall i :: 0 <= i < |log| && log[i].Processed? ==>
         || log[i].uid < m.offset
         || CutShort(log, stores, i, |log|, Some(log[i].uid))
         || (m.busy == Some(log[i].uid) && Uncovered(log, stores, i, |log|, Some(log[i].uid)))
  }

  ghost predicate FileKnown(log: seq<Event>, stores: seq<Store>, file: Option<Saved>) {
    if file.None? then stores == []
    else
      && (forall i :: 0 <= i < |log| && log[i].Posted? && log[i].ok && log[i].id in file.value.delivered
                      ==> SentBetween(log, i, |log|, log[i].id) || Uncovered(log, stores, i, |log|, None))
      && (forall i :: 0 <= i < |log| && log[i].Processed?
                      ==> log[i].uid < file.value.offset || Uncovered(log, stores, i, |log|, Some(log[i].uid)))
  }

  ghost predicate Bounded(log: seq<Event>, stores: seq<Store>) {
    forall k :: 0 <= k < |stores| ==> stores[k].at <= |log|
  }

  ghost predicate Durable(w: World) {
    && Bounded(w.log, w.stores)
    && PostsRepeat(w.log, w.stores) && UpdatesRepeat(w.log, w.stores) && FileKnown(w.log, w.stores, w.file)
    && (w.mem.Some? ==> PostsKnown(w.log, w.stores, w.mem.value) && UpdatesKnown(w.log, w.stores, w.mem.value))
  }

  // ----- one more event -----

  lemma SameProcessGrows(log: seq<Event>, e: Event, i: int, j: int)
    requires 0 <= i <= j <= |log|
    ensures SameProcess(log + [e], i, j) == SameProcess(log, i, j)
    ensures SameProcess(log + [e], i, |log| + 1) <==> SameProcess(log, i, |log|) && e != Started
  {
    assert (log + [e])[i..j] == log[i..j];
    assert (log + [e])[i..|log| + 1] == log[i..|log|] + [e];
  }

  lemma UncoveredGrows(log: seq<Event>, stores: seq<Store>, e: Event, i: int, j: int, bound: Option<int>)
    requires Bounded(log, stores) && 0 <= i < j <= |log|
    ensures Uncovered(log + [e], stores, i, j, bound) == Uncovered(log, stores, i, j, bound)
    ensures Uncovered(log + [e], stores, i, |log| + 1, bound) == Uncovered(log, stores, i, |log|, bound)
    ensures CutShort(log, stores, i, j, bound) ==> CutShort(log + [e], stores, i, j, bound)
    ensures CutShort(log, stores, i, |log|, bound) ==> CutShort(log + [e], stores, i, |log| + 1, bound)
    ensures e == Started && Uncovered(log, stores, i, |log|, bound) ==> CutShort(log + [e], stores, i, |log| + 1, bound)
  {
    forall k | 0 <= k < |stores| && i < stores[k].at
      ensures SameProcess(log + [e], i, stores[k].at) == SameProcess(log, i, stores[k].at)
    {
      SameProcessGrows(log, e, i, stores[k].at);
    }
    SameProcessGrows(log, e, i, j);
    SameProcessGrows(log, e, i, |log|);
  }

  lemma SentGrows(log: seq<Event>, e: Event, i: int, j: int, id: string)
    requires 0 <= i <= j <= |log| && SentBetween(log, i, j, id)
    ensures SentBetween(log + [e], i, j, id) && SentBetween(log + [e], i, |log| + 1, id)
  {
    SentStays(log, log + [e], i, j, id);
  }

  /** Whatever was true of the file stays true when the outside world sees more. */
  lemma FileGrows(log: seq<Event>, stores: seq<Store>, file: Option<Saved>, e: Event)
    requires Bounded(log, stores) && FileKnown(log, stores, file)
    ensures FileKnown(log + [e], stores, file)
  {
    var more := log + [e];
    if file.Some? {
      forall i | 0 <= i < |log|
        ensures more[i].Posted? && more[i].ok && more[i].id in file.value.delivered
                ==> SentBetween(more, i, |more|, more[i].id) || Uncovered(more, stores, i, |more|, None)
        ensures more[i].Processed?
                ==> more[i].uid < file.value.offset || Uncovered(more, stores, i, |more|, Some(more[i].uid))
      {
        KnownGrows(log, stores, e, i);
      }
      JustNow(log, stores, e, if e.Processed? then Some(e.uid) else None);
    }
  }

  /** What is known of the event at `i` stays known. */
  lemma KnownGrows(log: seq<Event>, stores: seq<Store>, e: Event, i: int)
    requires Bounded(log, stores) && 0 <= i < |log|
    ensures forall id :: SentBetween(log, i, |log|, id) ==> SentBetween(log + [e], i, |log| + 1, id)
    ensures forall bound :: Uncovered(log, stores, i, |log|, bound)
                            ==> Uncovered(log + [e], stores, i, |log| + 1, bound)
    ensures forall bound :: CutShort(log, stores, i, |log|, bound)
                            ==> CutShort(log + [e], stores, i, |log| + 1, bound)
  {
    forall id | SentBetween(log, i, |log|, id) ensures SentBetween(log + [e], i, |log| + 1, id) {
      SentGrows(log, e, i, |log|, id);
    }
    forall bound
      ensures Uncovered(log, stores, i, |log|, bound) ==> Uncovered(log + [e], stores, i, |log| + 1, bound)
      ensures CutShort(log, stores, i, |log|, bound) ==> CutShort(log + [e], stores, i, |log| + 1, bound)
    {
      UncoveredGrows(log, stores, e, i, |log|, bound);
    }
  }

  /** Nothing has been stored since the last event. */
  lemma JustNow(log: seq<Event>, stores: seq<Store>, e: Event, bound: Option<int>)
    requires Bounded(log, stores)
    ensures Uncovered(log + [e], stores, |log|, |log| + 1, bound)
  {
  }

  lemma PostsGrow(log: seq<Event>, stores: seq<Store>, m: Memory, e: Event)
    requires Bounded(log, stores) && PostsKnown(log, stores, m) && !(e.Posted? && e.ok && m.owed != Some(e.id))
    ensures PostsKnown(log + [e], stores, m)
  {
    var more := log + [e];
    forall i | 0 <= i < |more| && more[i].Posted? && more[i].ok
               && more[i].id in m.delivered && m.owed != Some(more[i].id)
      ensures SentBetween(more, i, |more|, more[i].id) || CutShort(more, stores, i, |more|, None)
    {
      assert i < |log| && more[i] == log[i];
      KnownGrows(log, stores, e, i);
    }
  }

  lemma UpdatesGrow(log: seq<Event>, stores: seq<Store>, m: Memory, e: Event)
    requires Bounded(log, stores) && UpdatesKnown(log, stores, m) && (e.Processed? ==> m.busy == Some(e.uid))
    ensures UpdatesKnown(log + [e], stores, m)
  {
    var more := log + [e];
    JustNow(log, stores, e, if e.Processed? then Some(e.uid) else None);
    forall i | 0 <= i < |log| && more[i].Processed?
      ensures || more[i].uid < m.offset
              || CutShort(more, stores, i, |more|, Some(more[i].uid))
              || (m.busy == Some(more[i].uid) && Uncovered(more, stores, i, |more|, Some(more[i].uid)))
    {
      KnownGrows(log, stores, e, i);
    }
  }

  /** The log of repeats grows by an event that is backed by what the memory knows. */
  lemma RepeatsGrow(log: seq<Event>, stores: seq<Store>, e: Event)
    requires Bounded(log, stores) && PostsRepeat(log, stores) && UpdatesRepeat(log, stores)
    requires e.Posted? ==> forall i :: 0 <= i < |log| && log[i].Posted? && log[i].ok && log[i].id == e.id
                                       ==> SentBetween(log, i, |log|, e.id) || CutShort(log, stores, i, |log|, None)
    requires e.Processed? ==> forall i :: 0 <= i < |log| && log[i].Processed?
                                          ==> log[i].uid < e.uid || CutShort(log, stores, i, |log|, Some(log[i].uid))
    ensures PostsRepeat(log + [e], stores) && UpdatesRepeat(log + [e], stores)
  {
    PostRepeatsGrow(log, stores, e);
    UpdateRepeatsGrow(log, stores, e);
  }

  lemma PostRepeatsGrow(log: seq<Event>, stores: seq<Store>, e: Event)
    requires Bounded(log, stores) && PostsRepeat(log, stores)
    requires e.Posted? ==> forall i :: 0 <= i < |log| && log[i].Posted? && log[i].ok && log[i].id == e.id
                                       ==> SentBetween(log, i, |log|, e.id) || CutShort(log, stores, i, |log|, None)
    ensures PostsRepeat(log + [e], stores)
  {
    var more := log + [e];
    forall i, j | 0 <= i < j < |more| && more[i].Posted? && more[j].Posted? && more[i].ok && more[i].id == more[j].id
      ensures SentBetween(more, i, j, more[i].id) || CutShort(more, stores, i, j, None)
    {
      UncoveredGrows(log, stores, e, i, j, None);
      if SentBetween(log, i, j, more[i].id) {
        SentGrows(log, e, i, j, more[i].id);
      }
    }
  }

  lemma UpdateRepeatsGrow(log: seq<Event>, stores: seq<Store>, e: Event)
    requires Bounded(log, stores) && UpdatesRepeat(log, stores)
    requires e.Processed? ==> forall i :: 0 <= i < |log| && log[i].Processed?
                                          ==> log[i].uid < e.uid || CutShort(log, stores, i, |log|, Some(log[i].uid))
    ensures UpdatesRepeat(log + [e], stores)
  {
    var more := log + [e];
    forall i, j | 0 <= i < j < |more| && more[i].Processed? && more[j].Processed?
      ensures more[i].uid < more[j].uid || CutShort(more, stores, i, j, Some(more[i].uid))
    {
      UncoveredGrows(log, stores, e, i, j, Some(more[i].uid));
    }
  }

  // ----- one more store -----

  lemma StoreIsLate(log: seq<Event>, stores: seq<Store>, s: Store, i: int, j: int, bound: Option<int>)
    requires 0 <= i < j <= |log| && s.at == |log| && Uncovered(log, stores, i, j, bound)
    requires j < |log| || !SameProcess(log, i, |log|) || (bound.Some? && s.offset <= bound.value)
    ensures Uncovered(log, stores + [s], i, j, bound)
  {
  }

  lemma RepeatsStored(log: seq<Event>, stores: seq<Store>, s: Store)
    requires PostsRepeat(log, stores) && UpdatesRepeat(log, stores) && s.at == |log|
    ensures PostsRepeat(log, stores + [s]) && UpdatesRepeat(log, stores + [s])
  {
    forall i, j | 0 <= i < j < |log| && log[i].Posted? && log[j].Posted? && log[i].ok && log[i].id == log[j].id
      ensures SentBetween(log, i, j, log[i].id) || CutShort(log, stores + [s], i, j, None)
    {
      if !SentBetween(log, i, j, log[i].id) {
        StoreIsLate(log, stores, s, i, j, None);
      }
    }
    forall i, j | 0 <= i < j < |log| && log[i].Processed? && log[j].Processed?
      ensures log[i].uid < log[j].uid || CutShort(log, stores + [s], i, j, Some(log[i].uid))
    {
      if log[i].uid >= log[j].uid {
        StoreIsLate(log, stores, s, i, j, Some(log[i].uid));
      }
    }
  }

  /** A store with nothing owed makes the file know what the memory knows. */
  lemma MemoryStored(log: seq<Event>, stores: seq<Store>, m: Memory)
    requires PostsKnown(log, stores, m) && UpdatesKnown(log, stores, m) && m.owed.None?
    ensures var more := stores + [Store(|log|, m.offset)];
            && PostsKnown(log, more, m) && UpdatesKnown(log, more, m)
            && FileKnown(log, more, Some(Saved(m.offset, m.delivered)))
  {
    var s := Store(|log|, m.offset);
    forall i | 0 <= i < |log| && log[i].Posted? && log[i].ok && log[i].id in m.delivered
      ensures SentBetween(log, i, |log|, log[i].id) || CutShort(log, stores + [s], i, |log|, None)
    {
      if !SentBetween(log, i, |log|, log[i].id) {
        StoreIsLate(log, stores, s, i, |log|, None);
      }
    }
    forall i | 0 <= i < |log| && log[i].Processed? && log[i].uid >= m.offset
      ensures Uncovered(log, stores + [s], i, |log|, Some(log[i].uid))
      ensures m.busy == Some(log[i].uid) || CutShort(log, stores + [s], i, |log|, Some(log[i].uid))
    {
      StoreIsLate(log, stores, s, i, |log|, Some(log[i].uid));
    }
  }

  // ----- every run -----

  /** A process starts from what the file knows. */
  lemma StartIsDurable(sha: string -> string, w: World)
    requires Durable(w) && w.mem.None?
    ensures Durable(Do(sha, w, Start))
  {
    var more, m := w.log + [Started], Booted(w.file);
    RepeatsGrow(w.log, w.stores, Started);
    FileGrows(w.log, w.stores, w.file, Started);
    forall i, bound | 0 <= i < |w.log| && Uncovered(w.log, w.stores, i, |w.log|, bound)
      ensures CutShort(more, w.stores, i, |more|, bound)
    {
      UncoveredGrows(w.log, w.stores, Started, i, |w.log|, bound);
    }
    StartKnows(w, more, m);
  }

  lemma StartKnows(w: World, more: seq<Event>, m: Memory)
    requires Durable(w) && more == w.log + [Started] && m == Booted(w.file)
    requires forall i, bound :: 0 <= i < |w.log| && Uncovered(w.log, w.stores, i, |w.log|, bound)
                                ==> CutShort(more, w.stores, i, |more|, bound)
    ensures PostsKnown(more, w.stores, m) && UpdatesKnown(more, w.stores, m)
  {
    forall i | 0 <= i < |w.log| && w.log[i].Posted? && w.log[i].ok && w.log[i].id in m.delivered
      ensures SentBetween(more, i, |more|, w.log[i].id) || CutShort(more, w.stores, i, |more|, None)
    {
      if SentBetween(w.log, i, |w.log|, w.log[i].id) {
        SentGrows(w.log, Started, i, |w.log|, w.log[i].id);
      }
    }
    forall i | 0 <= i < |w.log| && w.log[i].Processed? && w.log[i].uid >= m.offset
      ensures CutShort(more, w.stores, i, |more|, Some(w.log[i].uid))
    {
      assert Uncovered(w.log, w.stores, i, |w.log|, Some(w.log[i].uid));
    }
  }

  /** Recording an event while the process runs on. */
  lemma NoteIsDurable(w: World, e: Event, m: Memory)
    requires Durable(w) && w.mem.Some? && (e.Sent? || e.Read?) && m == w.mem.value
    ensures Durable(w.(log := w.log + [e]))
  {
    RepeatsGrow(w.log, w.stores, e);
    FileGrows(w.log, w.stores, w.file, e);
    PostsGrow(w.log, w.stores, m, e);
    UpdatesGrow(w.log, w.stores, m, e);
  }

  lemma PostIsDurable(w: World, verb: Verb, id: string, digest: string, ok: bool, m: Memory)
    requires Durable(w) && w.mem == Some(m) && m.owed.None? && id in m.delivered
    ensures var after := m.(owed := if ok then Some(id) else None);
            Durable(w.(log := w.log + [Posted(verb, id, digest, ok)], mem := Some(after)))
  {
    var e := Posted(verb, id, digest, ok);
    var after := m.(owed := if ok then Some(id) else None);
    RepeatsGrow(w.log, w.stores, e);
    FileGrows(w.log, w.stores, w.file, e);
    PostsGrow(w.log, w.stores, after, e);
    UpdatesGrow(w.log, w.stores, m, e);
  }

  lemma BeginIsDurable(w: World, uid: int, m: Memory)
    requires Durable(w) && w.mem == Some(m) && m.busy.None? && m.offset <= uid
    ensures Durable(w.(log := w.log + [Processed(uid)], mem := Some(m.(busy := Some(uid)))))
  {
    var e := Processed(uid);
    RepeatsGrow(w.log, w.stores, e);
    FileGrows(w.log, w.stores, w.file, e);
    PostsGrow(w.log, w.stores, m, e);
    UpdatesGrow(w.log, w.stores, m.(busy := Some(uid)), e);
  }

  lemma StoreIsDurable(w: World, m: Memory)
    requires Durable(w) && w.mem == Some(m) && m.owed.None?
    ensures Durable(w.(file := Some(Saved(m.offset, m.delivered)), stores := w.stores + [Store(|w.log|, m.offset)]))
  {
    RepeatsStored(w.log, w.stores, Store(|w.log|, m.offset));
    MemoryStored(w.log, w.stores, m);
  }

  lemma BindIsDurable(w: World, id: string, digest: string, m: Memory)
    requires Durable(w) && w.mem == Some(m) && LastIs(w.log, Sent(id, digest))
    ensures Durable(w.(mem := Some(m.(delivered := m.delivered[id := digest]))))
  {
    var n := |w.log| - 1;
    forall i | 0 <= i < |w.log| && w.log[i].Posted? && w.log[i].id == id ensures SentBetween(w.log, i, |w.log|, id) {
      assert i < n && w.log[n].Sent?;
    }
  }

  lemma UnbindIsDurable(w: World, id: string, m: Memory)
    requires Durable(w) && w.mem == Some(m)
    ensures var owed := if m.owed == Some(id) then None else m.owed;
            Durable(w.(mem := Some(m.(delivered := m.delivered - {id}, owed := owed))))
  {
  }

  lemma AdvanceIsDurable(w: World, m: Memory)
    requires Durable(w) && w.mem == Some(m) && m.busy.Some?
    ensures Durable(w.(mem := Some(m.(offset := m.busy.value + 1, busy := None))))
  {
  }

  lemma ActIsDurable(sha: string -> string, w: World, a: Action)
    requires Durable(w) && Enabled(sha, w, Act(a))
    ensures Durable(Do(sha, w, Act(a)))
  {
    var m := w.mem.value;
    match a
    case Deliver(approval) => NoteIsDurable(w, Sent(approval.id, sha(approval.args)), m);
    case Reread(pending) => NoteIsDurable(w, Read(pending), m);
    case Bind(id, digest) => BindIsDurable(w, id, digest, m);
    case Unbind(id) => UnbindIsDurable(w, id, m);
    case Persist(ok) =>
      if ok && m.writable {
        StoreIsDurable(w, m);
      }
    case Post(verb, id, ok) => PostIsDurable(w, verb, id, m.delivered[id], ok, m);
    case Begin(uid) => BeginIsDurable(w, uid, m);
    case Advance => AdvanceIsDurable(w, m);
  }

  lemma {:induction false} RunsAreDurable(sha: string -> string, w: World, steps: seq<Step>)
    requires Durable(w) && Legal(sha, w, steps)
    ensures Durable(After(sha, w, steps))
    decreases |steps|
  {
    if steps != [] {
      match steps[0] {
        case Start => StartIsDurable(sha, w);
        case Kill =>
        case Act(a) => ActIsDurable(sha, w, a);
      }
      RunsAreDurable(sha, Do(sha, w, steps[0]), steps[1..]);
    }
  }

  /**
   Across any number of crashes and restarts, an accepted post is repeated without a new message, and an
   update is processed again or late, only if the process that did it first ended before it stored anything
   more, or anything beyond that update.
   */
  lemma RepeatsNeedACrash(sha: string -> string, steps: seq<Step>)
    requires Legal(sha, FRESH, steps)
    ensures var w := After(sha, FRESH, steps); PostsRepeat(w.log, w.stores) && UpdatesRepeat(w.log, w.stores)
  {
    RunsAreDurable(sha, FRESH, steps);
  }
}
