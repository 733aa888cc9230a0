/** The bridge process: each of its calls is a legal run of the relay's atomic effects. */
module ApprovalBridge {
  import opened Common
  import opened ApprovalRelay

  datatype Command = Command(verb: Verb, id: string)

  /** A Telegram update: who sent it, where, and the command its text parses to. */
  datatype Update = Update(uid: Option<int>, fromOperator: bool, privateChat: bool, command: Option<Command>)

  /** The sort key: updates without an id sort as 0. */
  function Key(u: Update): int {
    if u.uid.Some? then u.uid.value else 0
  }

  predicate Sorted(us: seq<Update>) {
    forall i, j :: 0 <= i < j < |us| ==> Key(us[i]) <= Key(us[j])
  }

  /** Stable: goes behind updates with an equal key. */
  function Insert(us: seq<Update>, u: Update): (r: seq<Update>)
    ensures multiset(r) == multiset(us) + multiset{u} && |r| == |us| + 1
  {
    if us == [] then [u]
    else if Key(u) < Key(us[0]) then [u] + us
    else
      assert us == [us[0]] + us[1..];
      [us[0]] + Insert(us[1..], u)
  }

  lemma {:induction false} InsertSorts(us: seq<Update>, u: Update)
    requires Sorted(us)
    ensures Sorted(Insert(us, u))
  {
    if us != [] && Key(u) >= Key(us[0]) {
      var rest := Insert(us[1..], u);
      InsertSorts(us[1..], u);
      forall x | x in rest ensures Key(us[0]) <= Key(x) {
        assert x in multiset(rest);
        assert x == u || x in us[1..];
      }
    }
  }

  function SortUpdates(us: seq<Update>): (r: seq<Update>)
    ensures Sorted(r) && multiset(r) == multiset(us) && |r| == |us|
  {
    if us == [] then []
    else
      var front := SortUpdates(us[..|us| - 1]);
      InsertSorts(front, us[|us| - 1]);
      assert us == us[..|us| - 1] + [us[|us| - 1]];
      Insert(front, us[|us| - 1])
  }

  ghost predicate Ran(sha: string -> string, w: World, steps: seq<Step>, v: World) {
    Legal(sha, w, steps) && After(sha, w, steps) == v
  }

  lemma RanMore(sha: string -> string, w: World, a: seq<Step>, v: World, b: seq<Step>, u: World)
    requires Ran(sha, w, a, v) && Ran(sha, v, b, u)
    ensures Ran(sha, w, a + b, u)
  {
    RunAppend(sha, w, a, b);
  }

  lemma RanOne(sha: string -> string, w: World, a: Action)
    requires Enabled(sha, w, Act(a))
    ensures Ran(sha, w, [Act(a)], Do(sha, w, Act(a)))
  {
    assert [Act(a)][1..] == [];
  }

  /** The re-read shows the id pending with the digest that was delivered for it. */
  predicate Confirms(sha: string -> string, delivered: map<string, string>, c: Command, reread: Option<seq<Approval>>) {
    && reread.Some? && c.id in delivered && FirstMatch(reread.value, c.id).Some?
    && sha(FirstMatch(reread.value, c.id).value.args) == delivered[c.id]
  }

  /** What a command shows the outside world: the re-read, and the post if that confirms it. */
  function CommandLog(sha: string -> string, delivered: map<string, string>, c: Command,
                      reread: Option<seq<Approval>>, status: Option<int>): seq<Event>
  {
    if reread.None? then []
    else [Read(reread.value)] +
         if Confirms(sha, delivered, c, reread) then [Posted(c.verb, c.id, delivered[c.id], status == Some(200))]
         else []
  }

  predicate FromOperator(u: Update) {
    u.fromOperator && u.privateChat && u.command.Some?
  }

  /** What an update shows the outside world: nothing, unless it is the operator's private command. */
  function UpdateLog(sha: string -> string, delivered: map<string, string>, u: Update,
                     reread: Option<seq<Approval>>, status: Option<int>): seq<Event>
  {
    if FromOperator(u) then CommandLog(sha, delivered, u.command.value, reread, status) else []
  }

  /** The bindings an update leaves: an id that is settled goes. */
  function DeliveredAfter(sha: string -> string, delivered: map<string, string>, u: Update,
                          reread: Option<seq<Approval>>, status: Option<int>): map<string, string>
  {
    if FromOperator(u) && Confirms(sha, delivered, u.command.value, reread)
       && (status == Some(200) || status == Some(404))
    then delivered - {u.command.value.id} else delivered
  }

  /** Where a batch stands: what was shown, what is bound, and the offset. */
  datatype Turn = Turn(log: seq<Event>, delivered: map<string, string>, offset: int)

  function OneTurn(sha: string -> string, b: Turn, u: Update,
                   reread: Option<seq<Approval>>, status: Option<int>): Turn
  {
    if !IsNew(u, b.offset) then b
    else Turn(b.log + ([Processed(u.uid.value)] + UpdateLog(sha, b.delivered, u, reread, status)),
              DeliveredAfter(sha, b.delivered, u, reread, status), u.uid.value + 1)
  }

  /** Where a sorted batch stands after its first `n` updates. */
  function Turns(sha: string -> string, start: Turn, us: seq<Update>,
                 reread: nat -> Option<seq<Approval>>, status: nat -> Option<int>, n: nat): Turn
    requires n <= |us|
  {
    if n == 0 then start
    else OneTurn(sha, Turns(sha, start, us, reread, status, n - 1), us[n - 1], reread(n - 1), status(n - 1))
  }

  lemma {:induction false} TurnsGrow(sha: string -> string, start: Turn, us: seq<Update>,
                                     reread: nat -> Option<seq<Approval>>, status: nat -> Option<int>, k: nat, n: nat)
    requires k <= n <= |us|
    ensures Turns(sha, start, us, reread, status, k).log <= Turns(sha, start, us, reread, status, n).log
    decreases n - k
  {
    if k < n {
      TurnsGrow(sha, start, us, reread, status, k, n - 1);
    }
  }

  /** An operator's private command whose turn comes and whose re-read confirms it is posted by its batch. */
  lemma ConfirmedIsPosted(sha: string -> string, start: Turn, us: seq<Update>,
                          reread: nat -> Option<seq<Approval>>, status: nat -> Option<int>, k: nat)
    requires k < |us| && us[k].fromOperator && us[k].privateChat && us[k].command.Some?
    requires us[k].uid.Some? && Turns(sha, start, us, reread, status, k).offset <= us[k].uid.value
    requires Confirms(sha, Turns(sha, start, us, reread, status, k).delivered, us[k].command.value, reread(k))
    ensures var before, c := Turns(sha, start, us, reread, status, k), us[k].command.value;
            before.log + [Processed(us[k].uid.value), Read(reread(k).value),
                          Posted(c.verb, c.id, before.delivered[c.id], status(k) == Some(200))]
            <= Turns(sha, start, us, reread, status, |us|).log
  {
    TurnsGrow(sha, start, us, reread, status, k + 1, |us|);
  }

  /** What the re-read has to show for a post: the first entry with the id has the digest that was delivered. */
  lemma ConfirmsIff(sha: string -> string, delivered: map<string, string>, c: Command, reread: Option<seq<Approval>>)
    ensures Confirms(sha, delivered, c, reread)
       <==> && reread.Some? && c.id in delivered
            && exists i :: IsFirst(reread.value, i, c.id) && sha(reread.value[i].args) == delivered[c.id]
  {
    if reread.Some? {
      FirstMatchIff(reread.value, c.id);
    }
  }

  /** A batch without an update of the operator in a private chat shows nothing and changes no binding. */
  lemma {:induction false} StrangersShowNothing(sha: string -> string, start: Turn, us: seq<Update>,
                                                reread: nat -> Option<seq<Approval>>, status: nat -> Option<int>,
                                                n: nat)
    requires n <= |us| && forall u :: u in us ==> !(u.fromOperator && u.privateChat)
    ensures var b := Turns(sha, start, us, reread, status, n);
            && b.delivered == start.delivered && start.log <= b.log
            && forall k :: |start.log| <= k < |b.log| ==> b.log[k].Processed?
  {
    if n > 0 {
      StrangersShowNothing(sha, start, us, reread, status, n - 1);
    }
  }

  /** A post is what one of these updates commands, privately and from the operator. */
  ghost predicate Commanded(us: seq<Update>, e: Event) {
    e.Posted? ==>
      exists u :: u in us && u.fromOperator && u.privateChat && u.command == Some(Command(e.verb, e.id))
  }

  /** Everything a log gained since `n` events. */
  ghost predicate CommandedSince(us: seq<Update>, log: seq<Event>, n: nat) {
    forall k :: n <= k < |log| ==> Commanded(us, log[k])
  }

  /** The update ids a log says were processed, in order. */
  function ProcessedIn(log: seq<Event>): seq<int> {
    if log == [] then []
    else
      var n := |log| - 1;
      ProcessedIn(log[..n]) + if log[n].Processed? then [log[n].uid] else []
  }

  lemma {:induction false} ProcessedAppend(a: seq<Event>, b: seq<Event>)
    ensures ProcessedIn(a + b) == ProcessedIn(a) + ProcessedIn(b)
  {
    if b == [] {
      assert a + b == a;
    } else {
      var n := |b| - 1;
      ProcessedAppend(a, b[..n]);
      assert (a + b)[..|a + b| - 1] == a + b[..n];
    }
  }

  /** From `before` to `log`, exactly these ids were processed and only what `us` command was posted. */
  ghost predicate Shown(us: seq<Update>, before: seq<Event>, log: seq<Event>, processed: seq<int>) {
    && before <= log && ProcessedIn(log) == ProcessedIn(before) + processed
    && CommandedSince(us, log, |before|)
  }

  lemma ShownOne(sha: string -> string, delivered: map<string, string>, u: Update,
                 reread: Option<seq<Approval>>, status: Option<int>, uid: int, before: seq<Event>)
    ensures Shown([u], before, before + ([Processed(uid)] + UpdateLog(sha, delivered, u, reread, status)), [uid])
  {
    var more := UpdateLog(sha, delivered, u, reread, status);
    ProcessedAppend(before, [Processed(uid)] + more);
    ProcessedAppend([Processed(uid)], more);
    assert ProcessedIn([Processed(uid)]) == [uid];
    assert ProcessedIn(more) == [] by {
      if |more| == 2 {
        assert more[..1] == [more[0]];
      }
    }
    assert u in [u];
  }

  lemma ShownMore(us: seq<Update>, i: nat, a: seq<Event>, b: seq<Event>, log: seq<Event>, x: seq<int>, y: seq<int>)
    requires i < |us| && Shown(us, a, b, x) && Shown([us[i]], b, log, y)
    ensures Shown(us, a, log, x + y)
  {
    forall k | |a| <= k < |log| ensures Commanded(us, log[k]) {
      if k < |b| {
        assert log[k] == b[k];
      } else {
        assert Commanded([us[i]], log[k]);
      }
    }
    Reassociate(ProcessedIn(a), x, y);
  }

  /** Sorting a batch does not change what it commands. */
  lemma ShownSorted(us: seq<Update>, before: seq<Event>, log: seq<Event>, processed: seq<int>)
    requires Shown(SortUpdates(us), before, log, processed)
    ensures Shown(us, before, log, processed)
  {
    forall u | u in SortUpdates(us) ensures u in us {
      assert u in multiset(SortUpdates(us));
    }
    forall k | |before| <= k < |log| ensures Commanded(us, log[k]) {
      assert Commanded(SortUpdates(us), log[k]);
    }
  }

  /** An entry of the batch that a message goes out for: an id neither bound nor sent before it. */
  predicate Goes(pending: seq<Approval>, bound: set<string>, sent: nat -> bool, i: nat)
    requires i < |pending|
  {
    pending[i].id != "" && pending[i].id !in bound && sent(i) && !SentBefore(pending, sent, i, pending[i].id)
  }

  predicate SentBefore(pending: seq<Approval>, sent: nat -> bool, n: nat, id: string)
    requires n <= |pending|
  {
    id != "" && exists j :: 0 <= j < n && pending[j].id == id && sent(j)
  }

  /** The messages a poll sends for the first `n` pending entries. */
  function Outgoing(sha: string -> string, pending: seq<Approval>, bound: set<string>,
                    sent: nat -> bool, n: nat): seq<Event>
    requires n <= |pending|
  {
    if n == 0 then []
    else
      Outgoing(sha, pending, bound, sent, n - 1) +
      if Goes(pending, bound, sent, n - 1) then [Sent(pending[n - 1].id, sha(pending[n - 1].args))] else []
  }

  /** Only which of the pending ids are bound matters. */
  lemma {:induction false} OutgoingSame(sha: string -> string, pending: seq<Approval>, a: set<string>, b: set<string>,
                                        sent: nat -> bool, n: nat)
    requires n <= |pending| && forall id :: IsPending(pending, id) ==> (id in a <==> id in b)
    ensures Outgoing(sha, pending, a, sent, n) == Outgoing(sha, pending, b, sent, n)
  {
    if n > 0 {
      OutgoingSame(sha, pending, a, b, sent, n - 1);
      assert pending[n - 1].id != "" ==> IsPending(pending, pending[n - 1].id);
    }
  }

  /** Entry `i` is the one whose message goes out for its id: the first of that id that can be sent. */
  predicate Announces(pending: seq<Approval>, sent: nat -> bool, i: int, id: string) {
    && 0 <= i < |pending| && pending[i].id == id && sent(i)
    && forall j :: 0 <= j < i && pending[j].id == id ==> !sent(j)
  }

  /** A poll sends exactly one message for each id that is not bound and can be sent, of its first such entry. */
  lemma {:induction false} OutgoingIff(sha: string -> string, pending: seq<Approval>, bound: set<string>,
                                       sent: nat -> bool, n: nat, id: string, digest: string)
    requires n <= |pending|
    ensures Sent(id, digest) in Outgoing(sha, pending, bound, sent, n)
       <==> && id != "" && id !in bound
            && exists i :: i < n && Announces(pending, sent, i, id) && digest == sha(pending[i].args)
  {
    if n > 0 {
      OutgoingIff(sha, pending, bound, sent, n - 1, id, digest);
      if Goes(pending, bound, sent, n - 1) && pending[n - 1].id == id {
        assert Announces(pending, sent, n - 1, id);
        assert forall i :: i < n - 1 ==> !Announces(pending, sent, i, id);
      }
      if Announces(pending, sent, n - 1, id) && id != "" && id !in bound {
        assert Goes(pending, bound, sent, n - 1);
      }
    }
  }

  /** It sends nothing else, and no message twice. */
  lemma {:induction false} OutgoingOnce(sha: string -> string, pending: seq<Approval>, bound: set<string>,
                                        sent: nat -> bool, n: nat, e: Event)
    requires n <= |pending|
    ensures e in Outgoing(sha, pending, bound, sent, n) ==> e.Sent? && SentBefore(pending, sent, n, e.id)
    ensures multiset(Outgoing(sha, pending, bound, sent, n))[e] <= 1
  {
    if n > 0 {
      OutgoingOnce(sha, pending, bound, sent, n - 1, e);
    }
  }

  class Bridge {
    const sha: string -> string
    var offset: int
    var delivered: map<string, string>
    var writable: bool
    var file: Option<Saved>
    ghost var log: seq<Event>
    ghost var stores: seq<Store>
    ghost var busy: Option<int>
    ghost var owed: Option<string>

    ghost function Value(): World
      reads this
    {
      World(Some(Memory(offset, delivered, writable, busy, owed)), file, log, stores)
    }

    /** Starting up: `_load_state` on whatever the last process left. */
    constructor (sha: string -> string, file: Option<Saved>, ghost log: seq<Event>, ghost stores: seq<Store>)
      ensures this.sha == sha && Value() == Do(sha, World(None, file, log, stores), Start)
      ensures offset == (if file.Some? then file.value.offset else 0)
      ensures delivered == (if file.Some? then file.value.delivered else map[]) && this.file == file && writable
    {
      this.sha := sha;
      this.offset := if file.Some? then file.value.offset else 0;
      this.delivered := if file.Some? then file.value.delivered else map[];
      this.writable, this.file := true, file;
      this.log, this.stores, this.busy, this.owed := log + [Started], stores, None, None;
    }

    /** `_persist_state`; after a failure the bridge stays in memory only. */
    method PersistState(ok: bool)
      requires owed == None
      modifies this`file, this`writable, this`stores
      ensures Value() == Do(sha, old(Value()), Act(Persist(ok)))
      ensures file == (if old(writable) && ok then Some(Saved(offset, delivered)) else old(file))
      ensures writable == (old(writable) && ok)
    {
      if !writable {
        return;
      }
      if ok {
        stores := stores + [Store(|log|, offset)];
        file := Some(Saved(offset, delivered));
      } else {
        writable := false;
      }
    }

    /** `deliver_approval`: the binding is recorded only for a message that was accepted. */
    method DeliverApproval(a: Approval, sent: bool, disk: bool) returns (ghost steps: seq<Step>)
      requires owed == None
      modifies this
      ensures Ran(sha, old(Value()), steps, Value())
      ensures delivered == if a.id != "" && sent then old(delivered)[a.id := sha(a.args)] else old(delivered)
      ensures log == old(log) + if a.id != "" && sent then [Sent(a.id, sha(a.args))] else []
      ensures offset == old(offset) && busy == old(busy) && owed == old(owed)
    {
      steps := [];
      if a.id == "" || !sent {
        return;
      }
      var digest := sha(a.args);
      RanOne(sha, Value(), Deliver(a));
      log := log + [Sent(a.id, digest)];
      ghost var w1 := Value();
      RanOne(sha, w1, Bind(a.id, digest));
      delivered := delivered[a.id := digest];
      ghost var w2 := Value();
      RanOne(sha, w2, Persist(disk));
      PersistState(disk);
      RanMore(sha, old(Value()), [Act(Deliver(a))], w1, [Act(Bind(a.id, digest))], w2);
      steps := [Act(Deliver(a))] + [Act(Bind(a.id, digest))];
      RanMore(sha, old(Value()), steps, w2, [Act(Persist(disk))], Value());
      steps := steps + [Act(Persist(disk))];
    }

    /** Drops bindings in any order. */
    method DropBindings(stale: set<string>) returns (ghost steps: seq<Step>)
      requires owed == None
      modifies this`delivered
      ensures Ran(sha, old(Value()), steps, Value())
      ensures delivered == old(delivered) - stale
    {
      steps := [];
      var left := stale;
      while left != {}
        invariant left <= stale
        invariant Ran(sha, old(Value()), steps, Value())
        invariant delivered == old(delivered) - (stale - left)
        decreases left
      {
        var id :| id in left;
        ghost var w := Value();
        RanOne(sha, w, Unbind(id));
        delivered := delivered - {id};
        left := left - {id};
        assert delivered == old(delivered) - (stale - left);
        RanMore(sha, old(Value()), steps, w, [Act(Unbind(id))], Value());
        steps := steps + [Act(Unbind(id))];
      }
    }

    /** The bindings that are no longer pending go, with one write if there were any. */
    method ForgetResolved(pending: seq<Approval>, disk: bool) returns (ghost steps: seq<Step>)
      requires owed == None
      modifies this`delivered, this`file, this`writable, this`stores
      ensures Ran(sha, old(Value()), steps, Value())
      ensures delivered == map id | id in old(delivered) && IsPending(pending, id) :: old(delivered)[id]
    {
      steps := [];
      var stale := set id | id in delivered && !IsPending(pending, id);
      if stale != {} {
        steps := DropBindings(stale);
        ghost var w := Value();
        RanOne(sha, w, Persist(disk));
        PersistState(disk);
        RanMore(sha, old(Value()), steps, w, [Act(Persist(disk))], Value());
        steps := steps + [Act(Persist(disk))];
      } else {
        assert forall id :: id in delivered ==> id in stale || IsPending(pending, id);
      }
    }

    /** Every pending approval that is not bound yet is sent; bindings that exist stay as they are. */
    method DeliverPending(pending: seq<Approval>, sent: nat -> bool, disk: nat -> bool)
      returns (ghost steps: seq<Step>)
      requires owed == None
      modifies this
      ensures Ran(sha, old(Value()), steps, Value())
      ensures owed == old(owed) && busy == old(busy) && offset == old(offset)
      ensures forall id :: id in delivered ==> id in old(delivered) || IsPending(pending, id)
      ensures forall id :: id in old(delivered) ==> id in delivered && delivered[id] == old(delivered)[id]
      ensures forall i :: 0 <= i < |pending| && pending[i].id != "" && sent(i) ==> pending[i].id in delivered
      ensures log == old(log) + Outgoing(sha, pending, old(delivered).Keys, sent, |pending|)
    {
      steps := [];
      for i := 0 to |pending|
        invariant log == old(log) + Outgoing(sha, pending, old(delivered).Keys, sent, i)
        invariant forall id :: id in delivered <==> id in old(delivered) || SentBefore(pending, sent, i, id)
        invariant Ran(sha, old(Value()), steps, Value())
        invariant owed == old(owed) && busy == old(busy) && offset == old(offset)
        invariant forall id :: id in old(delivered) ==> delivered[id] == old(delivered)[id]
      {
        var a := pending[i];
        if a.id != "" && a.id !in delivered {
          ghost var w := Value();
          ghost var more := DeliverApproval(a, sent(i), disk(i));
          RanMore(sha, old(Value()), steps, w, more, Value());
          steps := steps + more;
        }
      }
    }

    /**
     `poll_management`: forgets bindings that are no longer pending, then delivers what is pending and
     not bound. `sent` and `disk` tell how each message and each write turn out.
     */
    method PollManagement(fetched: Option<seq<Approval>>, sent: nat -> bool, collected: bool, disk: nat -> bool)
      returns (ghost steps: seq<Step>)
      requires owed == None
      modifies this
      ensures Ran(sha, old(Value()), steps, Value())
      ensures owed == None && busy == old(busy) && offset == old(offset)
      ensures fetched.None? ==> delivered == old(delivered)
      ensures fetched.Some? ==>
                && (forall id :: id in delivered ==> exists i :: 0 <= i < |fetched.value| && fetched.value[i].id == id)
                && (forall i :: 0 <= i < |fetched.value| && fetched.value[i].id in old(delivered)
                                && fetched.value[i].id != ""
                                ==> && fetched.value[i].id in delivered
                                    && delivered[fetched.value[i].id] == old(delivered)[fetched.value[i].id])
                && (forall i :: 0 <= i < |fetched.value| && fetched.value[i].id != "" && sent(i)
                                ==> fetched.value[i].id in delivered)
      ensures log == old(log) + if fetched.None? then []
                                else Outgoing(sha, fetched.value, old(delivered).Keys, sent, |fetched.value|)
    {
      steps := [];
      if fetched.Some? {
        steps := ForgetResolved(fetched.value, collected);
        OutgoingSame(sha, fetched.value, old(delivered).Keys, delivered.Keys, sent, |fetched.value|);
        ghost var w := Value();
        ghost var more := DeliverPending(fetched.value, sent, disk);
        RanMore(sha, old(Value()), steps, w, more, Value());
        steps := steps + more;
      }
    }

    /**
     `handle_command`: re-reads, refuses unless the id is pending with the digest that was delivered,
     then posts. The binding goes after an accepted post, and when it was resolved elsewhere.
     */
    method HandleCommand(c: Command, reread: Option<seq<Approval>>, status: Option<int>, disk: bool)
      returns (posted: bool, ghost steps: seq<Step>)
      requires owed == None
      modifies this
      ensures Ran(sha, old(Value()), steps, Value())
      ensures owed == None && busy == old(busy) && offset == old(offset)
      ensures posted <==> && reread.Some? && c.id in old(delivered)
                          && exists i :: IsFirst(reread.value, i, c.id)
                                         && sha(reread.value[i].args) == old(delivered)[c.id]
      ensures posted == Confirms(sha, old(delivered), c, reread)
      ensures posted ==> log == old(log) + [Read(reread.value)]
                                + [Posted(c.verb, c.id, old(delivered)[c.id], status == Some(200))]
      ensures !posted ==> log == old(log) + if reread.Some? then [Read(reread.value)] else []
      ensures log == old(log) + CommandLog(sha, old(delivered), c, reread, status)
      ensures delivered == if posted && (status == Some(200) || status == Some(404)) then old(delivered) - {c.id}
                           else old(delivered)
    {
      posted, steps := false, [];
      ConfirmsIff(sha, delivered, c, reread);
      if reread.None? {
        return;
      }
      RanOne(sha, Value(), Reread(reread.value));
      log := log + [Read(reread.value)];
      steps := [Act(Reread(reread.value))];
      var found := FirstMatch(reread.value, c.id);
      if found.None? {
        return;
      }
      if c.id !in delivered || delivered[c.id] != sha(found.value.args) {
        return;
      }
      posted := true;
      ghost var w := Value();
      ghost var more := PostVerified(c, status, disk);
      RanMore(sha, old(Value()), steps, w, more, Value());
      steps := steps + more;
    }

    /** The post itself, right after the re-read that verified it. */
    method PostVerified(c: Command, status: Option<int>, disk: bool) returns (ghost steps: seq<Step>)
      requires owed == None && Verified(sha, log, delivered, c.id)
      modifies this
      ensures Ran(sha, old(Value()), steps, Value())
      ensures owed == None && busy == old(busy) && offset == old(offset)
      ensures log == old(log) + [Posted(c.verb, c.id, old(delivered)[c.id], status == Some(200))]
      ensures delivered == if status == Some(200) || status == Some(404) then old(delivered) - {c.id}
                           else old(delivered)
    {
      ghost var post := Post(c.verb, c.id, status == Some(200));
      RanOne(sha, Value(), post);
      log := log + [Posted(c.verb, c.id, delivered[c.id], status == Some(200))];
      owed := if status == Some(200) then Some(c.id) else None;
      steps := [Act(post)];
      if status == Some(200) || status == Some(404) {
        ghost var w := Value();
        ghost var more := Resolve(c.id, disk);
        RanMore(sha, old(Value()), steps, w, more, Value());
        steps := steps + more;
      }
    }

    /** An id that is settled loses its binding, and the state is stored. */
    method Resolve(id: string, disk: bool) returns (ghost steps: seq<Step>)
      requires owed == None || owed == Some(id)
      modifies this
      ensures Ran(sha, old(Value()), steps, Value())
      ensures owed == None && busy == old(busy) && offset == old(offset) && delivered == old(delivered) - {id}
      ensures log == old(log)
    {
      RanOne(sha, Value(), Unbind(id));
      delivered := delivered - {id};
      owed := None;
      ghost var w := Value();
      RanOne(sha, w, Persist(disk));
      PersistState(disk);
      RanMore(sha, old(Value()), [Act(Unbind(id))], w, [Act(Persist(disk))], Value());
      steps := [Act(Unbind(id))] + [Act(Persist(disk))];
    }

    /** `process_update`: only the operator, and only in a private chat, reaches the command. */
    method ProcessUpdate(u: Update, reread: Option<seq<Approval>>, status: Option<int>, disk: bool)
      returns (posted: bool, ghost steps: seq<Step>)
      requires owed == None
      modifies this
      ensures Ran(sha, old(Value()), steps, Value())
      ensures owed == None && busy == old(busy) && offset == old(offset)
      ensures posted <==> && u.fromOperator && u.privateChat && u.command.Some?
                          && Confirms(sha, old(delivered), u.command.value, reread)
      ensures posted ==> log == old(log) + [Read(reread.value)]
                                + [Posted(u.command.value.verb, u.command.value.id,
                                          old(delivered)[u.command.value.id], status == Some(200))]
      ensures log == old(log) + UpdateLog(sha, old(delivered), u, reread, status)
      ensures delivered == if posted && (status == Some(200) || status == Some(404))
                           then old(delivered) - {u.command.value.id} else old(delivered)
    {
      posted, steps := false, [];
      if u.fromOperator && u.privateChat && u.command.Some? {
        posted, steps := HandleCommand(u.command.value, reread, status, disk);
      }
    }

    /** One update that is not behind the offset: it is processed, then the offset moves past it. */
    method ProcessNew(u: Update, reread: Option<seq<Approval>>, status: Option<int>, disk: bool)
      returns (ghost steps: seq<Step>)
      requires owed == None && busy == None && u.uid.Some? && offset <= u.uid.value
      modifies this
      ensures Ran(sha, old(Value()), steps, Value())
      ensures owed == None && busy == None && offset == u.uid.value + 1
      ensures log == old(log) + ([Processed(u.uid.value)] + UpdateLog(sha, old(delivered), u, reread, status))
      ensures delivered == DeliveredAfter(sha, old(delivered), u, reread, status)
    {
      var uid := u.uid.value;
      RanOne(sha, Value(), Begin(uid));
      log, busy := log + [Processed(uid)], Some(uid);
      ghost var w1 := Value();
      var _, more := ProcessUpdate(u, reread, status, disk);
      ghost var w2 := Value();
      RanOne(sha, w2, Advance);
      offset, busy := uid + 1, None;
      RanMore(sha, old(Value()), [Act(Begin(uid))], w1, more, w2);
      steps := [Act(Begin(uid))] + more;
      RanMore(sha, old(Value()), steps, w2, [Act(Advance)], Value());
      steps := steps + [Act(Advance)];
    }

    /** One turn of the loop of `handle_updates`. */
    method ProcessIfNew(u: Update, reread: Option<seq<Approval>>, status: Option<int>, disk: bool)
      returns (isNew: bool, ghost steps: seq<Step>)
      requires owed == None && busy == None
      modifies this
      ensures Ran(sha, old(Value()), steps, Value()) && owed == None && busy == None
      ensures isNew == IsNew(u, old(offset)) && offset == if isNew then u.uid.value + 1 else old(offset)
      ensures Shown([u], old(log), log, if isNew then [u.uid.value] else [])
      ensures Turn(log, delivered, offset) == OneTurn(sha, old(Turn(log, delivered, offset)), u, reread, status)
    {
      isNew, steps := IsNew(u, offset), [];
      if isNew {
        ShownOne(sha, delivered, u, reread, status, u.uid.value, log);
        steps := ProcessNew(u, reread, status, disk);
      }
    }

    /** The loop of `handle_updates` over a sorted batch. */
    method ProcessInOrder(us: seq<Update>, reread: nat -> Option<seq<Approval>>, status: nat -> Option<int>,
                          disk: nat -> bool)
      returns (processed: seq<int>, ghost steps: seq<Step>)
      requires owed == None && busy == None
      modifies this
      ensures Ran(sha, old(Value()), steps, Value()) && owed == None && busy == None
      ensures processed == NewIds(us, old(offset))
      ensures offset == EndOffset(processed, old(offset))
      ensures Shown(us, old(log), log, processed)
      ensures Turn(log, delivered, offset)
           == Turns(sha, old(Turn(log, delivered, offset)), us, reread, status, |us|)
    {
      processed, steps := [], [];
      for i := 0 to |us|
        invariant Ran(sha, old(Value()), steps, Value()) && owed == None && busy == None
        invariant NewIds(us, old(offset)) == processed + NewIds(us[i..], offset)
        invariant offset == EndOffset(processed, old(offset))
        invariant Shown(us, old(log), log, processed)
        invariant Turn(log, delivered, offset) == Turns(sha, old(Turn(log, delivered, offset)), us, reread, status, i)
      {
        NewIdsAt(us, i, offset);
        ghost var w := Value();
        var isNew, more := ProcessIfNew(us[i], reread(i), status(i), disk(i));
        ShownMore(us, i, old(log), w.log, log, processed, if isNew then [us[i].uid.value] else []);
        RanMore(sha, old(Value()), steps, w, more, Value());
        steps := steps + more;
        if isNew {
          Reassociate(processed, [us[i].uid.value], NewIds(us[i + 1..], offset));
          processed := processed + [us[i].uid.value];
        }
      }
    }

    /** `handle_updates`: in id order, each one that is not behind the offset, then one write. */
    method HandleUpdates(updates: seq<Update>, reread: nat -> Option<seq<Approval>>, status: nat -> Option<int>,
                         disk: nat -> bool, stored: bool)
      returns (processed: seq<int>, ghost steps: seq<Step>)
      requires owed == None && busy == None
      modifies this
      ensures Ran(sha, old(Value()), steps, Value()) && owed == None && busy == None
      ensures processed == NewIds(SortUpdates(updates), old(offset))
      ensures offset == EndOffset(processed, old(offset))
      ensures Shown(updates, old(log), log, processed)
      ensures Turn(log, delivered, offset)
           == Turns(sha, old(Turn(log, delivered, offset)), SortUpdates(updates), reread, status, |updates|)
      ensures forall k :: |old(log)| <= k < |log| && log[k].Posted? ==>
                exists u :: u in updates && u.fromOperator && u.privateChat
                            && u.command == Some(Command(log[k].verb, log[k].id))
      ensures (forall u :: u in updates ==> !(u.fromOperator && u.privateChat)) ==>
                && delivered == old(delivered)
                && forall k :: |old(log)| <= k < |log| ==> log[k].Processed?
      ensures writable ==> file == Some(Saved(offset, delivered))
    {
      processed, steps := ProcessInOrder(SortUpdates(updates), reread, status, disk);
      ShownSorted(updates, old(log), log, processed);
      if forall u :: u in updates ==> !(u.fromOperator && u.privateChat) {
        var us := SortUpdates(updates);
        forall u | u in us ensures u in updates {
          assert u in multiset(us);
        }
        StrangersShowNothing(sha, old(Turn(log, delivered, offset)), us, reread, status, |us|);
      }
      ghost var w := Value();
      RanOne(sha, w, Persist(stored));
      PersistState(stored);
      RanMore(sha, old(Value()), steps, w, [Act(Persist(stored))], Value());
      steps := steps + [Act(Persist(stored))];
    }
  }

  /** An update with an id that the offset has not passed. */
  predicate IsNew(u: Update, offset: int) {
    u.uid.Some? && offset <= u.uid.value
  }

  /** The ids a batch gets processed for, given where the offset stands. */
  function NewIds(us: seq<Update>, offset: int): seq<int> {
    if us == [] then []
    else if !IsNew(us[0], offset) then NewIds(us[1..], offset)
    else [us[0].uid.value] + NewIds(us[1..], us[0].uid.value + 1)
  }

  /** Where the offset stands afterwards. */
  function EndOffset(processed: seq<int>, offset: int): int {
    if processed == [] then offset else processed[|processed| - 1] + 1
  }

  lemma NewIdsAt(us: seq<Update>, i: nat, offset: int)
    requires i < |us|
    ensures NewIds(us[i..], offset)
         == if !IsNew(us[i], offset) then NewIds(us[i + 1..], offset)
            else [us[i].uid.value] + NewIds(us[i + 1..], us[i].uid.value + 1)
  {
    assert us[i..][0] == us[i] && us[i..][1..] == us[i + 1..];
  }

  lemma {:induction false} NewIdsIncrease(us: seq<Update>, offset: int)
    ensures forall k :: 0 <= k < |NewIds(us, offset)| ==> offset <= NewIds(us, offset)[k]
    ensures forall i, j :: 0 <= i < j < |NewIds(us, offset)| ==> NewIds(us, offset)[i] < NewIds(us, offset)[j]
  {
    if us != [] {
      if !IsNew(us[0], offset) {
        NewIdsIncrease(us[1..], offset);
      } else {
        NewIdsIncrease(us[1..], us[0].uid.value + 1);
      }
    }
  }

  lemma {:induction false} NewIdsMissNone(us: seq<Update>, offset: int, u: Update)
    requires Sorted(us) && u in us && u.uid.Some? && u.uid.value >= offset
    ensures u.uid.value in NewIds(us, offset)
  {
    var head := us[0];
    if !IsNew(head, offset) {
      NewIdsMissNone(us[1..], offset, u);
    } else if u.uid != head.uid {
      assert u in us[1..] && Key(head) <= Key(u);
      NewIdsMissNone(us[1..], head.uid.value + 1, u);
    }
  }

  /** A batch is processed in strictly increasing id order, old ids never, new ids each exactly once. */
  lemma BatchIsExact(updates: seq<Update>, offset: int)
    ensures var ids := NewIds(SortUpdates(updates), offset);
            && (forall i, j :: 0 <= i < j < |ids| ==> ids[i] < ids[j])
            && (forall k :: 0 <= k < |ids| ==> offset <= ids[k])
            && (forall u :: u in updates && u.uid.Some? && u.uid.value >= offset ==> u.uid.value in ids)
  {
    var us := SortUpdates(updates);
    NewIdsIncrease(us, offset);
    forall u | u in updates && u.uid.Some? && u.uid.value >= offset ensures u.uid.value in NewIds(us, offset) {
      assert u in multiset(us);
      NewIdsMissNone(us, offset, u);
    }
  }

  predicate IsPending(pending: seq<Approval>, id: string) {
    id != "" && exists i :: 0 <= i < |pending| && pending[i].id == id
  }
}
