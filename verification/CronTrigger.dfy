/** The durable trigger around the search (docker/cron_mcp.py: catch-up, persistence, waiting). */
module CronTrigger {
  import opened Common
  import opened Calendar
  import opened CronSchedule
  import opened CronSearch
  import opened CronLiveness

  const MICROS_PER_SECOND := 1_000_000
  const MAX_TIMEOUT_S := 25

  /** The schedule text and what it was parsed to; an interval's length is at least one second. */
  datatype Config = Cron(text: string, schedule: Schedule) | Interval(text: string, seconds: int) {
    predicate Valid() {
      match this
      case Cron(text, schedule) => CronOf(text) == Some(schedule)
      case Interval(_, seconds) => seconds >= 1
    }

    /** `_spec_fingerprint`. */
    function Fingerprint(): string {
      match this
      case Cron(text, _) => "cron:" + text
      case Interval(text, _) => "interval:" + text
    }
  }

  /** The state file: the next fire and the fingerprint it was computed for. */
  datatype Saved = Saved(next: int, spec: string)

  datatype Reply = Fired(due: int, next: int) | Waiting(next: int) | TimedOut(upcoming: Option<int>)

  // ----- the decisions -----

  /** The next fire counted from a clock reading; `None` when the search raises. */
  function FreshFire(c: Config, now: Instant): Option<int>
    requires now.Valid()
  {
    match c
    case Interval(_, seconds) => Some(now.Stamp() + seconds * MICROS_PER_SECOND)
    case Cron(_, schedule) =>
      match NextFire(schedule, now)
      case None => None
      case Some(t) => Some(t.Micros())
  }

  /** `_load_persisted_next`: a file written for another schedule is ignored. */
  function LoadPersisted(file: Option<Saved>, c: Config): Option<int> {
    if file.Some? && file.value.spec == c.Fingerprint() then Some(file.value.next) else None
  }

  /** `_apply_catchup`. */
  function ApplyCatchup(computed: int, persisted: Option<int>, now: int): int {
    if persisted.Some? && persisted.value <= now then now else computed
  }

  /** What `_init` decides from its two clock readings; `None` when the process dies in the search. */
  function BootFire(file: Option<Saved>, c: Config, now: Instant, utcnow: Instant): Option<int>
    requires now.Valid() && utcnow.Valid()
  {
    var reading := if c.Interval? then now else utcnow;
    match FreshFire(c, reading)
    case None => None
    case Some(computed) => Some(ApplyCatchup(computed, LoadPersisted(file, c), now.Stamp()))
  }

  /** What `handle_wait_for_trigger` answers, from its clock readings. */
  function CallReply(c: Config, next: int, waitStart: Option<int>, maxWait: Option<int>,
                     now: Instant, woken: Instant, later: Instant): Reply
    requires now.Valid() && woken.Valid() && later.Valid()
  {
    var start := if waitStart.None? then now.Stamp() else waitStart.value;
    if maxWait.Some? && now.Stamp() - start >= maxWait.value * MICROS_PER_SECOND then TimedOut(Some(next))
    else if woken.Stamp() >= next then
      match FreshFire(c, later)
      case None => TimedOut(None)
      case Some(computed) => Fired(next, computed)
    else Waiting(next)
  }

  lemma FreshFireIsLater(c: Config, now: Instant)
    requires c.Valid() && now.Valid() && FreshFire(c, now).Some?
    ensures FreshFire(c, now).value > now.Stamp()
  {
    if c.Cron? {
      NextFireIsTheFirst(c.schedule, now);
    }
  }

  /** `fire` is what the schedule gives next after the reading: the interval later, or the next fire. */
  predicate IsNext(c: Config, now: Instant, fire: int)
    requires now.Valid()
  {
    match c
    case Interval(_, seconds) => fire == now.Stamp() + seconds * 1_000_000
    case Cron(_, schedule) =>
      NextFire(schedule, now).Some? && fire == NextFire(schedule, now).value.Minutes() * 60_000_000
  }

  lemma FreshFireIsNext(c: Config, now: Instant)
    requires now.Valid()
    ensures match FreshFire(c, now)
            case Some(fire) => IsNext(c, now, fire)
            case None => c.Cron? && NextFire(c.schedule, now).None?
  {
  }

  /** The state file holds a due fire of this very schedule. */
  predicate Missed(file: Option<Saved>, c: Config, now: int) {
    && file.Some? && file.value.next <= now
    && file.value.spec == (if c.Cron? then "cron:" else "interval:") + c.text
  }

  /** Until the fire or the end of the requested seconds, at least 1 and at most 25, whichever comes first. */
  function SleepTime(timeout: int, now: int, next: int): int {
    var seconds := if timeout < 1 then 1 else if timeout > 25 then 25 else timeout;
    if next <= now then 0 else if next - now <= seconds * 1_000_000 then next - now else seconds * 1_000_000
  }

  // ----- the process, whose calls are steps of the runs below -----

  /** The module state of the sidecar, the file it keeps, and the history of its caller. */
  class Trigger {
    const config: Config
    const maxWait: Option<int>
    const durable: bool
    var next: int
    var waitStart: Option<int>
    var file: Option<Saved>
    ghost var up: bool
    ghost var fires: seq<Fire>
    ghost var clock: int

    ghost function Value(): World
      reads this
    {
      World(file, if up then Some(Proc(config, maxWait, next, waitStart)) else None, fires, clock)
    }

    constructor (config: Config, maxWait: Option<int>, durable: bool, file: Option<Saved>,
                 ghost fires: seq<Fire>, ghost clock: int)
      requires config.Valid() && (maxWait.Some? ==> maxWait.value >= 1)
      ensures this.config == config && this.maxWait == maxWait && this.durable == durable
      ensures Valid() && Value() == World(file, None, fires, clock)
    {
      this.config, this.maxWait, this.durable := config, maxWait, durable;
      this.next, this.waitStart, this.file := 0, None, file;
      this.up, this.fires, this.clock := false, fires, clock;
    }

    ghost predicate Valid()
      reads this
    {
      config.Valid() && (maxWait.Some? ==> maxWait.value >= 1) && (!up ==> waitStart == None)
    }

    /** `_persist_next`: written aside and renamed; skipped without a state directory, and best effort. */
    method PersistNext(disk: bool)
      modifies this`file
      ensures file == if durable && disk then Some(Saved(next, config.Fingerprint())) else old(file)
      ensures durable && disk ==> file.value.spec == (if config.Cron? then "cron:" else "interval:") + config.text
    {
      if durable && disk {
        file := Some(Saved(next, config.Fingerprint()));
      }
    }

    method Fresh(now: Instant) returns (r: Option<int>)
      requires now.Valid()
      ensures r == FreshFire(config, now)
    {
      match config {
        case Interval(_, seconds) => r := Some(now.Stamp() + seconds * MICROS_PER_SECOND);
        case Cron(_, schedule) =>
          var t := NextFireCron(schedule, now);
          r := if t.None? then None else Some(t.value.Micros());
      }
    }

    /** `_init`, from the point where the schedule is known; on a working disk it is a boot of the run model. */
    method Init(now: Instant, utcnow: Instant, disk: bool) returns (ok: bool)
      requires Valid() && !up && now.Valid() && utcnow.Valid()
      modifies this
      ensures Valid()
      ensures var decided := BootFire(if durable then old(file) else None, config, now, utcnow);
              && ok == decided.Some?
              && (ok ==> next == decided.value)
              && file == if ok && durable && disk then Some(Saved(next, config.Fingerprint())) else old(file)
      ensures ok ==> if durable && Missed(old(file), config, now.Stamp()) then next == now.Stamp()
                     else IsNext(config, if config.Interval? then now else utcnow, next)
      ensures durable && disk && Enabled(old(Value()), Boot(config, maxWait, now, utcnow, NoCrash))
              ==> Value() == Do(old(Value()), Boot(config, maxWait, now, utcnow, NoCrash))
    {
      clock := utcnow.Stamp();
      FreshFireIsNext(config, if config.Interval? then now else utcnow);
      var persisted := if durable then LoadPersisted(file, config) else None;
      var computed := Fresh(if config.Interval? then now else utcnow);
      if computed.None? {
        return false;
      }
      next := ApplyCatchup(computed.value, persisted, now.Stamp());
      PersistNext(disk);
      up := true;
      return true;
    }

    /** `_advance_next_fire`; a search that raises changes nothing. */
    method AdvanceNextFire(now: Instant, disk: bool) returns (found: bool)
      requires now.Valid()
      modifies this`next, this`file
      ensures found == FreshFire(config, now).Some?
      ensures next == if found then FreshFire(config, now).value else old(next)
      ensures found ==> IsNext(config, now, next)
      ensures file == if found && durable && disk then Some(Saved(next, config.Fingerprint())) else old(file)
    {
      FreshFireIsNext(config, now);
      var computed := Fresh(now);
      found := computed.Some?;
      if found {
        next := computed.value;
        PersistNext(disk);
      }
    }

    /**
     `handle_wait_for_trigger`: `slept` is how long it sleeps between its first two readings. On a
     working disk it is a call of the run model.
     */
    method Wait(timeout: int, now: Instant, woken: Instant, later: Instant, disk: bool)
      returns (reply: Reply, slept: int)
      requires Valid() && up && now.Valid() && woken.Valid() && later.Valid()
      modifies this
      ensures Valid()
      ensures reply == CallReply(config, old(next), old(waitStart), maxWait, now, woken, later)
      ensures slept == (if reply.TimedOut? && reply.upcoming.Some? then 0
                        else SleepTime(timeout, now.Stamp(), old(next)))
      ensures reply.Waiting? ==> reply.next == old(next) && woken.Stamp() < old(next)
      ensures reply.Fired? ==> reply.due == old(next) <= woken.Stamp() && IsNext(config, later, reply.next)
      ensures reply.TimedOut? ==>
                if reply.upcoming.Some? then
                  && reply.upcoming.value == old(next) && maxWait.Some? && old(waitStart).Some?
                  && now.Stamp() - old(waitStart).value >= maxWait.value * 1_000_000
                else old(next) <= woken.Stamp() && config.Cron? && NextFire(config.schedule, later).None?
      ensures reply.Fired? ==>
                && next == reply.next && waitStart == None
                && file == if durable && disk then Some(Saved(next, config.Fingerprint())) else old(file)
      ensures !reply.Fired? ==>
                && next == old(next) && file == old(file)
                && waitStart == (if old(waitStart).None? then Some(now.Stamp()) else old(waitStart))
      ensures durable && disk && Enabled(old(Value()), Call(now, woken, later, NoCrash))
              ==> Value() == Do(old(Value()), Call(now, woken, later, NoCrash))
    {
      reply, slept := Answer(timeout, now, woken, later, disk);
      if durable && disk && Enabled(old(Value()), Call(now, woken, later, NoCrash)) {
        WholeCall(old(Value()), now, woken, later, reply);
      }
    }

    /** The handler itself; `Wait` adds what it means in the run model. */
    method Answer(timeout: int, now: Instant, woken: Instant, later: Instant, disk: bool)
      returns (reply: Reply, slept: int)
      requires Valid() && up && now.Valid() && woken.Valid() && later.Valid()
      modifies this
      ensures Valid() && up && clock == later.Stamp()
      ensures reply == CallReply(config, old(next), old(waitStart), maxWait, now, woken, later)
      ensures slept == (if reply.TimedOut? && reply.upcoming.Some? then 0
                        else SleepTime(timeout, now.Stamp(), old(next)))
      ensures reply.Waiting? ==> reply.next == old(next) && woken.Stamp() < old(next)
      ensures reply.Fired? ==> reply.due == old(next) <= woken.Stamp() && IsNext(config, later, reply.next)
      ensures reply.TimedOut? ==>
                if reply.upcoming.Some? then
                  && reply.upcoming.value == old(next) && maxWait.Some? && old(waitStart).Some?
                  && now.Stamp() - old(waitStart).value >= maxWait.value * 1_000_000
                else old(next) <= woken.Stamp() && config.Cron? && NextFire(config.schedule, later).None?
      ensures reply.Fired? ==>
                && next == reply.next && waitStart == None && fires == old(fires) + [Fire(old(next), later.Stamp())]
                && file == if durable && disk then Some(Saved(next, config.Fingerprint())) else old(file)
      ensures !reply.Fired? ==>
                && next == old(next) && file == old(file) && fires == old(fires)
                && waitStart == (if old(waitStart).None? then Some(now.Stamp()) else old(waitStart))
    {
      var limit := Max(1, Min(timeout, MAX_TIMEOUT_S));
      slept := 0;
      clock := later.Stamp();
      FreshFireIsNext(config, later);
      if waitStart.None? {
        waitStart := Some(now.Stamp());
      }
      if maxWait.Some? {
        var elapsed := now.Stamp() - waitStart.value;
        if elapsed >= maxWait.value * MICROS_PER_SECOND {
          return TimedOut(Some(next)), 0;
        }
      }
      var waitUntil := Min(next, now.Stamp() + limit * MICROS_PER_SECOND);
      var remaining := waitUntil - now.Stamp();
      if remaining > 0 {
        slept := remaining;
      }
      if woken.Stamp() >= next {
        var due := next;
        var found := AdvanceNextFire(later, disk);
        if !found {
          return TimedOut(None), slept;
        }
        waitStart := None;
        fires := fires + [Fire(due, clock)];
        return Fired(due, next), slept;
      }
      return Waiting(next), slept;
    }
  }

  // ----- runs with crashes and restarts -----

  datatype Proc = Proc(config: Config, maxWait: Option<int>, next: int, waitStart: Option<int>)

  /** A fire the caller was told about: when it was due and the clock when it was answered. */
  datatype Fire = Fire(due: int, at: int)

  /** The durable file, the process if one is up, and what was answered so far. */
  datatype World = World(file: Option<Saved>, proc: Option<Proc>, fires: seq<Fire>, clock: int)

  datatype Crash = NoCrash | BeforePersist | AfterPersist

  datatype Step =
    | Boot(config: Config, maxWait: Option<int>, now: Instant, utcnow: Instant, crash: Crash)
    | Call(now: Instant, woken: Instant, later: Instant, crash: Crash)
    | Kill

  /** Clock readings never go back, a process boots only when none is up, and calls need one. */
  predicate Enabled(w: World, step: Step) {
    match step
    case Boot(c, m, now, utcnow, _) =>
      && w.proc.None? && c.Valid() && (m.Some? ==> m.value >= 1)
      && now.Valid() && utcnow.Valid()
      && w.clock <= now.Stamp() <= utcnow.Stamp()
    case Call(now, woken, later, _) =>
      && w.proc.Some? && now.Valid() && woken.Valid() && later.Valid()
      && w.clock <= now.Stamp() <= woken.Stamp() <= later.Stamp()
    case Kill => true
  }

  /** The effects of a boot that decided on `next`, up to where it crashes. */
  function BootEffect(w: World, c: Config, m: Option<int>, decided: Option<int>, crash: Crash): World {
    match decided
    case None => w
    case Some(next) =>
      var saved := w.(file := Some(Saved(next, c.Fingerprint())));
      match crash
      case BeforePersist => w
      case AfterPersist => saved
      case NoCrash => saved.(proc := Some(Proc(c, m, next, None)))
  }

  /** The effects of a call that was answered with `reply`, up to where it crashes. */
  function CallEffect(w: World, p: Proc, reply: Reply, now: int, crash: Crash): World {
    match reply
    case Fired(due, next) =>
      var saved := w.(file := Some(Saved(next, p.config.Fingerprint())));
      (match crash
       case BeforePersist => w.(proc := None)
       case AfterPersist => saved.(proc := None)
       case NoCrash => saved.(proc := Some(p.(next := next, waitStart := None)),
                              fires := w.fires + [Fire(due, w.clock)]))
    case _ =>
      var started := p.(waitStart := if p.waitStart.None? then Some(now) else p.waitStart);
      w.(proc := if crash.NoCrash? then Some(started) else None)
  }

  function Do(w: World, step: Step): World
    requires Enabled(w, step)
  {
    match step
    case Kill => w.(proc := None)
    case Boot(c, m, now, utcnow, crash) =>
      BootEffect(w.(clock := utcnow.Stamp()), c, m, BootFire(w.file, c, now, utcnow), crash)
    case Call(now, woken, later, crash) =>
      var p := w.proc.value;
      var reply := CallReply(p.config, p.next, p.waitStart, p.maxWait, now, woken, later);
      CallEffect(w.(clock := later.Stamp()), p, reply, now.Stamp(), crash)
  }

  /** A call that is not cut short, in terms of its reply. */
  lemma WholeCall(w: World, now: Instant, woken: Instant, later: Instant, reply: Reply)
    requires Enabled(w, Call(now, woken, later, NoCrash))
    requires var p := w.proc.value;
             reply == CallReply(p.config, p.next, p.waitStart, p.maxWait, now, woken, later)
    ensures Do(w, Call(now, woken, later, NoCrash))
         == CallEffect(w.(clock := later.Stamp()), w.proc.value, reply, now.Stamp(), NoCrash)
  {
  }

  const START := World(None, None, [], 0)

  predicate Legal(w: World, steps: seq<Step>)
    decreases |steps|
  {
    steps == [] || (Enabled(w, steps[0]) && Legal(Do(w, steps[0]), steps[1..]))
  }

  function After(w: World, steps: seq<Step>): World
    requires Legal(w, steps)
    decreases |steps|
  {
    if steps == [] then w else After(Do(w, steps[0]), steps[1..])
  }

  /** Where a stored fire comes from: it is already due, or the schedule gave it at some past reading. */
  ghost predicate Explained(s: Saved, clock: int) {
    || s.next <= clock
    || exists c: Config, a: Instant ::
         c.Valid() && a.Valid() && a.Stamp() <= clock && c.Fingerprint() == s.spec && FreshFire(c, a) == Some(s.next)
  }

  ghost predicate Safe(w: World) {
    && (w.proc.Some? ==> w.proc.value.config.Valid()
                         && (w.proc.value.maxWait.Some? ==> w.proc.value.maxWait.value >= 1)
                         && w.file == Some(Saved(w.proc.value.next, w.proc.value.config.Fingerprint())))
    && (w.fires != [] ==> w.file.Some?)
    && (w.file.Some? ==> Explained(w.file.value, w.clock))
    // never early, and the caller is answered within the clock
    && (forall f :: f in w.fires ==> f.due <= f.at <= w.clock)
    // each due time is later than the answer to the fire before it
    && (forall i, j :: 0 <= i < j < |w.fires| ==> w.fires[i].at < w.fires[j].due)
    && (w.file.Some? ==> forall f :: f in w.fires ==> f.at < w.file.value.next)
  }

  lemma SafeTick(w: World, clock: int)
    requires Safe(w) && w.clock <= clock
    ensures Safe(w.(clock := clock))
  {
    if w.file.Some? && w.file.value.next > w.clock {
      var s := w.file.value;
      var c: Config, a: Instant :|
        c.Valid() && a.Valid() && a.Stamp() <= w.clock && c.Fingerprint() == s.spec && FreshFire(c, a) == Some(s.next);
      assert a.Stamp() <= clock;
    }
  }

  /** Storing a new fire, with the process gone or holding that same fire. */
  lemma SafeStore(w: World, s: Saved, proc: Option<Proc>)
    requires Safe(w) && Explained(s, w.clock)
    requires forall f :: f in w.fires ==> f.at < s.next
    requires proc.Some? ==> proc.value.config.Valid() && s == Saved(proc.value.next, proc.value.config.Fingerprint())
    requires proc.Some? && proc.value.maxWait.Some? ==> proc.value.maxWait.value >= 1
    ensures Safe(w.(file := Some(s), proc := proc))
  {
  }

  /** Answering the fire that is stored, and storing a later one. */
  lemma SafeAnswer(w: World, due: int, s: Saved, p: Proc)
    requires Safe(w) && Explained(s, w.clock) && w.clock < s.next
    requires w.file.Some? && w.file.value.next == due <= w.clock
    requires p.config.Valid() && s == Saved(p.next, p.config.Fingerprint())
    requires p.maxWait.Some? ==> p.maxWait.value >= 1
    ensures Safe(w.(file := Some(s), proc := Some(p), fires := w.fires + [Fire(due, w.clock)]))
  {
  }

  /** The fire a boot decides on is later than every answered one, and explained. */
  lemma BootFireIsSound(w: World, c: Config, now: Instant, utcnow: Instant)
    requires Safe(w) && c.Valid() && now.Valid() && utcnow.Valid()
    requires w.clock <= now.Stamp() <= utcnow.Stamp()
    requires BootFire(w.file, c, now, utcnow).Some?
    ensures var next := BootFire(w.file, c, now, utcnow).value;
            && Explained(Saved(next, c.Fingerprint()), utcnow.Stamp())
            && forall f :: f in w.fires ==> f.at < next
  {
    var reading := if c.Interval? then now else utcnow;
    FreshFireIsLater(c, reading);
  }

  lemma BootEffectIsSafe(w: World, c: Config, m: Option<int>, decided: Option<int>, crash: Crash)
    requires Safe(w) && c.Valid() && (m.Some? ==> m.value >= 1)
    requires decided.Some? ==> Explained(Saved(decided.value, c.Fingerprint()), w.clock)
                               && forall f :: f in w.fires ==> f.at < decided.value
    requires w.proc.None?
    ensures Safe(BootEffect(w, c, m, decided, crash))
  {
    if decided.Some? {
      var s := Saved(decided.value, c.Fingerprint());
      SafeStore(w, s, None);
      SafeStore(w, s, Some(Proc(c, m, decided.value, None)));
    }
  }

  /** A fire that is answered was stored and is due; the next one lies beyond the clock. */
  lemma CallReplyIsSound(p: Proc, now: Instant, woken: Instant, later: Instant)
    requires p.config.Valid() && now.Valid() && woken.Valid() && later.Valid()
    requires woken.Stamp() <= later.Stamp()
    ensures match CallReply(p.config, p.next, p.waitStart, p.maxWait, now, woken, later)
            case Fired(due, next) =>
              && due == p.next <= later.Stamp() < next
              && Explained(Saved(next, p.config.Fingerprint()), later.Stamp())
            case _ => true
  {
    if FreshFire(p.config, later).Some? {
      FreshFireIsLater(p.config, later);
    }
  }

  lemma CallEffectIsSafe(w: World, p: Proc, reply: Reply, now: int, crash: Crash)
    requires Safe(w) && w.proc == Some(p)
    requires reply.Fired? ==> reply.due == p.next <= w.clock < reply.next
                              && Explained(Saved(reply.next, p.config.Fingerprint()), w.clock)
    ensures Safe(CallEffect(w, p, reply, now, crash))
  {
    if reply.Fired? {
      var s := Saved(reply.next, p.config.Fingerprint());
      SafeStore(w, s, None);
      SafeAnswer(w, reply.due, s, p.(next := reply.next, waitStart := None));
    }
  }

  lemma StepKeepsSafe(w: World, step: Step)
    requires Safe(w) && Enabled(w, step)
    ensures Safe(Do(w, step))
  {
    match step
    case Kill =>
    case Boot(c, m, now, utcnow, crash) =>
      var decided := BootFire(w.file, c, now, utcnow);
      SafeTick(w, utcnow.Stamp());
      if decided.Some? {
        BootFireIsSound(w, c, now, utcnow);
      }
      BootEffectIsSafe(w.(clock := utcnow.Stamp()), c, m, decided, crash);
    case Call(now, woken, later, crash) =>
      var p := w.proc.value;
      SafeTick(w, later.Stamp());
      CallReplyIsSound(p, now, woken, later);
      var reply := CallReply(p.config, p.next, p.waitStart, p.maxWait, now, woken, later);
      CallEffectIsSafe(w.(clock := later.Stamp()), p, reply, now.Stamp(), crash);
  }

  /**
   Every run of boots, calls, kills and crashes between any two effects, under changing schedules:
   no fire is early, and fires strictly increase.
   */
  lemma {:induction false} RunsAreSafe(w: World, steps: seq<Step>)
    requires Safe(w) && Legal(w, steps)
    ensures Safe(After(w, steps))
    decreases |steps|
  {
    if steps != [] {
      StepKeepsSafe(w, steps[0]);
      RunsAreSafe(Do(w, steps[0]), steps[1..]);
    }
  }

  /** From a first boot on: fires are never early, and both due times and answers strictly increase. */
  lemma FiresAreOrdered(steps: seq<Step>)
    requires Legal(START, steps)
    ensures var fires := After(START, steps).fires;
            && (forall f :: f in fires ==> f.due <= f.at)
            && (forall i, j :: 0 <= i < j < |fires| ==> fires[i].due <= fires[i].at < fires[j].due <= fires[j].at)
  {
    RunsAreSafe(START, steps);
    var fires := After(START, steps).fires;
    forall i | 0 <= i < |fires| ensures fires[i].due <= fires[i].at {
      assert fires[i] in fires;
    }
  }

  /**
   Restart transparency in cron mode. With the schedule unchanged and the stored fire still ahead at
   the first clock reading, the boot decides on that same fire exactly when its second reading is
   still before it too. In any case what it decides on lies beyond the second reading, and it dies
   exactly when the search raises there.
   */
  lemma RestartIsTransparent(steps: seq<Step>, c: Config, now: Instant, utcnow: Instant)
    requires Legal(START, steps) && c.Valid() && c.Cron?
    requires now.Valid() && utcnow.Valid() && After(START, steps).clock <= now.Stamp() <= utcnow.Stamp()
    requires LoadPersisted(After(START, steps).file, c).Some?
    requires now.Stamp() < After(START, steps).file.value.next
    ensures BootFire(After(START, steps).file, c, now, utcnow) == Some(After(START, steps).file.value.next)
       <==> utcnow.Stamp() < After(START, steps).file.value.next
    ensures BootFire(After(START, steps).file, c, now, utcnow).Some?
            ==> BootFire(After(START, steps).file, c, now, utcnow).value > utcnow.Stamp()
    ensures BootFire(After(START, steps).file, c, now, utcnow).None? <==> FreshFire(c, utcnow).None?
  {
    var w := After(START, steps);
    var s := w.file.value;
    RunsAreSafe(START, steps);
    var d: Config, a: Instant :|
      d.Valid() && a.Valid() && a.Stamp() <= w.clock && d.Fingerprint() == s.spec && FreshFire(d, a) == Some(s.next);
    SameText(c, d);
    AheadBootIsFresh(w.file, c, now, utcnow);
    FreshFireIsStable(c, a, utcnow);
    if FreshFire(c, utcnow).Some? {
      FreshFireIsLater(c, utcnow);
    }
  }

  /** With the stored fire still ahead, a cron boot decides on the freshly computed one. */
  lemma AheadBootIsFresh(file: Option<Saved>, c: Config, now: Instant, utcnow: Instant)
    requires c.Cron? && now.Valid() && utcnow.Valid()
    requires LoadPersisted(file, c).Some? && now.Stamp() < LoadPersisted(file, c).value
    ensures BootFire(file, c, now, utcnow) == FreshFire(c, utcnow)
  {
  }

  /** Computing again gives the same fire exactly as long as it lies ahead. */
  lemma FreshFireIsStable(c: Config, early: Instant, late: Instant)
    requires c.Valid() && c.Cron? && early.Valid() && late.Valid() && early.Stamp() <= late.Stamp()
    requires FreshFire(c, early).Some?
    ensures FreshFire(c, late) == FreshFire(c, early) <==> late.Stamp() < FreshFire(c, early).value
  {
    if late.Stamp() < FreshFire(c, early).value {
      NextFireIsStable(c.schedule, early, late);
    } else if FreshFire(c, late).Some? {
      FreshFireIsLater(c, late);
    }
  }

  /** Equal fingerprints of a cron schedule mean the same schedule. */
  lemma SameText(c: Config, d: Config)
    requires c.Valid() && d.Valid() && c.Cron? && c.Fingerprint() == d.Fingerprint()
    ensures c == d
  {
    assert c.Fingerprint()[0] == 'c';
    assert d.Cron?;
    assert c.text == c.Fingerprint()[5..] == d.Fingerprint()[5..] == d.text;
  }

  /** An interval is not transparent: a restart before the fire counts the whole interval again. */
  lemma IntervalRestartPostpones(c: Config, last: Instant, now: Instant, utcnow: Instant)
    requires c.Valid() && c.Interval? && last.Valid() && now.Valid() && utcnow.Valid()
    requires last.Stamp() < now.Stamp() < FreshFire(c, last).value
    ensures BootFire(Some(Saved(FreshFire(c, last).value, c.Fingerprint())), c, now, utcnow)
         == Some(FreshFire(c, last).value + (now.Stamp() - last.Stamp()))
  {
  }

  /** Steps that neither answer a fire nor store one that was taken. */
  predicate Undelivering(step: Step, c: Config) {
    match step
    case Boot(d, _, _, _, _) => d == c
    case Call(_, _, _, crash) => crash.BeforePersist?
    case Kill => true
  }

  ghost predicate Due(w: World, c: Config) {
    w.file.Some? && w.file.value.spec == c.Fingerprint() && w.file.value.next <= w.clock
  }

  lemma DueBootCatchesUp(file: Option<Saved>, c: Config, now: Instant, utcnow: Instant)
    requires now.Valid() && utcnow.Valid()
    requires LoadPersisted(file, c).Some? && LoadPersisted(file, c).value <= now.Stamp()
    ensures var decided := BootFire(file, c, now, utcnow); decided.None? || decided == Some(now.Stamp())
  {
  }

  lemma DueStep(w: World, step: Step, c: Config)
    requires Safe(w) && Due(w, c) && Enabled(w, step) && Undelivering(step, c)
    ensures Due(Do(w, step), c) && Do(w, step).fires == w.fires
  {
    match step
    case Kill =>
    case Boot(_, m, now, utcnow, crash) => DueBootCatchesUp(w.file, c, now, utcnow);
    case Call(now, woken, later, crash) =>
  }

  /** A due fire stays due through any number of crashes and restarts until it is answered. */
  lemma {:induction false} DueStaysDue(w: World, steps: seq<Step>, c: Config)
    requires Safe(w) && Due(w, c) && Legal(w, steps)
    requires forall i :: 0 <= i < |steps| ==> Undelivering(steps[i], c)
    ensures Due(After(w, steps), c) && After(w, steps).fires == w.fires
    decreases |steps|
  {
    if steps != [] {
      StepKeepsSafe(w, steps[0]);
      assert Undelivering(steps[0], c);
      DueStep(w, steps[0], c);
      DueStaysDue(Do(w, steps[0]), steps[1..], c);
    }
  }

  /**
   What becomes of a due fire in one call: it is answered, or it is still due, exactly unless the
   process dies between storing the next fire and answering this one.
   */
  lemma CallLosesFireIff(w: World, call: Step)
    requires Safe(w) && call.Call? && Enabled(w, call)
    requires CallReply(w.proc.value.config, w.proc.value.next, w.proc.value.waitStart, w.proc.value.maxWait,
                       call.now, call.woken, call.later).Fired?
    ensures Do(w, call).fires == w.fires + [Fire(w.proc.value.next, call.later.Stamp())]
            || Due(Do(w, call), w.proc.value.config)
       <==> !call.crash.AfterPersist?
  {
    CallReplyIsSound(w.proc.value, call.now, call.woken, call.later);
  }

  /**
   A fire missed while down: the boot makes it due at once, the first call answers exactly it without
   sleeping, and what is stored then lies beyond that call's clock.
   */
  lemma MissedFireIsAnsweredOnce(w: World, boot: Step, call: Step)
    requires Safe(w) && boot.Boot? && boot.crash.NoCrash? && Enabled(w, boot)
    requires w.file.Some? && w.file.value.spec == boot.config.Fingerprint()
    requires w.file.value.next <= boot.now.Stamp()
    requires Do(w, boot).proc.Some?
    requires call.Call? && call.crash.NoCrash? && Enabled(Do(w, boot), call)
    requires FreshFire(boot.config, call.later).Some?
    ensures var v := Do(Do(w, boot), call);
            && v.fires == w.fires + [Fire(boot.now.Stamp(), call.later.Stamp())]
            && v.proc.Some? && v.proc.value.next == v.file.value.next > call.later.Stamp()
            && Do(w, boot).proc.value.next <= call.now.Stamp()
  {
    FreshFireIsLater(boot.config, call.later);
  }

  // ----- fires that are never answered -----

  /** The due time `d` was not answered, and nothing stored leads back to it. */
  predicate Passed(w: World, d: int) {
    w.file.Some? && w.file.value.next > d && forall f :: f in w.fires ==> f.due != d
  }

  ghost predicate Behind(w: World, d: int) {
    Safe(w) && d <= w.clock && Passed(w, d)
  }

  lemma DecidedPasses(file: Option<Saved>, c: Config, now: Instant, utcnow: Instant, d: int)
    requires now.Valid() && utcnow.Valid() && d <= now.Stamp() <= utcnow.Stamp()
    requires file.Some? && file.value.next > d && BootFire(file, c, now, utcnow).Some? && c.Valid()
    ensures BootFire(file, c, now, utcnow).value > d
  {
    FreshFireIsLater(c, if c.Interval? then now else utcnow);
  }

  lemma BootPasses(w: World, boot: Step, d: int)
    requires Behind(w, d) && boot.Boot? && Enabled(w, boot)
    ensures Passed(Do(w, boot), d)
  {
    if BootFire(w.file, boot.config, boot.now, boot.utcnow).Some? {
      DecidedPasses(w.file, boot.config, boot.now, boot.utcnow, d);
    }
  }

  lemma CallPasses(w: World, call: Step, d: int)
    requires Behind(w, d) && call.Call? && Enabled(w, call)
    ensures Passed(Do(w, call), d)
  {
    CallReplyIsSound(w.proc.value, call.now, call.woken, call.later);
  }

  lemma ClockGrows(w: World, step: Step)
    requires Enabled(w, step)
    ensures w.clock <= Do(w, step).clock
  {
  }

  lemma BehindStep(w: World, step: Step, d: int)
    requires Behind(w, d) && Enabled(w, step)
    ensures Behind(Do(w, step), d)
  {
    StepKeepsSafe(w, step);
    ClockGrows(w, step);
    if step.Boot? {
      BootPasses(w, step, d);
    } else if step.Call? {
      CallPasses(w, step, d);
    }
  }

  /** A due time that is behind is not answered by any continuation. */
  lemma {:induction false} BehindForGood(w: World, steps: seq<Step>, d: int)
    requires Behind(w, d) && Legal(w, steps)
    ensures Behind(After(w, steps), d)
    decreases |steps|
  {
    if steps != [] {
      BehindStep(w, steps[0], d);
      BehindForGood(Do(w, steps[0]), steps[1..], d);
    }
  }

  /** A boot at which the stored fire falls due between the two clock readings. */
  predicate Straddles(w: World, boot: Step) {
    && boot.Boot? && boot.config.Cron? && Enabled(w, boot) && LoadPersisted(w.file, boot.config).Some?
    && boot.now.Stamp() < w.file.value.next <= boot.utcnow.Stamp()
  }

  /** Such a boot, once it has stored what it decided on, skips that fire for good. */
  lemma SkippedForGood(w: World, boot: Step, more: seq<Step>)
    requires Safe(w) && Straddles(w, boot) && !boot.crash.BeforePersist?
    requires BootFire(w.file, boot.config, boot.now, boot.utcnow).Some? && Legal(Do(w, boot), more)
    ensures forall f :: f in After(Do(w, boot), more).fires ==> f.due != w.file.value.next
  {
    StepKeepsSafe(w, boot);
    AheadBootIsFresh(w.file, boot.config, boot.now, boot.utcnow);
    FreshFireIsLater(boot.config, boot.utcnow);
    BehindForGood(Do(w, boot), more, w.file.value.next);
  }

  /** A call that would answer but dies after storing the next fire. */
  predicate DiesAnswering(w: World, call: Step) {
    && call.Call? && call.crash.AfterPersist? && Enabled(w, call)
    && CallReply(w.proc.value.config, w.proc.value.next, w.proc.value.waitStart, w.proc.value.maxWait,
                 call.now, call.woken, call.later).Fired?
  }

  /** The fire of such a call is lost for good. */
  lemma LostForGood(w: World, call: Step, more: seq<Step>)
    requires Safe(w) && DiesAnswering(w, call) && Legal(Do(w, call), more)
    ensures forall f :: f in After(Do(w, call), more).fires ==> f.due != w.proc.value.next
  {
    StepKeepsSafe(w, call);
    CallReplyIsSound(w.proc.value, call.now, call.woken, call.later);
    BehindForGood(Do(w, call), more, w.proc.value.next);
  }

  const EVERY_MINUTE := "* * * * *"

  lemma EveryMinuteWords()
    ensures Words(EVERY_MINUTE) == ["*", "*", "*", "*", "*"]
  {
    assert Words("*") == ["*"];
    assert Words("* *") == ["*"] + ["*"];
    assert Words("* * *") == ["*"] + ["*", "*"];
    assert Words("* * * *") == ["*"] + ["*", "*", "*"];
    assert Words(EVERY_MINUTE) == ["*"] + ["*", "*", "*", "*"];
  }

  lemma StarIsAField(lo: int, hi: int)
    ensures FieldValues("*", lo, hi).Some?
  {
    SplitAtom("*", ',');
    assert Strip("*") == "*";
  }

  lemma EveryMinuteParses()
    ensures Words(EVERY_MINUTE) == ["*", "*", "*", "*", "*"] && CronOf(EVERY_MINUTE).Some?
  {
    EveryMinuteWords();
    StarIsAField(0, 59);
    StarIsAField(0, 23);
    StarIsAField(1, 31);
    StarIsAField(1, 12);
    StarIsAField(0, 7);
  }

  /** The schedule that fires every minute. */
  lemma EveryMinute() returns (c: Config)
    ensures c.Valid() && c.Cron? && forall a: Instant :: a.Valid() ==> FreshFire(c, a).Some?
  {
    EveryMinuteParses();
    c := Cron(EVERY_MINUTE, CronOf(EVERY_MINUTE).value);
    forall a: Instant | a.Valid() ensures FreshFire(c, a).Some? {
      AcceptedExpressionFires(EVERY_MINUTE, a);
    }
  }

  lemma WholeMinuteAway(s: Schedule, a: Instant, r: DateTime)
    requires a.Valid() && a.micros == 0 && NextFire(s, a) == Some(r)
    ensures r.Valid() && a.Stamp() + MICROS_PER_SECOND <= r.Micros()
  {
    NextFireIsTheFirst(s, a);
    LaterIsNextMinute(a, r);
  }

  /** A first boot that stores the fire of a schedule at noon of the year's first day. */
  lemma FirstBoot(c: Config, maxWait: Option<int>, crash: Crash) returns (boot: Step, t: Instant)
    requires c.Valid() && c.Cron? && !crash.BeforePersist? && forall a: Instant :: a.Valid() ==> FreshFire(c, a).Some?
    requires maxWait.Some? ==> maxWait.value >= 1
    ensures boot.Boot? && boot.config == c && boot.maxWait == maxWait && boot.crash == crash && Enabled(START, boot)
    ensures t.Valid() && boot.now.Stamp() == boot.utcnow.Stamp() == Do(START, boot).clock
    ensures boot.utcnow.Stamp() + MICROS_PER_SECOND <= t.Stamp() && Do(START, boot).fires == []
    ensures Do(START, boot).file == Some(Saved(t.Stamp(), c.Fingerprint()))
    ensures crash.AfterPersist? ==> Do(START, boot).proc.None?
    ensures crash.NoCrash? ==> Do(START, boot).proc == Some(Proc(c, maxWait, t.Stamp(), None))
  {
    var a := Instant(DateTime(2024, 1, 1, 12, 0), 0);
    var r := NextFire(c.schedule, a).value;
    WholeMinuteAway(c.schedule, a, r);
    t := Instant(r, 0);
    boot := Boot(c, maxWait, a, a, crash);
    assert BootFire(None, c, a, a) == Some(t.Stamp());
  }

  /** Both happen: a first boot, a crash, and a second boot whose readings straddle the stored fire. */
  lemma SkipIsReachable() returns (first: Step, boot: Step)
    ensures Enabled(START, first) && Straddles(Do(START, first), boot) && boot.crash.NoCrash?
    ensures var w := Do(START, first); BootFire(w.file, boot.config, boot.now, boot.utcnow).Some?
  {
    var c := EveryMinute();
    var t;
    first, t := FirstBoot(c, None, AfterPersist);
    boot := Boot(c, None, first.utcnow, t, NoCrash);
    AheadBootIsFresh(Do(START, first).file, c, boot.now, t);
  }

  /** And a first boot with a call that dies answering. */
  lemma LossIsReachable() returns (first: Step, call: Step)
    ensures Enabled(START, first) && Enabled(Do(START, first), call) && DiesAnswering(Do(START, first), call)
  {
    var c := EveryMinute();
    var t;
    first, t := FirstBoot(c, None, NoCrash);
    call := Call(t, t, t, AfterPersist);
  }

  // ----- what the total limit strands -----

  /** A call at `now` finds the total waiting time of the process used up. */
  predicate Expired(p: Proc, now: int) {
    p.maxWait.Some? && p.waitStart.Some? && now - p.waitStart.value >= p.maxWait.value * MICROS_PER_SECOND
  }

  /** A call that wakes on a due fire answers it exactly if the limit is not used up and the search succeeds. */
  lemma DueIsAnsweredIff(w: World, call: Step)
    requires Safe(w) && call.Call? && call.crash.NoCrash? && Enabled(w, call)
    requires w.proc.value.next <= call.woken.Stamp()
    ensures Do(w, call).fires == w.fires + [Fire(w.proc.value.next, call.later.Stamp())]
       <==> !Expired(w.proc.value, call.now.Stamp()) && FreshFire(w.proc.value.config, call.later).Some?
  {
    var p := w.proc.value;
    var reply := CallReply(p.config, p.next, p.waitStart, p.maxWait, call.now, call.woken, call.later);
    assert reply.Fired? <==> !Expired(p, call.now.Stamp()) && FreshFire(p.config, call.later).Some?;
    assert !reply.Fired? ==> Do(w, call).fires == w.fires;
  }

  /** Once a process has timed out, no further call of it answers anything, due or not. */
  lemma {:induction false} ExpiredForGood(w: World, calls: seq<Step>)
    requires Legal(w, calls) && forall i :: 0 <= i < |calls| ==> calls[i].Call?
    requires w.proc.Some? ==> Expired(w.proc.value, w.clock)
    ensures After(w, calls).fires == w.fires && After(w, calls).file == w.file
    decreases |calls|
  {
    if calls != [] {
      assert calls[0].Call?;
      ExpiredForGood(Do(w, calls[0]), calls[1..]);
    }
  }

  /** A first call before the fire starts the wait, and a second one that finds the limit used up ends it. */
  lemma TwoCallsExpire(w: World, p: Proc, now: Instant, t: Instant)
    requires w.proc == Some(p) && p.maxWait == Some(1) && p.waitStart.None?
    requires now.Valid() && t.Valid() && w.clock <= now.Stamp()
    requires now.Stamp() + MICROS_PER_SECOND <= t.Stamp() == p.next
    ensures var first, second := Call(now, now, now, NoCrash), Call(t, t, t, NoCrash);
            && Enabled(w, first) && Enabled(Do(w, first), second)
            && Do(Do(w, first), second) == w.(proc := Some(p.(waitStart := Some(now.Stamp()))), clock := t.Stamp())
  {
    var v := w.(proc := Some(p.(waitStart := Some(now.Stamp()))), clock := now.Stamp());
    WholeCall(w, now, now, now, Waiting(p.next));
    assert Do(w, Call(now, now, now, NoCrash)) == v;
    WholeCall(v, t, t, t, TimedOut(Some(p.next)));
  }

  lemma RunCons(w: World, a: Step, rest: seq<Step>)
    requires Enabled(w, a) && Legal(Do(w, a), rest)
    ensures Legal(w, [a] + rest) && After(w, [a] + rest) == After(Do(w, a), rest)
  {
    assert ([a] + rest)[1..] == rest;
  }

  lemma RunOfThree(w: World, a: Step, b: Step, c: Step)
    requires Enabled(w, a) && Enabled(Do(w, a), b) && Enabled(Do(Do(w, a), b), c)
    ensures Legal(w, [a] + ([b] + ([c] + []))) && After(w, [a] + ([b] + ([c] + []))) == Do(Do(Do(w, a), b), c)
  {
    RunCons(Do(Do(w, a), b), c, []);
    RunCons(Do(w, a), b, [c] + []);
    RunCons(w, a, [b] + ([c] + []));
  }

  /** The world `w` holds a due fire of `c` in a process that has timed out. */
  ghost predicate Stranded(w: World, c: Config) {
    Due(w, c) && w.proc.Some? && w.proc.value.config == c && Expired(w.proc.value, w.clock) && w.fires == []
  }

  /** A run from a first boot on that ends so: a call at once and one when the fire is due, past the limit. */
  lemma DueCanBeStranded() returns (c: Config, steps: seq<Step>)
    ensures c.Valid() && Legal(START, steps) && Stranded(After(START, steps), c)
  {
    c := EveryMinute();
    var boot, t := FirstBoot(c, Some(1), NoCrash);
    var now, w := boot.utcnow, Do(START, boot);
    var first, second := Call(now, now, now, NoCrash), Call(t, t, t, NoCrash);
    TwoCallsExpire(w, w.proc.value, now, t);
    RunOfThree(START, boot, first, second);
    steps := [boot] + ([first] + ([second] + []));
    assert Stranded(Do(Do(w, first), second), c);
  }
}
