/** When the application synchronizes: triggers, a delay timer and background runs around one mutex.
    Each critical section is one step; between the steps any other goroutine may take its turn. */
module SyncScheduler {
  import opened Options

  /** Seconds that must lie between two triggers that start at once. */
  const SPACING: int := 20

  type TimerId = nat

  /** Goroutines by where they are: timer callbacks that have fired, runs on their way to the lock, runs
      at work, and finished runs that still have to pass their pending trigger on. */
  datatype Threads = Threads(firing: nat, entering: nat, active: nat, retriggering: nat)

  /** `timer` is the handle the application keeps; `armed` are the timers that will fire, with their due
      times. `unserved` records that a trigger has come since the last run started. */
  datatype State = State(
    open: bool, running: bool, pending: bool, lastTrigger: int, timer: Option<TimerId>,
    now: int, armed: map<TimerId, int>, created: nat, threads: Threads, unserved: bool)
  {
    function Stop(): State { if timer.Some? then this.(armed := armed - {timer.value}) else this }

    function Arm(delay: int): State {
      this.(timer := Some(created), armed := armed[created := now + delay], created := created + 1)
    }
  }

  datatype Step = Tick(seconds: nat) | Trigger | Fire(id: TimerId) | Callback | Enter | Exit | Retrigger | Close

  /** What a trigger does, wherever it comes from. */
  function Triggered(s: State): State {
    var since := s.now - s.lastTrigger;
    if !s.open || s.running then s.(pending := true)
    else if since < SPACING then s.(pending := true).Stop().Arm(SPACING - since)
    else s.(lastTrigger := s.now, threads := s.threads.(entering := s.threads.entering + 1))
  }

  function Entered(s: State): State {
    var t := s.(threads := s.threads.(entering := if s.threads.entering > 0 then s.threads.entering - 1 else 0));
    if s.running || !s.open then t
    else t.(running := true, pending := false, lastTrigger := s.now, unserved := false,
            threads := t.threads.(active := s.threads.active + 1))
  }

  function Exited(s: State): State {
    s.(running := false, pending := false,
       threads := s.threads.(active := if s.threads.active > 0 then s.threads.active - 1 else 0,
                             retriggering := s.threads.retriggering + (if s.pending then 1 else 0)))
  }

  predicate Enabled(s: State, step: Step) {
    match step
    case Fire(id) => id in s.armed && s.armed[id] <= s.now
    case Callback => s.threads.firing > 0
    case Enter => s.threads.entering > 0
    case Exit => s.threads.active > 0
    case Retrigger => s.threads.retriggering > 0
    case _ => true
  }

  function Next(s: State, step: Step): State
    requires Enabled(s, step)
  {
    match step
    case Tick(seconds) => s.(now := s.now + seconds)
    case Trigger => Triggered(s).(unserved := true)
    case Fire(id) => s.(armed := s.armed - {id}, threads := s.threads.(firing := s.threads.firing + 1))
    case Callback =>
      s.(timer := None, lastTrigger := s.now,
         threads := s.threads.(firing := s.threads.firing - 1, entering := s.threads.entering + 1))
    case Enter => Entered(s)
    case Exit => Exited(s)
    case Retrigger => Triggered(s.(threads := s.threads.(retriggering := s.threads.retriggering - 1)))
    case Close => s.Stop().(timer := None, open := false)
  }

  ghost predicate IsRun(s: State, steps: seq<Step>)
    decreases |steps|
  {
    steps == [] || (Enabled(s, steps[0]) && IsRun(Next(s, steps[0]), steps[1..]))
  }

  ghost function After(s: State, steps: seq<Step>): State
    requires IsRun(s, steps)
    decreases |steps|
  {
    if steps == [] then s else After(Next(s, steps[0]), steps[1..])
  }

  /** Just after start-up; `last` is the zero time, long ago. */
  function Start(now: int, last: int): State {
    State(true, false, false, last, None, now, map[], 0, Threads(0, 0, 0, 0), false)
  }

  // ----- the object -----

  class App {
    var open: bool
    var running: bool
    var pending: bool
    var lastTrigger: int
    var timer: Option<TimerId>
    var now: int
    var armed: map<TimerId, int>
    var created: nat
    ghost var threads: Threads
    ghost var unserved: bool

    ghost function Model(): State
      reads this
    {
      State(open, running, pending, lastTrigger, timer, now, armed, created, threads, unserved)
    }

    constructor (now: int, last: int)
      ensures Model() == Start(now, last)
    {
      open, running, pending, lastTrigger, timer := true, false, false, last, None;
      this.now, armed, created, threads, unserved := now, map[], 0, Threads(0, 0, 0, 0), false;
    }

    method StopTimer()
      modifies this`armed
      ensures Model() == old(Model()).Stop()
    {
      if timer.Some? {
        armed := armed - {timer.value};
      }
    }

    method AfterFunc(delay: int)
      modifies this`timer, this`armed, this`created
      ensures Model() == old(Model()).Arm(delay)
    {
      timer := Some(created);
      armed := armed[created := now + delay];
      created := created + 1;
    }

    method TriggerSyncSoon()
      modifies this
      ensures Model() == Triggered(old(Model()))
    {
      if !open || running {
        pending := true;
        return;
      }
      var since := now - lastTrigger;
      if since < SPACING {
        pending := true;
        StopTimer();
        AfterFunc(SPACING - since);
        return;
      }
      lastTrigger := now;
      threads := threads.(entering := threads.entering + 1);
    }

    /** The timer's callback, up to its call of `EnterRun`. */
    method TimerCallback()
      requires Enabled(Model(), Callback)
      modifies this
      ensures Model() == Next(old(Model()), Callback)
    {
      timer := None;
      lastTrigger := now;
      threads := threads.(firing := threads.firing - 1, entering := threads.entering + 1);
    }

    /** The first critical section of a run: whether the run goes on. */
    method EnterRun() returns (entered: bool)
      requires Enabled(Model(), Enter)
      modifies this
      ensures Model() == Next(old(Model()), Enter)
      ensures entered <==> !old(running) && old(open)
    {
      threads := threads.(entering := threads.entering - 1);
      if running || !open {
        return false;
      }
      running := true;
      pending := false;
      lastTrigger := now;
      unserved := false;
      threads := threads.(active := threads.active + 1);
      entered := true;
    }

    /** The last critical section of a run: whether a trigger must be passed on. */
    method ExitRun() returns (again: bool)
      requires Enabled(Model(), Exit)
      modifies this
      ensures Model() == Next(old(Model()), Exit) && again == old(pending)
    {
      running := false;
      again := pending;
      pending := false;
      threads := threads.(active := threads.active - 1,
                          retriggering := threads.retriggering + (if again then 1 else 0));
    }

    method Close()
      modifies this
      ensures Model() == Next(old(Model()), Step.Close)
    {
      if timer.Some? {
        StopTimer();
        timer := None;
      }
      open := false;
    }
  }

  // ----- what every interleaving keeps -----

  /** Somebody is on the way to start a run. */
  predicate Carried(s: State) {
    s.armed != map[] || s.threads.firing > 0 || s.threads.entering > 0 || s.threads.retriggering > 0
  }

  ghost predicate Inv(s: State) {
    && s.threads.active == (if s.running then 1 else 0)
    && (s.open && s.unserved ==> if s.running then s.pending else Carried(s))
    && s.lastTrigger <= s.now
    && (forall id :: id in s.armed ==> id < s.created && s.armed[id] <= s.now + SPACING)
  }

  lemma StepKeepsInv(s: State, step: Step)
    requires Inv(s) && Enabled(s, step)
    ensures Inv(Next(s, step))
  {
    match step
    case Trigger =>
      TriggeredKeeps(s);
    case Retrigger =>
      var t := s.(threads := s.threads.(retriggering := s.threads.retriggering - 1));
      TriggeredKeeps(t);
    case _ =>
  }

  /** A trigger is remembered or carried; what it arms is new and due within the spacing. */
  lemma TriggeredKeeps(s: State)
    requires s.lastTrigger <= s.now
    requires forall id :: id in s.armed ==> id < s.created && s.armed[id] <= s.now + SPACING
    ensures var t := Triggered(s);
      && t.threads.active == s.threads.active && t.running == s.running && t.open == s.open && t.unserved == s.unserved
      && (s.open ==> if s.running then t.pending else Carried(t))
      && t.lastTrigger <= t.now
      && (forall id :: id in t.armed ==> id < t.created && t.armed[id] <= t.now + SPACING)
  {
    assert s.created in Triggered(s).armed <==> Triggered(s).created != s.created;
  }

  lemma {:induction false} RunKeepsInv(s: State, steps: seq<Step>)
    requires Inv(s) && IsRun(s, steps)
    ensures Inv(After(s, steps))
    decreases |steps|
  {
    if steps != [] {
      StepKeepsInv(s, steps[0]);
      RunKeepsInv(Next(s, steps[0]), steps[1..]);
    }
  }

  /** In every interleaving: never two runs at work; while the application is open, a trigger that no run
      has started after is remembered by the run at work or carried by a timer or goroutine; and no timer
      waits longer than the spacing. */
  lemma NoTriggerIsLost(now: int, last: int, steps: seq<Step>)
    requires last <= now && IsRun(Start(now, last), steps)
    ensures var s := After(Start(now, last), steps);
      && s.threads.active <= 1 && (s.running <==> s.threads.active == 1)
      && (s.open && s.unserved ==> (s.running && s.pending) || (!s.running && Carried(s)))
      && forall id :: id in s.armed ==> s.armed[id] <= s.now + SPACING
  {
    RunKeepsInv(Start(now, last), steps);
  }

  // ----- bursts of triggers -----

  /** No timer runs but the one that the application holds. */
  predicate OneTimer(s: State) { forall id :: id in s.armed ==> s.timer == Some(id) }

  function Seconds(steps: seq<Step>): nat
    decreases |steps|
  {
    if steps == [] then 0 else (if steps[0].Tick? then steps[0].seconds else 0) + Seconds(steps[1..])
  }

  /** A trigger starts a run at once if the last one is 20 seconds or longer ago, and otherwise leaves one timer, due
      20 seconds after the last one. */
  lemma TriggerWaitsIff(s: State)
    requires s.open && !s.running && OneTimer(s)
    ensures var t := Next(s, Trigger);
      if s.now - s.lastTrigger >= 20 then
        t.threads.entering == s.threads.entering + 1 && t.lastTrigger == s.now && t.armed == s.armed
      else t.threads == s.threads && t.lastTrigger == s.lastTrigger && OneTimer(t) && t.timer.Some?
           && t.armed == map[t.timer.value := s.lastTrigger + 20]
  {}

  /** However many triggers come within 20 seconds of the last run: none starts a run, and together they leave one
      timer, due 20 seconds after it. */
  lemma {:induction false} BurstLeavesOneTimer(s: State, steps: seq<Step>)
    requires s.open && !s.running && OneTimer(s) && IsRun(s, steps)
    requires forall step :: step in steps ==> step.Trigger? || step.Tick?
    requires s.now + Seconds(steps) - s.lastTrigger < 20
    ensures var t := After(s, steps);
      && t.threads == s.threads && t.lastTrigger == s.lastTrigger && OneTimer(t)
      && (Trigger in steps ==> t.timer.Some? && t.armed == map[t.timer.value := s.lastTrigger + 20])
      && (Trigger !in steps ==> t.timer == s.timer && t.armed == s.armed)
    decreases |steps|
  {
    hide Next, Enabled;
    if steps != [] {
      assert steps[0] in steps;
      BurstStep(s, steps[0]);
      BurstLeavesOneTimer(Next(s, steps[0]), steps[1..]);
    }
  }

  lemma BurstStep(s: State, step: Step)
    requires s.open && !s.running && OneTimer(s) && Enabled(s, step) && (step.Trigger? || step.Tick?)
    requires s.now - s.lastTrigger < 20
    ensures var t := Next(s, step);
      && t.open && !t.running && t.threads == s.threads && t.lastTrigger == s.lastTrigger && OneTimer(t)
      && t.now == s.now + Seconds([step])
      && (step.Trigger? ==> t.timer.Some? && t.armed == map[t.timer.value := s.lastTrigger + 20])
      && (step.Tick? ==> t.timer == s.timer && t.armed == s.armed)
  {
    assert [step][1..] == [];
  }

  /** The start of a run, like the firing of a timer, counts as the last trigger. */
  lemma StartsCountAsTriggers(s: State)
    ensures Enabled(s, Enter) && s.open && !s.running ==>
      var t := Next(s, Enter); t.running && t.threads.active == s.threads.active + 1 && t.lastTrigger == t.now == s.now
    ensures Enabled(s, Callback) ==> var t := Next(s, Callback); t.lastTrigger == t.now == s.now && t.timer.None?
  {}

  /** A run passes one trigger on if any came while it was at work, and then owes nothing. */
  lemma RunPassesTriggerOn(s: State)
    requires s.open && !s.running && s.threads.entering > 0
    ensures var t := Next(Next(s, Enter), Exit);
      t.threads.retriggering == s.threads.retriggering && !t.pending && !t.running
    ensures var t := Next(Next(Next(Next(s, Enter), Trigger), Trigger), Exit);
      t.threads.retriggering == s.threads.retriggering + 1 && !t.pending && !t.running && t.armed == s.armed
  {}

  // ----- after closing -----

  /** Once the application is closed no run begins any more, whatever is still under way and whatever is triggered; the
      timer it held does not fire. */
  lemma {:induction false} ClosedStaysQuiet(s: State, steps: seq<Step>)
    requires !s.open && IsRun(s, steps)
    ensures var t := After(s, steps);
      !t.open && t.threads.active <= s.threads.active && (t.running ==> s.running) && t.armed.Keys <= s.armed.Keys
    decreases |steps|
  {
    if steps != [] {
      ClosedStaysQuiet(Next(s, steps[0]), steps[1..]);
    }
  }

  lemma CloseStopsTimer(s: State)
    requires OneTimer(s)
    ensures var t := Next(s, Close); !t.open && t.armed == map[] && t.timer.None?
  {}

  // ----- nothing gets stuck -----

  ghost predicate Serves(s: State, steps: seq<Step>) {
    && IsRun(s, steps) && !After(s, steps).unserved
    && forall step :: step in steps ==> !step.Trigger? && !step.Close? && (step.Tick? ==> step.seconds <= SPACING)
  }

  lemma Prefixed(s: State, first: Step, rest: seq<Step>)
    requires Enabled(s, first) && !first.Trigger? && !first.Close? && (first.Tick? ==> first.seconds <= SPACING)
    requires Serves(Next(s, first), rest)
    ensures Serves(s, [first] + rest)
  {
    assert ([first] + rest)[1..] == rest;
  }

  lemma ServesByEntering(s: State) returns (steps: seq<Step>)
    requires s.open && !s.running && s.threads.entering > 0
    ensures Serves(s, steps) && |steps| == 1
  {
    assert Serves(Next(s, Enter), []);
    Prefixed(s, Enter, []);
    steps := [Enter] + [];
  }

  lemma ServesByTimer(s: State) returns (steps: seq<Step>)
    requires Inv(s) && s.open && !s.running && (s.armed != map[] || s.threads.firing > 0)
    ensures Serves(s, steps) && |steps| <= 4
  {
    if s.threads.firing > 0 {
      var rest := ServesByEntering(Next(s, Callback));
      Prefixed(s, Callback, rest);
      steps := [Callback] + rest;
    } else {
      var id :| id in s.armed;
      var wait := Tick(if s.armed[id] > s.now then s.armed[id] - s.now else 0);
      var later := Next(s, wait);
      var fired := Next(later, Fire(id));
      var rest := ServesByEntering(Next(fired, Callback));
      Prefixed(fired, Callback, rest);
      Prefixed(later, Fire(id), [Callback] + rest);
      Prefixed(s, wait, [Fire(id)] + ([Callback] + rest));
      steps := [wait] + ([Fire(id)] + ([Callback] + rest));
    }
  }

  lemma ServesWhenIdle(s: State) returns (steps: seq<Step>)
    requires Inv(s) && s.open && !s.running && Carried(s)
    ensures Serves(s, steps) && |steps| <= 5
  {
    if s.threads.entering > 0 {
      steps := ServesByEntering(s);
    } else if s.armed != map[] || s.threads.firing > 0 {
      steps := ServesByTimer(s);
    } else {
      StepKeepsInv(s, Retrigger);
      var t := Next(s, Retrigger);
      var rest;
      if t.threads.entering > 0 {
        rest := ServesByEntering(t);
      } else {
        assert s.created in t.armed;
        rest := ServesByTimer(t);
      }
      Prefixed(s, Retrigger, rest);
      steps := [Retrigger] + rest;
    }
  }

  /** From every reachable state with an unserved trigger, a few steps that need no new trigger and no
      more than the spacing of waiting lead to a run that starts after it. */
  lemma EveryTriggerCanBeServed(s: State) returns (steps: seq<Step>)
    requires Inv(s) && s.open && s.unserved
    ensures Serves(s, steps) && |steps| <= 6
  {
    if s.running {
      StepKeepsInv(s, Exit);
      var rest := ServesWhenIdle(Next(s, Exit));
      Prefixed(s, Exit, rest);
      steps := [Exit] + rest;
    } else {
      steps := ServesWhenIdle(s);
    }
  }
}
