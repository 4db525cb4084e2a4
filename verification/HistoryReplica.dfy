/** The command history kept twice: an index in the window, and a replica in a worker that is fed by
    messages. Queued changes run one after another; the worker, its failures and the suggestions do not wait for them. */
module HistoryReplica {
  import opened Options
  import opened HistoryIndex

  datatype Message = Mutate(id: nat, change: Change) | Ask(id: nat, question: string)

  datatype Reply = Reply(id: nat, ok: bool)

  /** The worker: its replica, the messages it has not handled, the replies not yet delivered. */
  datatype Worker = Worker(replica: Index, mailbox: seq<Message>, replies: seq<Reply>)

  /** `supported` tells whether workers exist at all; `waiting` is the request whose reply the running
      change awaits. */
  datatype State = State(
    supported: bool, local: Index, worker: Option<Worker>, workerFailed: bool,
    nextRequestId: nat, pending: set<nat>, waiting: Option<nat>)

  function Start(supported: bool): State { State(supported, EMPTY, None, false, 1, {}, None) }

  function DisableWorker(s: State): State { s.(worker := None, workerFailed := true, pending := {}, waiting := None) }

  function EnsureWorker(s: State, throws: bool): State {
    if s.worker.Some? || s.workerFailed || !s.supported then s
    else if throws then DisableWorker(s)
    else s.(worker := Some(Worker(EMPTY, [], [])))
  }

  function Post(s: State, w: Worker, m: Message): State {
    s.(worker := Some(w.(mailbox := w.mailbox + [m])),
       nextRequestId := s.nextRequestId + 1, pending := s.pending + {s.nextRequestId})
  }

  /** `Apply` is a queued change, made at home and mirrored to the worker; it runs when no other change
      does. The worker handles its messages in order; `broken` is what a failed change leaves behind. */
  datatype Step =
    | Apply(change: Change, throws: bool)
    | AskWorker(question: string)
    | Handle(broken: Option<Index>)
    | Deliver
    | WorkerError

  predicate Enabled(s: State, step: Step) {
    match step
    case Apply(_, _) => s.waiting.None?
    case AskWorker(_) => s.worker.Some?
    case Handle(_) => s.worker.Some? && s.worker.value.mailbox != []
    case Deliver => s.worker.Some? && s.worker.value.replies != []
    case WorkerError => s.worker.Some?
  }

  function Mirror(s: State, change: Change, throws: bool): State {
    var t := EnsureWorker(s.(local := Changed(s.local, change)), throws);
    if t.worker.None? then t
    else Post(t, t.worker.value, Mutate(t.nextRequestId, change)).(waiting := Some(t.nextRequestId))
  }

  function Handled(w: Worker, broken: Option<Index>): Worker
    requires w.mailbox != []
  {
    var m := w.mailbox[0];
    var replica :=
      if m.Ask? then w.replica else if broken.Some? then broken.value else Changed(w.replica, m.change);
    Worker(replica, w.mailbox[1..], w.replies + [Reply(m.id, broken.None?)])
  }

  function Delivered(s: State, w: Worker): State
    requires w.replies != []
  {
    var r := w.replies[0];
    var t := s.(worker := Some(w.(replies := w.replies[1..])));
    if r.id !in s.pending then t
    else if !r.ok then DisableWorker(t)
    else t.(pending := s.pending - {r.id}, waiting := if s.waiting == Some(r.id) then None else s.waiting)
  }

  function Next(s: State, step: Step): State
    requires Enabled(s, step)
  {
    match step
    case Apply(change, throws) => Mirror(s, change, throws)
    case AskWorker(question) => Post(s, s.worker.value, Ask(s.nextRequestId, question))
    case Handle(broken) => s.(worker := Some(Handled(s.worker.value, broken)))
    case Deliver => Delivered(s, s.worker.value)
    case WorkerError => DisableWorker(s)
  }

  ghost predicate IsRun(s: State, steps: seq<Step>)
    decreases |steps|
  {
    steps == [] || (Enabled(s, steps[0]) && IsRun(Next(s, steps[0]), steps[1..]))
  }

  ghost function After(s: State, steps: seq<Step>): State
    requires IsRun(s, steps)
    decreases |steps|
  {
    if steps == [] then s else After(Next(s, steps[0]), steps[1..])
  }

  // ----- the object in the window -----

  class CommandHistorySuggestions {
    const supported: bool
    var index: Index
    var worker: Option<Worker>
    var workerFailed: bool
    var nextRequestId: nat
    var pending: set<nat>
    var waiting: Option<nat>

    ghost function Model(): State
      reads this
    {
      State(supported, index, worker, workerFailed, nextRequestId, pending, waiting)
    }

    constructor (supported: bool)
      ensures Model() == Start(supported)
    {
      this.supported, index, worker, workerFailed := supported, EMPTY, None, false;
      nextRequestId, pending, waiting := 1, {}, None;
    }

    method StopWorker()
      modifies this
      ensures Model() == DisableWorker(old(Model()))
    {
      worker, workerFailed, pending, waiting := None, true, {}, None;
    }

    method StartWorker(throws: bool)
      modifies this
      ensures Model() == EnsureWorker(old(Model()), throws)
    {
      if worker.Some? || workerFailed || !supported {
        return;
      }
      if throws {
        StopWorker();
      } else {
        worker := Some(Worker(EMPTY, [], []));
      }
    }

    /** A queued change: first at home, then to the worker, whose reply is awaited. */
    method RunChange(change: Change, throws: bool)
      requires waiting.None?
      modifies this
      ensures Model() == Next(old(Model()), Apply(change, throws))
    {
      hide Changed;
      index := Changed(index, change);
      StartWorker(throws);
      if worker.None? {
        return;
      }
      var id := nextRequestId;
      nextRequestId := nextRequestId + 1;
      pending := pending + {id};
      worker := Some(worker.value.(mailbox := worker.value.mailbox + [Mutate(id, change)]));
      waiting := Some(id);
    }

    method SendQuestion(question: string)
      requires worker.Some?
      modifies this
      ensures Model() == Next(old(Model()), AskWorker(question))
    {
      var id := nextRequestId;
      nextRequestId := nextRequestId + 1;
      pending := pending + {id};
      worker := Some(worker.value.(mailbox := worker.value.mailbox + [Ask(id, question)]));
    }

    /** The next reply of the worker; a failed one stops it. */
    method HandleWorkerMessage()
      requires Enabled(Model(), Deliver)
      modifies this
      ensures Model() == Next(old(Model()), Deliver)
    {
      var message := worker.value.replies[0];
      worker := Some(worker.value.(replies := worker.value.replies[1..]));
      if message.id !in pending {
        return;
      }
      pending := pending - {message.id};
      if !message.ok {
        StopWorker();
      } else if waiting == Some(message.id) {
        waiting := None;
      }
    }
  }

  // ----- what every run keeps -----

  predicate OnlyQuestions(mailbox: seq<Message>) { forall i :: 0 <= i < |mailbox| ==> mailbox[i].Ask? }

  /** No reply to request `id` is on its way, except at position `at`. */
  predicate OnlyReplyAt(replies: seq<Reply>, id: nat, at: int) {
    forall i :: 0 <= i < |replies| && replies[i].id == id ==> i == at
  }

  /** The change whose reply is awaited is still in the mailbox at `at`. */
  predicate ChangeAt(w: Worker, local: Index, id: nat, at: nat) {
    && at < |w.mailbox| && w.mailbox[at].Mutate? && w.mailbox[at].id == id
    && (forall i :: 0 <= i < |w.mailbox| && i != at ==> w.mailbox[i].Ask? && w.mailbox[i].id != id)
    && Changed(w.replica, w.mailbox[at].change) == local
    && OnlyReplyAt(w.replies, id, -1)
  }

  /** It has been handled, and its reply is at `at`. */
  predicate ReplyAt(w: Worker, local: Index, id: nat, at: nat) {
    && at < |w.replies| && w.replies[at].id == id && OnlyReplyAt(w.replies, id, at)
    && OnlyQuestions(w.mailbox) && (forall i :: 0 <= i < |w.mailbox| ==> w.mailbox[i].id != id)
    && (w.replies[at].ok ==> w.replica == local)
  }

  ghost predicate InFlight(w: Worker, local: Index, id: nat) {
    (exists at: nat :: ChangeAt(w, local, id, at)) || (exists at: nat :: ReplyAt(w, local, id, at))
  }

  predicate OldIds(s: State, w: Worker) {
    && (forall i :: 0 <= i < |w.mailbox| ==> w.mailbox[i].id < s.nextRequestId)
    && (forall i :: 0 <= i < |w.replies| ==> w.replies[i].id < s.nextRequestId)
  }

  ghost predicate Awaited(s: State, w: Worker, id: nat) {
    id < s.nextRequestId && id in s.pending && InFlight(w, s.local, id)
  }

  ghost predicate Inv(s: State) {
    && (s.worker.None? ==> s.waiting.None?)
    && (s.worker.None? && s.supported && !s.workerFailed ==> s.local == EMPTY)
    && (s.worker.Some? ==>
          && OldIds(s, s.worker.value)
          && (s.waiting.None? ==> OnlyQuestions(s.worker.value.mailbox) && s.worker.value.replica == s.local)
          && (s.waiting.Some? ==> Awaited(s, s.worker.value, s.waiting.value)))
  }

  lemma ApplyKeeps(s: State, change: Change, throws: bool)
    requires Inv(s) && s.waiting.None?
    ensures Inv(Mirror(s, change, throws))
  {
    hide Changed;
    var t := Mirror(s, change, throws);
    if t.worker.Some? {
      var w := t.worker.value;
      assert ChangeAt(w, t.local, t.waiting.value, |w.mailbox| - 1);
    }
  }

  lemma AskKeeps(s: State, question: string)
    requires Inv(s) && s.worker.Some?
    ensures Inv(Next(s, AskWorker(question)))
  {
    hide Changed;
    var t := Next(s, AskWorker(question));
    var v, w := s.worker.value, t.worker.value;
    if s.waiting.Some? {
      var id := s.waiting.value;
      if at: nat :| ChangeAt(v, s.local, id, at) {
        assert ChangeAt(w, t.local, id, at);
      } else {
        var at: nat :| ReplyAt(v, s.local, id, at);
        assert ReplyAt(w, t.local, id, at);
      }
    }
  }

  lemma HandleKeeps(s: State, broken: Option<Index>)
    requires Inv(s) && s.worker.Some? && s.worker.value.mailbox != []
    ensures Inv(Next(s, Handle(broken)))
  {
    hide Changed;
    var t := Next(s, Handle(broken));
    var v, w := s.worker.value, t.worker.value;
    if s.waiting.Some? {
      var id := s.waiting.value;
      if at: nat :| ChangeAt(v, s.local, id, at) {
        if at == 0 {
          assert ReplyAt(w, t.local, id, |w.replies| - 1);
        } else {
          assert ChangeAt(w, t.local, id, at - 1);
        }
      } else {
        var at: nat :| ReplyAt(v, s.local, id, at);
        assert ReplyAt(w, t.local, id, at);
      }
    }
  }

  lemma DeliverKeeps(s: State)
    requires Inv(s) && s.worker.Some? && s.worker.value.replies != []
    ensures Inv(Next(s, Deliver))
  {
    hide Changed, ChangeAt, ReplyAt;
    var t := Next(s, Deliver);
    if s.waiting.Some? && t.worker.Some? {
      var id, v, w := s.waiting.value, s.worker.value, t.worker.value;
      if at: nat :| ChangeAt(v, s.local, id, at) {
        ChangeWaits(v, s.local, id, at);
        assert ChangeAt(w, t.local, id, at);
      } else {
        var at: nat :| ReplyAt(v, s.local, id, at);
        if at > 0 {
          ReplyMovesUp(v, s.local, id, at);
          assert ReplyAt(w, t.local, id, at - 1);
        } else {
          ReplyArrives(v, s.local, id);
        }
      }
    }
  }

  lemma ChangeWaits(v: Worker, local: Index, id: nat, at: nat)
    requires ChangeAt(v, local, id, at) && v.replies != []
    ensures ChangeAt(v.(replies := v.replies[1..]), local, id, at) && v.replies[0].id != id
  {
    hide Changed;
  }

  lemma ReplyArrives(v: Worker, local: Index, id: nat)
    requires ReplyAt(v, local, id, 0)
    ensures v.replies != [] && v.replies[0].id == id && OnlyQuestions(v.mailbox)
    ensures v.replies[0].ok ==> v.replica == local
  {
    hide Changed;
  }

  lemma ReplyMovesUp(v: Worker, local: Index, id: nat, at: nat)
    requires ReplyAt(v, local, id, at) && at > 0
    ensures ReplyAt(v.(replies := v.replies[1..]), local, id, at - 1) && v.replies[0].id != id
  {
    hide Changed;
  }

  lemma StepKeeps(s: State, step: Step)
    requires Inv(s) && Enabled(s, step)
    ensures Inv(Next(s, step))
  {
    match step
    case Apply(change, throws) => ApplyKeeps(s, change, throws);
    case AskWorker(question) => AskKeeps(s, question);
    case Handle(broken) => HandleKeeps(s, broken);
    case Deliver => DeliverKeeps(s);
    case WorkerError =>
  }

  lemma {:induction false} RunKeeps(s: State, steps: seq<Step>)
    requires Inv(s) && IsRun(s, steps)
    ensures Inv(After(s, steps))
    decreases |steps|
  {
    hide Inv, Next, Enabled;
    if steps != [] {
      StepKeeps(s, steps[0]);
      RunKeeps(Next(s, steps[0]), steps[1..]);
    }
  }

  /** Whatever fails and however messages, replies and questions interleave: when no change is under way, a
      worker that is live holds exactly the local index. */
  lemma ReplicaEqualsLocal(supported: bool, steps: seq<Step>)
    requires IsRun(Start(supported), steps)
    ensures var s := After(Start(supported), steps);
      s.waiting.None? && s.worker.Some? ==> s.worker.value.replica == s.local && OnlyQuestions(s.worker.value.mailbox)
  {
    RunKeeps(Start(supported), steps);
  }

  // ----- the replica is really fed -----

  /** Nothing is under way, and a worker is live or can be started. */
  predicate Idle(s: State) {
    && s.waiting.None? && s.supported && !s.workerFailed
    && (s.worker.Some? ==> s.worker.value.mailbox == [] && s.worker.value.replies == [])
  }

  /** A change is made at home at once, the worker, started if need be, gets it, and with its reply the next change may
      run: the worker holds the same index. */
  lemma ChangeReachesWorker(s: State, change: Change)
    requires Inv(s) && Idle(s)
    ensures var steps := [Apply(change, false), Handle(None), Deliver];
      && IsRun(s, steps)
      && var t := After(s, steps);
         && t.local == Changed(s.local, change) && Idle(t)
         && t.worker.Some? && t.worker.value.replica == t.local
  {
    hide Changed;
    var t := Next(s, Apply(change, false));
    var u := Next(t, Handle(None));
    ThreeSteps(s, Apply(change, false), Handle(None), Deliver);
    assert t.waiting == Some(s.nextRequestId) && |t.worker.value.mailbox| == 1;
    assert u.worker.value.replies == [Reply(s.nextRequestId, true)];
    assert u.worker.value.replies[1..] == [] && t.worker.value.mailbox[1..] == [];
  }

  /** If the worker fails at the change, it is given up for good, and the next change may run all the same. */
  lemma FailedChangeStopsWorker(s: State, change: Change, broken: Index)
    requires Inv(s) && Idle(s)
    ensures var steps := [Apply(change, false), Handle(Some(broken)), Deliver];
      && IsRun(s, steps)
      && var t := After(s, steps);
         t.local == Changed(s.local, change) && t.waiting.None? && t.worker.None? && t.workerFailed
  {
    hide Changed;
    ThreeSteps(s, Apply(change, false), Handle(Some(broken)), Deliver);
  }

  lemma ThreeSteps(s: State, a: Step, b: Step, c: Step)
    requires Enabled(s, a) && Enabled(Next(s, a), b) && Enabled(Next(Next(s, a), b), c)
    ensures IsRun(s, [a, b, c]) && After(s, [a, b, c]) == Next(Next(Next(s, a), b), c)
  {
    hide Next, Enabled;
    var t, u := Next(s, a), Next(Next(s, a), b);
    assert [a, b, c][1..] == [b, c] && [b, c][1..] == [c] && [c][1..] == [];
    assert IsRun(Next(u, c), []) && After(Next(u, c), []) == Next(u, c);
    assert IsRun(u, [c]) && After(u, [c]) == Next(u, c);
    assert IsRun(t, [b, c]) && After(t, [b, c]) == Next(u, c);
  }

  /** A worker that was given up is never started again. */
  lemma {:induction false} GivenUpForGood(s: State, steps: seq<Step>)
    requires s.worker.None? && s.workerFailed && IsRun(s, steps)
    ensures After(s, steps).worker.None? && After(s, steps).workerFailed
    decreases |steps|
  {
    hide Changed;
    if steps != [] {
      GivenUpForGood(Next(s, steps[0]), steps[1..]);
    }
  }
}
