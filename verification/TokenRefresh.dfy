/** Refreshing a rotating token pair from many goroutines: the lock protocol as interleaved steps. The
    clock is free: each look at it may find that the access token still lasts or not. */
module TokenRefresh {
  import opened Options

  type CallerId = nat

  datatype Session = Session(access: string, refresh: string, accessExpiresAt: int, refreshExpiresAt: int)

  datatype Result = Kept | Adopted | Refreshed | Failed

  /** Where a caller is: before the lock, holding it before the stored session is read, with the refresh
      request under way, or with new tokens that are not yet stored. */
  datatype Place = Outside | Waiting | Locked | Requesting | Saving | Returned(result: Result)

  datatype Caller = Caller(place: Place, session: Session, force: bool)

  /** `issued` lists every pair the server ever handed out, `spent` the refresh tokens it accepted. */
  datatype State = State(
    callers: map<CallerId, Caller>, holder: Option<CallerId>, stored: Session,
    issued: seq<Session>, spent: seq<string>)
  {
    function Put(c: CallerId, caller: Caller): State { this.(callers := callers[c := caller]) }

    function Unlock(): State { this.(holder := None) }
  }

  datatype Step =
    | Load(c: CallerId)
    | Begin(c: CallerId, force: bool, ample: bool)
    | Acquire(c: CallerId)
    | Recheck(c: CallerId, ample: bool)
    | Refused(c: CallerId)
    | Granted(c: CallerId, tokens: Session)
    | ReplyLost(c: CallerId, tokens: Session)
    | Saved(c: CallerId)
    | SaveFailed(c: CallerId)

  /** The step neither fails to store new tokens nor loses the reply that carries them. */
  predicate Smooth(step: Step) { !step.SaveFailed? && !step.ReplyLost? }

  predicate At(s: State, c: CallerId, p: Place) { c in s.callers && s.callers[c].place == p }

  function Newest(s: State): Session
    requires s.issued != []
  {
    s.issued[|s.issued| - 1]
  }

  /** The server issues tokens of its own choice, with a new refresh token and a strictly later expiry. */
  predicate MayIssue(s: State, tokens: Session) {
    && tokens.access != "" && tokens.refresh != ""
    && forall p :: p in s.issued ==> tokens.accessExpiresAt > p.accessExpiresAt && tokens.refresh != p.refresh
  }

  predicate Enabled(s: State, step: Step) {
    match step
    case Load(c) => c !in s.callers || s.callers[c].place.Outside? || s.callers[c].place.Returned?
    case Begin(c, _, _) => At(s, c, Outside) || (c in s.callers && s.callers[c].place.Returned?)
    case Acquire(c) => At(s, c, Waiting) && s.holder.None?
    case Recheck(c, _) => At(s, c, Locked)
    case Refused(c) => At(s, c, Requesting)
    case Granted(c, tokens) => At(s, c, Requesting) && MayIssue(s, tokens)
    case ReplyLost(c, tokens) => At(s, c, Requesting) && MayIssue(s, tokens)
    case Saved(c) => At(s, c, Saving)
    case SaveFailed(c) => At(s, c, Saving)
  }

  /** Another caller has stored a later pair in the meantime. */
  predicate Overtaken(s: State, session: Session) {
    s.stored.access != "" && s.stored.refresh != "" && s.stored.accessExpiresAt > session.accessExpiresAt
  }

  function Next(s: State, step: Step): State
    requires Enabled(s, step)
  {
    match step
    case Load(c) => s.Put(c, Caller(Outside, s.stored, false))
    case Begin(c, force, ample) =>
      var me := s.callers[c];
      if !force && ample then s.Put(c, me.(place := Returned(Kept), force := force))
      else s.Put(c, me.(place := Waiting, force := force))
    case Acquire(c) => s.Put(c, s.callers[c].(place := Locked)).(holder := Some(c))
    case Recheck(c, ample) =>
      var me := s.callers[c];
      if Overtaken(s, me.session) then s.Put(c, me.(place := Returned(Adopted), session := s.stored)).Unlock()
      else if !me.force && ample then s.Put(c, me.(place := Returned(Kept))).Unlock()
      else s.Put(c, me.(place := Requesting))
    case Refused(c) => s.Put(c, s.callers[c].(place := Returned(Failed))).Unlock()
    case Granted(c, tokens) =>
      s.Put(c, s.callers[c].(place := Saving, session := tokens))
       .(issued := s.issued + [tokens], spent := s.spent + [s.callers[c].session.refresh])
    case ReplyLost(c, tokens) =>
      s.Put(c, s.callers[c].(place := Returned(Failed))).Unlock()
       .(issued := s.issued + [tokens], spent := s.spent + [s.callers[c].session.refresh])
    case Saved(c) =>
      s.Put(c, s.callers[c].(place := Returned(Refreshed))).Unlock().(stored := s.callers[c].session)
    case SaveFailed(c) => s.Put(c, s.callers[c].(place := Returned(Failed))).Unlock()
  }

  ghost predicate IsRun(s: State, steps: seq<Step>)
    decreases |steps|
  {
    steps == [] || (Enabled(s, steps[0]) && IsRun(Next(s, steps[0]), steps[1..]))
  }

  ghost function After(s: State, steps: seq<Step>): State
    requires IsRun(s, steps)
    decreases |steps|
  {
    if steps == [] then s else After(Next(s, steps[0]), steps[1..])
  }

  function Start(first: Session): State { State(map[], None, first, [first], []) }

  // ----- the invariant -----

  predicate InCriticalSection(p: Place) { p.Locked? || p.Requesting? || p.Saving? }

  ghost predicate Ordered(issued: seq<Session>) {
    && (forall i, j :: 0 <= i < j < |issued| ==> issued[i].accessExpiresAt < issued[j].accessExpiresAt)
    && (forall i, j :: 0 <= i < j < |issued| ==> issued[i].refresh != issued[j].refresh)
    && (forall i :: 0 <= i < |issued| ==> issued[i].access != "" && issued[i].refresh != "")
  }

  ghost predicate Ledger(issued: seq<Session>, spent: seq<string>) {
    && issued != [] && Ordered(issued)
    && |spent| == |issued| - 1
    && forall i :: 0 <= i < |spent| ==> spent[i] == issued[i].refresh
  }

  ghost predicate Fits(s: State, c: CallerId, caller: Caller)
    requires s.issued != []
  {
    && caller.session in s.issued
    && (InCriticalSection(caller.place) ==> s.holder == Some(c))
    && (caller.place.Requesting? || caller.place.Saving? ==> caller.session == Newest(s))
  }

  /** The holder has new tokens that are not stored yet. */
  predicate AboutToSave(s: State) { s.holder.Some? && At(s, s.holder.value, Saving) }

  ghost predicate Inv(s: State) {
    && Ledger(s.issued, s.spent)
    && (forall c :: c in s.callers ==> Fits(s, c, s.callers[c]))
    && (s.holder.Some? ==> s.holder.value in s.callers && InCriticalSection(s.callers[s.holder.value].place))
    && s.stored in s.issued
    && (!AboutToSave(s) ==> s.stored == Newest(s))
  }

  lemma LedgerGrows(issued: seq<Session>, spent: seq<string>, tokens: Session)
    requires Ledger(issued, spent) && tokens.access != "" && tokens.refresh != ""
    requires forall p :: p in issued ==> tokens.accessExpiresAt > p.accessExpiresAt && tokens.refresh != p.refresh
    ensures Ledger(issued + [tokens], spent + [issued[|issued| - 1].refresh])
  {}

  /** Against the newest pair, every other one is overtaken. */
  lemma NotBeforeNewest(s: State, session: Session)
    requires s.issued != [] && Ordered(s.issued) && session in s.issued && s.stored == Newest(s)
    ensures Overtaken(s, session) <==> session != Newest(s)
  {
    var i :| 0 <= i < |s.issued| && s.issued[i] == session;
    if i < |s.issued| - 1 {
      assert s.issued[i].accessExpiresAt < s.issued[|s.issued| - 1].accessExpiresAt;
    }
  }

  /** Whoever is not overtaken has the newest pair. */
  lemma NotOvertaken(s: State, session: Session)
    requires Ledger(s.issued, s.spent) && session in s.issued && s.stored == Newest(s)
    ensures Overtaken(s, session) <==> session != Newest(s)
  {
    NotBeforeNewest(s, session);
  }

  lemma GrantKeepsInv(s: State, c: CallerId, tokens: Session)
    requires Inv(s) && Enabled(s, Granted(c, tokens))
    ensures Inv(Next(s, Granted(c, tokens)))
  {
    hide Ledger;
    assert s.issued != [] by {
      LedgerNotEmpty(s.issued, s.spent);
    }
    LedgerNotEmpty(s.issued + [tokens], s.spent);
    var t := Next(s, Granted(c, tokens));
    assert Fits(s, c, s.callers[c]);
    LedgerGrows(s.issued, s.spent, tokens);
    assert tokens == t.issued[|t.issued| - 1];
    forall d | d in t.callers ensures Fits(t, d, t.callers[d]) {
      assert d in s.callers && Fits(s, d, s.callers[d]);
    }
  }

  lemma LedgerNotEmpty(issued: seq<Session>, spent: seq<string>)
    ensures Ledger(issued, spent) ==> issued != []
  {}

  lemma StepKeepsInv(s: State, step: Step)
    requires Inv(s) && Enabled(s, step) && Smooth(step)
    ensures Inv(Next(s, step))
  {
    LedgerNotEmpty(s.issued, s.spent);
    hide Ledger, Overtaken;
    var t := Next(s, step);
    match step
    case Granted(c, tokens) => GrantKeepsInv(s, c, tokens);
    case Recheck(c, ample) =>
      assert Fits(s, c, s.callers[c]);
      NotOvertaken(s, s.callers[c].session);
    case _ =>
  }

  lemma {:induction false} RunKeepsInv(s: State, steps: seq<Step>)
    requires Inv(s) && IsRun(s, steps) && forall step :: step in steps ==> Smooth(step)
    ensures Inv(After(s, steps))
    decreases |steps|
  {
    if steps != [] {
      StepKeepsInv(s, steps[0]);
      RunKeepsInv(Next(s, steps[0]), steps[1..]);
    }
  }

  // ----- what the protocol is for -----

  predicate Inside(s: State, c: CallerId) { c in s.callers && InCriticalSection(s.callers[c].place) }

  ghost predicate NoDuplicates(s: seq<string>) { forall i, j :: 0 <= i < j < |s| ==> s[i] != s[j] }

  /** However many callers there are and however they interleave, as long as storing works and no reply is lost:
      every refresh token is accepted at most once, at most one caller is in the critical section, and whoever asks
      the server presents the newest pair, which nobody has spent. */
  lemma TokensAreSpentOnce(first: Session, steps: seq<Step>)
    requires first.access != "" && first.refresh != ""
    requires IsRun(Start(first), steps) && forall step :: step in steps ==> Smooth(step)
    ensures var s := After(Start(first), steps);
      && NoDuplicates(s.spent) && s.issued != []
      && (forall c, d :: Inside(s, c) && Inside(s, d) ==> c == d)
      && (forall c :: At(s, c, Requesting) ==>
            s.callers[c].session == s.stored == Newest(s) && s.callers[c].session.refresh !in s.spent)
  {
    hide Start;
    StartIsInv(first);
    RunKeepsInv(Start(first), steps);
    var s := After(Start(first), steps);
    forall c | At(s, c, Requesting) ensures s.callers[c].session.refresh !in s.spent {
      assert Fits(s, c, s.callers[c]);
    }
  }

  lemma StartIsInv(first: Session)
    requires first.access != "" && first.refresh != ""
    ensures Inv(Start(first))
  {}

  /** A caller that finds itself overtaken leaves with the newest pair ever issued, without a request. */
  lemma AdoptersTakeTheNewest(s: State, c: CallerId, ample: bool)
    requires Inv(s) && At(s, c, Locked)
    ensures s.issued != []
    ensures var t := Next(s, Recheck(c, ample));
      && (t.callers[c].place == Returned(Adopted) <==> s.callers[c].session != Newest(s))
      && (t.callers[c].place == Returned(Adopted) ==> t.callers[c].session == Newest(t))
      && t.spent == s.spent && t.issued == s.issued
  {
    assert Fits(s, c, s.callers[c]);
    NotOvertaken(s, s.callers[c].session);
  }

  // ----- forced calls -----

  /** The caller's own next call has not begun. */
  predicate StaysInCall(step: Step, c: CallerId) { (step.Begin? || step.Load?) ==> step.c != c }

  /** A forced call never ends with the tokens it came with, however long they still last: it takes over a pair that
      another caller has stored, or asks the server. */
  lemma {:induction false} ForcedIsNeverKept(s: State, c: CallerId, steps: seq<Step>)
    requires c in s.callers && !s.callers[c].place.Outside? && s.callers[c].place != Returned(Kept)
    requires s.callers[c].force && IsRun(s, steps) && forall step :: step in steps ==> StaysInCall(step, c)
    ensures c in After(s, steps).callers && After(s, steps).callers[c].place != Returned(Kept)
    decreases |steps|
  {
    hide Overtaken, MayIssue;
    if steps != [] {
      assert steps[0] in steps;
      ForcedIsNeverKept(Next(s, steps[0]), c, steps[1..]);
    }
  }

  /** A call begins: without force and with tokens that last it ends at once, and otherwise it queues for the lock. */
  lemma BeginWaitsIff(s: State, c: CallerId, force: bool, ample: bool)
    requires Enabled(s, Begin(c, force, ample))
    ensures var t := Next(s, Begin(c, force, ample));
      && c in t.callers && t.callers[c].force == force && t.callers[c].session == s.callers[c].session
      && (t.callers[c].place == Waiting <==> force || !ample)
      && (t.callers[c].place == Returned(Kept) <==> !force && ample)
  {}

  // ----- when storing fails or a reply is lost -----

  /** Some caller presents a refresh token that the server has already accepted. */
  ghost predicate PresentsSpent(s: State) { exists c :: At(s, c, Requesting) && s.callers[c].session.refresh in s.spent }

  /** The last granted pair was not stored, and nobody is about to store it. */
  ghost predicate Lost(s: State)
    requires s.issued != []
  {
    s.stored != Newest(s) && !AboutToSave(s)
  }

  /** What holds of a caller even if storing failed or a reply was lost before. */
  ghost predicate Placed(s: State, c: CallerId, caller: Caller)
    requires s.issued != []
  {
    && caller.session in s.issued
    && (InCriticalSection(caller.place) ==> s.holder == Some(c))
    && (caller.place.Requesting? ==> !Overtaken(s, caller.session))
    && (caller.place.Saving? ==> caller.session == Newest(s))
  }

  /** Every spent token belongs to an issued pair. */
  ghost predicate AllIssued(issued: seq<Session>, spent: seq<string>) {
    forall t :: t in spent ==> exists p :: p in issued && p.refresh == t
  }

  lemma SpentStayIssued(issued: seq<Session>, spent: seq<string>, p: Session, tokens: Session)
    requires AllIssued(issued, spent) && p in issued
    ensures AllIssued(issued + [tokens], spent + [p.refresh])
  {
    forall t | t in spent + [p.refresh] ensures exists q :: q in issued + [tokens] && q.refresh == t {
      if t == p.refresh {
        assert p in issued + [tokens];
      } else {
        var q :| q in issued && q.refresh == t;
        assert q in issued + [tokens];
      }
    }
  }

  lemma NewTokenIsUnspent(issued: seq<Session>, spent: seq<string>, p: Session, tokens: Session)
    requires AllIssued(issued, spent) && p in issued && forall q :: q in issued ==> q.refresh != tokens.refresh
    ensures tokens.refresh !in spent + [p.refresh]
  {}

  /** The invariant of all runs: the stored pair is spent exactly when it is not the newest. */
  ghost predicate WeakInv(s: State) {
    && s.issued != [] && Ordered(s.issued)
    && (forall c :: c in s.callers ==> Placed(s, c, s.callers[c]))
    && (s.holder.Some? ==> s.holder.value in s.callers && InCriticalSection(s.callers[s.holder.value].place))
    && s.stored in s.issued
    && AllIssued(s.issued, s.spent)
    && Newest(s).refresh !in s.spent
    && (s.stored.refresh in s.spent <==> s.stored != Newest(s))
  }

  /** What the server does about a request it accepts: the stored pair is now spent. */
  lemma IssuedKeepsLedger(s: State, p: Session, tokens: Session)
    requires s.issued != [] && Ordered(s.issued) && s.stored in s.issued && p in s.issued && MayIssue(s, tokens)
    requires AllIssued(s.issued, s.spent) && (s.stored.refresh in s.spent <==> s.stored != Newest(s)) && !Overtaken(s, p)
    ensures var issued, spent := s.issued + [tokens], s.spent + [p.refresh];
      && Ordered(issued) && AllIssued(issued, spent) && s.stored in issued
      && tokens.refresh !in spent && s.stored != tokens && s.stored.refresh in spent
  {
    hide Overtaken;
    if s.stored == Newest(s) {
      NotBeforeNewest(s, p);
    }
    SpentStayIssued(s.issued, s.spent, p, tokens);
    NewTokenIsUnspent(s.issued, s.spent, p, tokens);
    assert s.stored in s.issued + [tokens];
  }

  /** The server accepts a request, whether its reply arrives or not. */
  lemma IssueKeepsWeakInv(s: State, t: State, c: CallerId, tokens: Session)
    requires WeakInv(s) && At(s, c, Requesting) && MayIssue(s, tokens)
    requires t == Next(s, Granted(c, tokens)) || t == Next(s, ReplyLost(c, tokens))
    ensures WeakInv(t)
  {
    hide Overtaken, AllIssued, Ordered, MayIssue;
    assert Placed(s, c, s.callers[c]);
    IssuedKeepsLedger(s, s.callers[c].session, tokens);
    assert Newest(t) == tokens;
    forall d | d in t.callers ensures Placed(t, d, t.callers[d]) {
      assert Placed(s, d, s.callers[d]);
      SameStored(s, t, s.callers[d].session);
    }
  }

  lemma SameStored(s: State, t: State, session: Session)
    requires s.stored == t.stored
    ensures Overtaken(s, session) <==> Overtaken(t, session)
  {}

  /** A step that only moves one caller. */
  lemma MoveKeepsWeakInv(s: State, t: State, c: CallerId, caller: Caller)
    requires WeakInv(s) && t == s.Put(c, caller).(holder := t.holder) && Placed(t, c, caller)
    requires c in s.callers && InCriticalSection(s.callers[c].place) ==> s.holder == Some(c)
    requires t.holder == s.holder || t.holder == Some(c) || (t.holder.None? && s.holder == Some(c))
    requires t.holder == Some(c) <==> InCriticalSection(caller.place)
    requires t.holder == Some(c) ==> s.holder.None? || s.holder == Some(c)
    ensures WeakInv(t)
  {
    hide Ordered, Overtaken;
    forall d | d in t.callers ensures Placed(t, d, t.callers[d]) {
      if d != c {
        assert Placed(s, d, s.callers[d]);
        SameStored(s, t, s.callers[d].session);
      }
    }
  }

  lemma SavedKeepsWeakInv(s: State, c: CallerId)
    requires WeakInv(s) && Enabled(s, Saved(c))
    ensures WeakInv(Next(s, Saved(c)))
  {
    hide Ordered, Overtaken;
    var t := Next(s, Saved(c));
    assert Placed(s, c, s.callers[c]);
    forall d | d in t.callers ensures Placed(t, d, t.callers[d]) {
      assert Placed(s, d, s.callers[d]);
    }
  }

  lemma StepKeepsWeakInv(s: State, step: Step)
    requires WeakInv(s) && Enabled(s, step)
    ensures WeakInv(Next(s, step))
  {
    if step.Granted? || step.ReplyLost? {
      IssueKeepsWeakInv(s, Next(s, step), step.c, step.tokens);
    } else if step.Saved? {
      SavedKeepsWeakInv(s, step.c);
    } else if step.Recheck? {
      RecheckKeepsWeakInv(s, step.c, step.ample);
    } else {
      hide WeakInv, Ordered, Overtaken;
      WeakInvPlaces(s, step.c);
      MoveKeepsWeakInv(s, Next(s, step), step.c, Next(s, step).callers[step.c]);
    }
  }

  lemma RecheckKeepsWeakInv(s: State, c: CallerId, ample: bool)
    requires WeakInv(s) && Enabled(s, Recheck(c, ample))
    ensures WeakInv(Next(s, Recheck(c, ample)))
  {
    hide WeakInv, Ordered, Overtaken;
    var t := Next(s, Recheck(c, ample));
    WeakInvPlaces(s, c);
    SameStored(s, t, t.callers[c].session);
    MoveKeepsWeakInv(s, t, c, t.callers[c]);
  }

  lemma WeakInvPlaces(s: State, c: CallerId)
    requires WeakInv(s)
    ensures s.issued != [] && s.stored in s.issued && (c in s.callers ==> Placed(s, c, s.callers[c]))
    ensures s.holder == Some(c) ==> c in s.callers && InCriticalSection(s.callers[c].place)
  {}

  lemma {:induction false} RunKeepsWeakInv(s: State, steps: seq<Step>)
    requires WeakInv(s) && IsRun(s, steps)
    ensures WeakInv(After(s, steps))
    decreases |steps|
  {
    hide WeakInv, Next, Enabled;
    if steps != [] {
      StepKeepsWeakInv(s, steps[0]);
      RunKeepsWeakInv(Next(s, steps[0]), steps[1..]);
    }
  }

  /** As long as nothing is lost, storing works and replies arrive, nobody presents a spent token. */
  lemma {:induction false} NothingLost(s: State, steps: seq<Step>)
    requires WeakInv(s) && !Lost(s) && IsRun(s, steps) && forall step :: step in steps ==> Smooth(step)
    ensures !PresentsSpent(After(s, steps))
    decreases |steps|
  {
    if steps == [] {
      if c :| At(s, c, Requesting) && s.callers[c].session.refresh in s.spent {
        assert Placed(s, c, s.callers[c]);
        NotBeforeNewest(s, s.callers[c].session);
        assert false;
      }
    } else {
      StepKeepsWeakInv(s, steps[0]);
      assert steps[0] in steps;
      StaysFound(s, steps[0]);
      NothingLost(Next(s, steps[0]), steps[1..]);
    }
  }

  lemma StaysFound(s: State, step: Step)
    requires WeakInv(s) && !Lost(s) && Enabled(s, step) && Smooth(step) && WeakInv(Next(s, step))
    ensures !Lost(Next(s, step))
  {
    hide Ordered, Overtaken;
    assert step.c in s.callers ==> Placed(s, step.c, s.callers[step.c]);
  }

  lemma FreshCaller(s: State) returns (d: CallerId)
    ensures d !in s.callers
  {
    d := AboveAll(s.callers.Keys);
  }

  lemma {:induction false} AboveAll(ids: set<CallerId>) returns (d: CallerId)
    ensures forall id :: id in ids ==> id < d
    decreases |ids|
  {
    d := 0;
    if ids != {} {
      var id :| id in ids;
      var rest := AboveAll(ids - {id});
      d := if id < rest then rest else id + 1;
      assert forall other :: other in ids ==> other == id || other in ids - {id};
    }
  }

  /** Who holds the lock, without new tokens to store, can leave without storing anything. */
  lemma LockCanBeFreed(s: State) returns (steps: seq<Step>)
    requires WeakInv(s) && !AboutToSave(s)
    ensures IsRun(s, steps) && (forall step :: step in steps ==> Smooth(step))
    ensures var t := After(s, steps); t.holder.None? && t.stored == s.stored && t.spent == s.spent
  {
    hide Overtaken, Ordered;
    RunsNothing(s);
    steps := [];
    if s.holder.Some? {
      var c := s.holder.value;
      assert Placed(s, c, s.callers[c]);
      if At(s, c, Locked) {
        RunsOnce(s, Recheck(c, true));
        steps := [Recheck(c, true)];
        var t := Next(s, Recheck(c, true));
        if At(t, c, Requesting) {
          Extend(s, steps, Refused(c));
          steps := steps + [Refused(c)];
        }
      } else {
        RunsOnce(s, Refused(c));
        steps := [Refused(c)];
      }
    }
  }

  /** A new caller loads the stored session and asks for a refresh. */
  lemma NewcomerPresentsStored(s: State) returns (steps: seq<Step>)
    requires s.holder.None? && s.stored.refresh in s.spent
    ensures IsRun(s, steps) && PresentsSpent(After(s, steps)) && forall step :: step in steps ==> Smooth(step)
  {
    var d := FreshCaller(s);
    var loaded := Next(s, Load(d));
    var waiting := Next(loaded, Begin(d, true, false));
    RunsOnce(s, Load(d));
    Extend(s, [Load(d)], Begin(d, true, false));
    Chain(s, [Load(d)] + [Begin(d, true, false)], Acquire(d), Recheck(d, false));
    steps := [Load(d)] + [Begin(d, true, false)] + [Acquire(d)] + [Recheck(d, false)];
    assert At(After(s, steps), d, Requesting);
  }

  lemma Chain(s: State, steps: seq<Step>, a: Step, b: Step)
    requires IsRun(s, steps) && Enabled(After(s, steps), a) && Enabled(Next(After(s, steps), a), b)
    ensures IsRun(s, steps + [a] + [b]) && After(s, steps + [a] + [b]) == Next(Next(After(s, steps), a), b)
  {
    hide Next, Enabled, IsRun, After;
    Extend(s, steps, a);
    Extend(s, steps + [a], b);
  }

  /** A run may go on, with no failure to store and no lost reply, to a state where a spent token is presented. */
  ghost predicate LeadsToSpent(s: State, more: seq<Step>) {
    IsRun(s, more) && (forall step :: step in more ==> Smooth(step)) && PresentsSpent(After(s, more))
  }

  /** Whatever happened before, failures to store and lost replies included: a spent token can be presented later,
      without any further one of these, if and only if the last granted pair was not stored and is not about to be. */
  lemma SpentIsPresentedIffLost(first: Session, steps: seq<Step>)
    requires first.access != "" && first.refresh != "" && IsRun(Start(first), steps)
    ensures After(Start(first), steps).issued != []
    ensures var s := After(Start(first), steps); (exists more :: LeadsToSpent(s, more)) <==> Lost(s)
  {
    hide Start, After, IsRun, WeakInv;
    StartIsWeakInv(first);
    RunKeepsWeakInv(Start(first), steps);
    var s := After(Start(first), steps);
    WeakInvMeans(s);
    if Lost(s) {
      var freeing := LockCanBeFreed(s);
      RunKeepsWeakInv(s, freeing);
      var t := After(s, freeing);
      var asking := NewcomerPresentsStored(t);
      ExtendAll(s, freeing, asking);
      assert LeadsToSpent(s, freeing + asking);
    }
    if more :| LeadsToSpent(s, more) {
      if !Lost(s) {
        NothingLost(s, more);
      }
    }
  }

  lemma StartIsWeakInv(first: Session)
    requires first.access != "" && first.refresh != ""
    ensures WeakInv(Start(first))
  {}

  lemma WeakInvMeans(s: State)
    requires WeakInv(s)
    ensures s.issued != [] && (s.stored.refresh in s.spent <==> s.stored != Newest(s))
  {}

  /** Two callers race; the first gets new tokens and fails to store them; the second presents a spent token. */
  lemma FailedSaveSpendsTwice(first: Session, tokens: Session)
    requires first.access != "" && first.refresh != ""
    requires MayIssue(Start(first), tokens)
    ensures var steps := [Load(0), Load(1), Begin(0, true, false), Begin(1, true, false), Acquire(0), Recheck(0, false),
                          Granted(0, tokens), SaveFailed(0), Acquire(1), Recheck(1, false)];
      IsRun(Start(first), steps) && PresentsSpent(After(Start(first), steps))
  {
    hide IsRun, After, Start;
    var s := Start(first);
    var a := [Load(0), Load(1), Begin(0, true, false), Begin(1, true, false)];
    var b := [Acquire(0), Recheck(0, false), Granted(0, tokens)];
    var c := [SaveFailed(0), Acquire(1), Recheck(1, false)];
    TwoCallersWait(first);
    FirstGetsTokens(first, tokens);
    SecondPresentsSpent(first, tokens);
    ExtendAll(s, a, b);
    ExtendAll(s, a + b, c);
    assert a + b + c == [Load(0), Load(1), Begin(0, true, false), Begin(1, true, false), Acquire(0), Recheck(0, false),
                         Granted(0, tokens), SaveFailed(0), Acquire(1), Recheck(1, false)];
  }

  /** The same when the first caller's reply is lost. */
  lemma LostReplySpendsTwice(first: Session, tokens: Session)
    requires first.access != "" && first.refresh != ""
    requires MayIssue(Start(first), tokens)
    ensures var steps := [Load(0), Load(1), Begin(0, true, false), Begin(1, true, false), Acquire(0), Recheck(0, false),
                          ReplyLost(0, tokens), Acquire(1), Recheck(1, false)];
      IsRun(Start(first), steps) && PresentsSpent(After(Start(first), steps))
  {
    hide IsRun, After, Start;
    var s := Start(first);
    var a := [Load(0), Load(1), Begin(0, true, false), Begin(1, true, false)];
    var b, c := [Acquire(0), Recheck(0, false), ReplyLost(0, tokens)], [Acquire(1), Recheck(1, false)];
    TwoCallersWait(first);
    FirstLosesReply(first, tokens);
    ExtendAll(s, a, b);
    ExtendAll(s, a + b, c);
    assert a + b + c == [Load(0), Load(1), Begin(0, true, false), Begin(1, true, false), Acquire(0), Recheck(0, false),
                         ReplyLost(0, tokens), Acquire(1), Recheck(1, false)];
  }

  lemma FirstLosesReply(first: Session, tokens: Session)
    requires MayIssue(Start(first), tokens)
    ensures var b, c := [Acquire(0), Recheck(0, false), ReplyLost(0, tokens)], [Acquire(1), Recheck(1, false)];
      && IsRun(BothWait(first), b) && IsRun(After(BothWait(first), b), c)
      && PresentsSpent(After(After(BothWait(first), b), c))
  {
    var s := BothWait(first);
    var asking := Next(Next(s, Acquire(0)), Recheck(0, false));
    assert asking.issued == Start(first).issued;
    Chain3(s, Acquire(0), Recheck(0, false), ReplyLost(0, tokens));
    var t := Next(asking, ReplyLost(0, tokens));
    RunsOnce(t, Acquire(1));
    Extend(t, [Acquire(1)], Recheck(1, false));
    assert [Acquire(1)] + [Recheck(1, false)] == [Acquire(1), Recheck(1, false)];
    assert At(Next(Next(t, Acquire(1)), Recheck(1, false)), 1, Requesting);
  }

  function BothWait(first: Session): State {
    State(map[0 := Caller(Waiting, first, true), 1 := Caller(Waiting, first, true)], None, first, [first], [])
  }

  function FirstSaves(first: Session, tokens: Session): State {
    State(map[0 := Caller(Saving, tokens, true), 1 := Caller(Waiting, first, true)], Some(0), first,
          [first, tokens], [first.refresh])
  }

  lemma FirstGetsTokens(first: Session, tokens: Session)
    requires MayIssue(Start(first), tokens)
    ensures var b := [Acquire(0), Recheck(0, false), Granted(0, tokens)];
      IsRun(BothWait(first), b) && After(BothWait(first), b) == FirstSaves(first, tokens)
  {
    var s := BothWait(first);
    var locked := Next(s, Acquire(0));
    var asking := Next(locked, Recheck(0, false));
    assert asking.issued == Start(first).issued;
    Chain3(s, Acquire(0), Recheck(0, false), Granted(0, tokens));
  }

  lemma SecondPresentsSpent(first: Session, tokens: Session)
    ensures var c := [SaveFailed(0), Acquire(1), Recheck(1, false)];
      IsRun(FirstSaves(first, tokens), c) && PresentsSpent(After(FirstSaves(first, tokens), c))
  {
    var s := FirstSaves(first, tokens);
    Chain3(s, SaveFailed(0), Acquire(1), Recheck(1, false));
    var t := Next(Next(Next(s, SaveFailed(0)), Acquire(1)), Recheck(1, false));
    assert At(t, 1, Requesting);
  }

  lemma TwoCallersWait(first: Session)
    ensures var a, s := [Load(0), Load(1), Begin(0, true, false), Begin(1, true, false)], Start(first);
      && IsRun(s, a)
      && After(s, a) == BothWait(first)
  {
    var s := Start(first);
    RunsOnce(s, Load(0));
    Chain(s, [Load(0)], Load(1), Begin(0, true, false));
    Extend(s, [Load(0)] + [Load(1)] + [Begin(0, true, false)], Begin(1, true, false));
    assert [Load(0)] + [Load(1)] + [Begin(0, true, false)] + [Begin(1, true, false)] ==
      [Load(0), Load(1), Begin(0, true, false), Begin(1, true, false)];
  }

  // ----- one call, uninterrupted -----

  /** How an uninterrupted call ends. */
  function CallResult(session: Session, stored: Session, force: bool, ample: bool, ampleAgain: bool, answered: bool,
                      saves: bool): Result {
    if !force && ample then Kept
    else if stored.access != "" && stored.refresh != "" && stored.accessExpiresAt > session.accessExpiresAt then Adopted
    else if !force && ampleAgain then Kept
    else if answered && saves then Refreshed
    else Failed
  }

  /** The server was asked. */
  predicate Asks(result: Result) { result.Refreshed? || result.Failed? }

  class AccountSession {
    var value: Session

    constructor (value: Session)
      ensures this.value == value
    {
      this.value := value;
    }
  }

  class Client {
    var stored: Session
    ghost var issued: seq<Session>
    ghost var spent: seq<string>

    constructor (first: Session)
      ensures stored == first && issued == [first] && spent == []
    {
      stored, issued, spent := first, [first], [];
    }

    /** The protocol's state with this one caller. */
    ghost function Alone(place: Place, session: AccountSession, force: bool, holder: Option<CallerId>): State
      reads this, session
    {
      State(map[0 := Caller(place, session.value, force)], holder, stored, issued, spent)
    }

    /** Up to the request: the looks at the clock, the lock, the stored session. */
    method CheckSession(session: AccountSession, force: bool, ample: bool, ampleAgain: bool)
      returns (result: Option<Result>, ghost steps: seq<Step>)
      modifies session
      ensures IsRun(old(Alone(Outside, session, force, None)), steps)
      ensures After(old(Alone(Outside, session, force, None)), steps) ==
        if result.Some? then Alone(Returned(result.value), session, force, None)
        else Alone(Requesting, session, force, Some(0))
      ensures result.None? ==> session.value == old(session.value)
      ensures result.Some? ==> result.value == CallResult(old(session.value), stored, force, ample, ampleAgain, false, false)
      ensures result.Some? ==> !Asks(result.value)
      ensures result.Some? ==> session.value == if result.value.Adopted? then stored else old(session.value)
      ensures result.None? ==> CallResult(old(session.value), stored, force, ample, ampleAgain, false, false) == Failed
    {
      hide IsRun, After;
      ghost var start := Alone(Outside, session, force, None);
      OneCaller(start);
      RunsOnce(start, Begin(0, force, ample));
      steps := [Begin(0, force, ample)];
      if !force && ample {
        result := Some(Kept);
        return;
      }
      steps := [Begin(0, force, ample), Acquire(0), Recheck(0, ampleAgain)];
      Chain3(start, steps[0], steps[1], steps[2]);
      var latest := stored;
      if latest.access != "" && latest.refresh != "" && latest.accessExpiresAt > session.value.accessExpiresAt {
        session.value := latest;
        result := Some(Adopted);
        return;
      }
      if !force && ampleAgain {
        result := Some(Kept);
        return;
      }
      result := None;
    }

    /** A request that brings no tokens: refused, or accepted without its reply arriving. */
    ghost method NoReply(session: AccountSession, force: bool, lost: Option<Session>) returns (steps: seq<Step>)
      requires lost.Some? ==> MayIssue(Alone(Requesting, session, force, Some(0)), lost.value)
      modifies this`issued, this`spent
      ensures IsRun(old(Alone(Requesting, session, force, Some(0))), steps)
      ensures After(old(Alone(Requesting, session, force, Some(0))), steps) == Alone(Returned(Failed), session, force, None)
    {
      hide MayIssue;
      var start := Alone(Requesting, session, force, Some(0));
      OneCaller(start);
      var step := if lost.Some? then ReplyLost(0, lost.value) else Refused(0);
      RunsOnce(start, step);
      steps := [step];
      if lost.Some? {
        issued, spent := issued + [lost.value], spent + [session.value.refresh];
      }
    }

    /** The request and what comes of it. `lost` are the tokens of a reply that does not arrive. */
    method Request(session: AccountSession, force: bool, reply: Option<Session>, ghost lost: Option<Session>, saves: bool)
      returns (result: Result, ghost steps: seq<Step>)
      requires reply.Some? ==> MayIssue(Alone(Requesting, session, force, Some(0)), reply.value)
      requires lost.Some? ==> MayIssue(Alone(Requesting, session, force, Some(0)), lost.value)
      modifies this, session
      ensures IsRun(old(Alone(Requesting, session, force, Some(0))), steps)
      ensures After(old(Alone(Requesting, session, force, Some(0))), steps) == Alone(Returned(result), session, force, None)
      ensures result == if reply.Some? && saves then Refreshed else Failed
      ensures session.value == if reply.Some? then reply.value else old(session.value)
      ensures stored == if result == Refreshed then session.value else old(stored)
      ensures reply.Some? ==> spent == old(spent) + [old(session.value.refresh)]
    {
      hide MayIssue, IsRun, After;
      if reply.None? {
        steps := NoReply(session, force, lost);
        return Failed, steps;
      }
      ghost var start := Alone(Requesting, session, force, Some(0));
      ghost var last := if saves then Saved(0) else SaveFailed(0);
      RunOfGrant(start, reply.value, last);
      steps := [Granted(0, reply.value), last];
      issued, spent := issued + [reply.value], spent + [session.value.refresh];
      session.value := reply.value;
      OneCaller(start);
      if !saves {
        result := Failed;
        return;
      }
      stored := session.value;
      result := Refreshed;
    }

    /** The call as one goroutine makes it. `ample` and `ampleAgain` are its two looks at the clock, `reply` is
        the server's answer, `lost` what it issued without its answer arriving, `saves` whether storing works. What
        it does is a run of the protocol. */
    method EnsureFreshToken(session: AccountSession, force: bool, ample: bool, ampleAgain: bool,
                            reply: Option<Session>, ghost lost: Option<Session>, saves: bool)
      returns (result: Result, ghost steps: seq<Step>)
      requires reply.Some? ==> MayIssue(Alone(Requesting, session, force, Some(0)), reply.value)
      requires lost.Some? ==> MayIssue(Alone(Requesting, session, force, Some(0)), lost.value)
      modifies this, session
      ensures IsRun(old(Alone(Outside, session, force, None)), steps)
      ensures After(old(Alone(Outside, session, force, None)), steps) == Alone(Returned(result), session, force, None)
      ensures result == CallResult(old(session.value), old(stored), force, ample, ampleAgain, reply.Some?, saves)
      ensures session.value == if result == Adopted then old(stored) else if reply.Some? && Asks(result) then reply.value
                               else old(session.value)
      ensures stored == if result == Refreshed then reply.value else old(stored)
      ensures Asks(result) && reply.Some? ==> spent == old(spent) + [old(session.value.refresh)]
      ensures !Asks(result) ==> spent == old(spent) && issued == old(issued)
    {
      hide IsRun, After;
      ghost var start := Alone(Outside, session, force, None);
      var checked;
      checked, steps := CheckSession(session, force, ample, ampleAgain);
      if checked.Some? {
        return checked.value, steps;
      }
      ghost var more;
      result, more := Request(session, force, reply, lost, saves);
      ExtendAll(start, steps, more);
      steps := steps + more;
    }
  }

  lemma RunOfGrant(s: State, tokens: Session, last: Step)
    requires At(s, 0, Requesting) && MayIssue(s, tokens) && (last == Saved(0) || last == SaveFailed(0))
    ensures IsRun(s, [Granted(0, tokens), last])
    ensures After(s, [Granted(0, tokens), last]) == Next(Next(s, Granted(0, tokens)), last)
  {
    hide MayIssue;
    RunsOnce(s, Granted(0, tokens));
    Extend(s, [Granted(0, tokens)], last);
    assert [Granted(0, tokens)] + [last] == [Granted(0, tokens), last];
  }

  lemma OneCaller(s: State)
    requires s.callers.Keys == {0}
    ensures forall caller: Caller :: s.callers[0 := caller] == map[0 := caller]
  {}

  lemma {:induction false} ExtendAll(s: State, a: seq<Step>, b: seq<Step>)
    requires IsRun(s, a) && IsRun(After(s, a), b)
    ensures IsRun(s, a + b) && After(s, a + b) == After(After(s, a), b)
    decreases |a|
  {
    hide Next, Enabled;
    if a == [] {
      assert a + b == b;
    } else {
      assert (a + b)[1..] == a[1..] + b && (a + b)[0] == a[0];
      ExtendAll(Next(s, a[0]), a[1..], b);
    }
  }

  lemma RunsNothing(s: State)
    ensures IsRun(s, []) && After(s, []) == s
  {}

  lemma RunsOnce(s: State, step: Step)
    requires Enabled(s, step)
    ensures IsRun(s, [step]) && After(s, [step]) == Next(s, step)
  {
    assert [step][1..] == [];
    RunsNothing(Next(s, step));
  }

  lemma {:induction false} Extend(s: State, steps: seq<Step>, step: Step)
    requires IsRun(s, steps) && Enabled(After(s, steps), step)
    ensures IsRun(s, steps + [step]) && After(s, steps + [step]) == Next(After(s, steps), step)
    decreases |steps|
  {
    hide Next, Enabled;
    if steps == [] {
      assert steps + [step] == [step];
      RunsOnce(s, step);
    } else {
      assert (steps + [step])[1..] == steps[1..] + [step] && (steps + [step])[0] == steps[0];
      Extend(Next(s, steps[0]), steps[1..], step);
    }
  }

  lemma Chain3(s: State, a: Step, b: Step, c: Step)
    requires Enabled(s, a) && Enabled(Next(s, a), b) && Enabled(Next(Next(s, a), b), c)
    ensures IsRun(s, [a, b, c]) && After(s, [a, b, c]) == Next(Next(Next(s, a), b), c)
  {
    hide Next, Enabled;
    RunsOnce(s, a);
    Extend(s, [a], b);
    Extend(s, [a] + [b], c);
    assert [a] + [b] + [c] == [a, b, c];
  }
}
