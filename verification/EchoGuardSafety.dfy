/** What every run of keys and output keeps: a confirmed command was shown, in order, and a line that is
    unreliable or unsafe is never confirmed. */
module EchoGuardSafety {
  import opened Sequences
  import opened TerminalText
  import opened EchoGuard

  datatype Action = Typed(text: Text) | Rubout | Cursor | Enter | Output(text: Text)

  function Act(s: State, a: Action): (r: State)
    requires |s.traces| == |s.submitted|
    ensures |r.traces| == |r.submitted|
  {
    match a
    case Typed(text) => Append(s, text)
    case Rubout => Erased(s)
    case Cursor => Distrusted(s)
    case Enter => SubmitLine(s)
    case Output(text) => ConsumeAll(s, Tokens(text, 0))
  }

  function Run(s: State, actions: seq<Action>): (r: State)
    requires |s.traces| == |s.submitted|
    ensures |r.traces| == |r.submitted|
    decreases |actions|
  {
    if actions == [] then s else Run(Act(s, actions[0]), actions[1..])
  }

  // ----- the invariant -----

  /** The part of the line that is not awaited any more. */
  function Seen(l: Line): Text { if |l.pending| <= |l.command| then l.command[..|l.command| - |l.pending|] else [] }

  /** What is not awaited any more was shown, in order, perhaps among other output; of a line that was only typed,
      what was shown and what is still awaited make up the command. */
  predicate Accounted(l: Line, t: Trace) {
    && (l.echoSafe ==> IsSuffix(l.pending, l.command) && IsSubsequence(Seen(l), t.shown))
    && (l.echoSafe && !t.erased ==> l.command == t.shown + l.pending)
  }

  predicate CurrentInv(l: Line, t: Trace) {
    && Accounted(l, t)
    && (!l.echoSafe ==> l.pending == [] && !l.justConfirmed)
    && (l.justConfirmed ==> l.pending == [])
    && (!l.reliable ==> !l.echoSafe)
    && (l.echoSafe && !t.erased && l.command != [] ==> l.pending != [] || l.justConfirmed)
  }

  predicate QueuedInv(s: State, l: Line, t: Trace) {
    && Accounted(l, t) && Confirmable(l) && !l.justConfirmed
    && t.id < |s.submissions| && s.submissions[t.id].line.command == l.command
    && Confirmable(s.submissions[t.id].line)
  }

  predicate ConfirmedInv(s: State, c: Confirmation) {
    && IsSubsequence(c.command, c.trace.shown)
    && (!c.trace.erased ==> c.trace.shown == c.command)
    && c.trace.id < |s.submissions| && s.submissions[c.trace.id].line.command == c.command
    && Confirmable(s.submissions[c.trace.id].line)
  }

  predicate Inv(s: State) {
    && |s.traces| == |s.submitted|
    && CurrentInv(s.current, s.trace)
    && (forall i :: 0 <= i < |s.submitted| ==> QueuedInv(s, s.submitted[i], s.traces[i]))
    && (forall i :: 0 <= i < |s.confirmed| ==> ConfirmedInv(s, s.confirmed[i]))
    && (forall i, j :: 0 <= i < j < |s.traces| ==> s.traces[i].id < s.traces[j].id)
    && (forall i, j :: 0 <= i < j < |s.confirmed| ==> s.confirmed[i].trace.id < s.confirmed[j].trace.id)
    && (forall i, j :: 0 <= i < |s.confirmed| && 0 <= j < |s.traces| ==> s.confirmed[i].trace.id < s.traces[j].id)
  }

  // ----- keys -----

  lemma AppendKeepsSuffix(tail: Text, s: Text, value: Text)
    requires IsSuffix(tail, s)
    ensures IsSuffix(tail + value, s + value)
    ensures (s + value)[..|s| - |tail|] == s[..|s| - |tail|]
  {
    var n := |s| - |tail|;
    assert (s + value)[n..] == s[n..] + value;
  }

  lemma AppendAccounts(l: Line, t: Trace, value: Text)
    requires CurrentInv(l, t) && value != [] && l.echoSafe
    ensures Accounted(l.(command := l.command + value, justConfirmed := false, pending := l.pending + value), t)
  {
    AppendKeepsSuffix(l.pending, l.command, value);
    hide IsSubsequence, IsSuffix;
    assert Seen(l.(command := l.command + value, pending := l.pending + value)) == Seen(l) by {
      SuffixIsShorter(l.pending, l.command);
    }
    assert l.command == t.shown + l.pending ==> l.command + value == t.shown + (l.pending + value) by {
      assert t.shown + (l.pending + value) == (t.shown + l.pending) + value;
    }
  }

  lemma SuffixIsShorter(tail: Text, s: Text)
    requires IsSuffix(tail, s)
    ensures |tail| <= |s|
  {}

  lemma AppendKeeps(s: State, value: Text)
    requires Inv(s)
    ensures Inv(Append(s, value))
  {
    hide Inv, IsSuffix;
    if value != [] {
      assert CurrentInv(s.current, s.trace) by {
        InvOfCurrent(s);
      }
      if s.current.echoSafe {
        AppendAccounts(s.current, s.trace, value);
      }
      SameQueue(s, Append(s, value));
    }
  }

  lemma InvOfCurrent(s: State)
    requires Inv(s)
    ensures CurrentInv(s.current, s.trace)
  {}

  /** Both ends are cut, the awaited one not by more. */
  lemma CutKeepsSuffix(tail: Text, s: Text, n: nat, m: nat)
    requires IsSuffix(tail, s) && n <= |tail| && m <= |s| && n <= m
    requires n == m || n == |tail|
    ensures var a, b := tail[..|tail| - n], s[..|s| - m];
      IsSuffix(a, b) && |b| - |a| <= |s| - |tail| && b[..|b| - |a|] == s[..|s| - |tail|][..|b| - |a|]
  {
    var a, b := tail[..|tail| - n], s[..|s| - m];
    if n == m {
      assert b[|b| - |a|..] == s[|s| - |tail|..][..|a|];
    } else {
      assert a == [] && b[|b|..] == [];
    }
  }

  lemma LastLengths(tail: Text, s: Text)
    requires IsSuffix(tail, s) && tail != []
    ensures LastLength(tail) <= LastLength(s)
    ensures LastLength(tail) == LastLength(s) || LastLength(tail) == |tail|
  {
    assert s[|s| - |tail|..][|tail| - 1] == s[|s| - 1];
    assert |tail| >= 2 ==> s[|s| - |tail|..][|tail| - 2] == s[|s| - 2];
  }

  /** Both ends lose a code point. */
  lemma BackspaceAccounts(l: Line, t: Trace)
    requires CurrentInv(l, t) && l.echoSafe && l.command != []
    ensures Accounted(l.(command := DropLast(l.command), justConfirmed := false,
                         pending := if l.pending != [] then DropLast(l.pending) else l.pending), t.(erased := true))
  {
    hide DropLast, IsSubsequence, IsSuffix;
    var after := l.(command := DropLast(l.command), pending := if l.pending != [] then DropLast(l.pending) else l.pending);
    BackspaceKeepsSuffix(l.pending, l.command);
    SuffixIsShorter(l.pending, l.command);
    SuffixIsShorter(after.pending, after.command);
    PrefixIsSubsequence(Seen(l), t.shown, |after.command| - |after.pending|);
  }

  lemma BackspaceKeepsSuffix(tail: Text, s: Text)
    requires IsSuffix(tail, s) && s != []
    ensures var a, b := if tail != [] then DropLast(tail) else tail, DropLast(s);
      IsSuffix(a, b) && |b| - |a| <= |s| - |tail| && b[..|b| - |a|] == s[..|s| - |tail|][..|b| - |a|]
  {
    hide DropLast, LastLength;
    DropLastCuts(s);
    if tail != [] {
      DropLastCuts(tail);
      LastLengths(tail, s);
      CutKeepsSuffix(tail, s, LastLength(tail), LastLength(s));
    } else {
      CutKeepsSuffix(tail, s, 0, LastLength(s));
      assert tail[..0] == tail;
    }
  }

  lemma BackspaceKeeps(s: State)
    requires Inv(s)
    ensures Inv(Erased(s))
  {
    hide Inv, DropLast, IsSuffix, IsSubsequence;
    if s.current.command != [] {
      InvOfCurrent(s);
      if s.current.echoSafe {
        BackspaceAccounts(s.current, s.trace);
      }
      SameQueue(s, Erased(s));
    }
  }

  lemma SubmittedAccounts(l: Line, t: Trace, id: nat)
    requires Accounted(l, t)
    ensures Accounted(l.(justConfirmed := false), t.(id := id))
    ensures CurrentInv(NEW_LINE, Trace([], false, id))
  {
    hide IsSubsequence;
    assert IsSubsequence(Seen(NEW_LINE), []) by {
      EmptyIsSubsequence(NEW_LINE);
    }
  }

  lemma EmptyIsSubsequence(l: Line)
    requires l.command == []
    ensures IsSubsequence(Seen(l), [])
  {}

  lemma SubmitKeeps(s: State)
    requires Inv(s)
    ensures Inv(SubmitLine(s))
  {
    hide HasText, Accounted;
    var t := SubmitLine(s);
    SubmittedAccounts(s.current, s.trace, |s.submissions|);
    SubmittedAccounts(s.current, s.trace, |s.submissions| + 1);
    forall i | 0 <= i < |t.submitted| ensures QueuedInv(t, t.submitted[i], t.traces[i]) {
      if i < |s.submitted| {
        assert QueuedInv(s, s.submitted[i], s.traces[i]);
      }
    }
    forall i | 0 <= i < |t.confirmed| ensures ConfirmedInv(t, t.confirmed[i]) {
      assert ConfirmedInv(s, s.confirmed[i]);
    }
    forall j | 0 <= j < |s.traces| ensures s.traces[j].id < |s.submissions| {
      assert QueuedInv(s, s.submitted[j], s.traces[j]);
    }
    forall i | 0 <= i < |s.confirmed| ensures s.confirmed[i].trace.id < |s.submissions| {
      assert ConfirmedInv(s, s.confirmed[i]);
    }
  }

  // ----- output -----

  lemma ShiftKeeps(s: State)
    requires Inv(s) && s.submitted != []
    ensures Inv(Shift(s))
  {
    hide HasText, Accounted, IsSubsequence;
    var t := Shift(s);
    forall i | 0 <= i < |t.submitted| ensures QueuedInv(t, t.submitted[i], t.traces[i]) {
      assert QueuedInv(s, s.submitted[i + 1], s.traces[i + 1]);
    }
    forall i | 0 <= i < |t.confirmed| ensures ConfirmedInv(t, t.confirmed[i]) {
      assert ConfirmedInv(s, s.confirmed[i]);
    }
  }

  lemma CutFirst(first: Text, rest: Text, s: Text)
    requires IsSuffix(first + rest, s)
    ensures IsSuffix(rest, s) && s[..|s| - |rest|] == s[..|s| - |first + rest|] + first
  {
    var n := |s| - |first + rest|;
    assert s[n..][|first|..] == s[|s| - |rest|..];
    assert s[n..][..|first|] == s[n..n + |first|];
  }

  lemma PointsOf(pending: Text)
    requires pending != []
    ensures FirstPoint(pending) + DropFirst(pending) == pending
  {}

  /** Matching the awaited code point moves it from the awaited to the shown part. */
  lemma MatchKeepsAccount(command: Text, shown: Text, pending: Text)
    requires pending != []
    ensures IsSuffix(pending, command) ==> IsSuffix(DropFirst(pending), command)
    ensures IsSuffix(pending, command) && IsSubsequence(command[..|command| - |pending|], shown) ==>
      IsSubsequence(command[..|command| - |DropFirst(pending)|], shown + FirstPoint(pending))
    ensures command == shown + pending ==> command == (shown + FirstPoint(pending)) + DropFirst(pending)
  {
    hide FirstPoint, DropFirst, IsSubsequence;
    var first, rest := FirstPoint(pending), DropFirst(pending);
    PointsOf(pending);
    if IsSuffix(pending, command) {
      CutFirst(first, rest, command);
      if IsSubsequence(command[..|command| - |pending|], shown) {
        SubsequenceGrows(command[..|command| - |pending|], shown, first);
      }
    }
    assert shown + (first + rest) == (shown + first) + rest;
  }

  lemma MatchAccounts(l: Line, t: Trace)
    requires Accounted(l, t) && l.echoSafe && l.pending != []
    ensures Accounted(l.(pending := DropFirst(l.pending)), t.(shown := t.shown + FirstPoint(l.pending)))
    ensures Accounted(l.(pending := DropFirst(l.pending), justConfirmed := DropFirst(l.pending) == []),
                      t.(shown := t.shown + FirstPoint(l.pending)))
  {
    hide FirstPoint, DropFirst, IsSubsequence;
    MatchKeepsAccount(l.command, t.shown, l.pending);
  }

  lemma SubmittedCharKeeps(s: State, c: Text)
    requires Inv(s) && s.submitted != []
    ensures Inv(SubmittedChar(s, c))
  {
    hide HasText, FirstPoint, DropFirst, Accounted;
    var l, t := s.submitted[0], SubmittedChar(s, c);
    assert QueuedInv(s, l, s.traces[0]);
    if !l.echoSafe || l.pending == [] || c != FirstPoint(l.pending) {
      ShiftKeeps(s);
    } else {
      MatchAccounts(l, s.traces[0]);
      forall i | 0 <= i < |t.submitted| ensures QueuedInv(t, t.submitted[i], t.traces[i]) {
        assert QueuedInv(s, s.submitted[i], s.traces[i]);
      }
      forall i | 0 <= i < |t.confirmed| ensures ConfirmedInv(t, t.confirmed[i]) {
        assert ConfirmedInv(s, s.confirmed[i]);
      }
    }
  }

  lemma CurrentCharKeeps(s: State, c: Text)
    requires Inv(s)
    ensures Inv(CurrentChar(s, c))
  {
    hide HasText, FirstPoint, DropFirst, Inv, IsSuffix, IsSubsequence;
    var l, t := s.current, CurrentChar(s, c);
    InvOfCurrent(s);
    if l.pending != [] && l.echoSafe && c == FirstPoint(l.pending) {
      MatchAccounts(l, s.trace);
    }
    if l.echoSafe {
      SubsequenceGrows(Seen(l), s.trace.shown, c);
    }
    SameQueue(s, t);
  }

  /** The queue's part of the invariant does not look at the current line. */
  lemma SameQueue(s: State, t: State)
    requires Inv(s) && CurrentInv(t.current, t.trace)
    requires t == s.(current := t.current, trace := t.trace)
    ensures Inv(t)
  {
    hide CurrentInv, Accounted, Confirmable;
    forall i | 0 <= i < |t.submitted| ensures QueuedInv(t, t.submitted[i], t.traces[i]) {
      assert QueuedInv(s, s.submitted[i], s.traces[i]);
    }
    forall i | 0 <= i < |t.confirmed| ensures ConfirmedInv(t, t.confirmed[i]) {
      assert ConfirmedInv(s, s.confirmed[i]);
    }
  }

  lemma UnsafeIsFine(l: Line, t: Trace)
    requires CurrentInv(l, t)
    ensures CurrentInv(MarkUnsafe(l), t)
  {
    hide IsSubsequence;
  }

  /** A line of which nothing is awaited any more was shown. */
  lemma SeenIsConfirmed(s: State, l: Line, t: Trace)
    requires QueuedInv(s, l, t)
    ensures l.pending == [] ==> ConfirmedInv(s, Confirmation(l.command, t))
  {
    hide HasText, IsSubsequence;
    if l.pending == [] {
      assert Seen(l) == l.command && t.shown + [] == t.shown;
    }
  }

  lemma LineBoundaryKeeps(s: State)
    requires Inv(s)
    ensures Inv(LineBoundary(s))
  {
    hide HasText, Accounted;
    var t := LineBoundary(s);
    if s.submitted == [] {
      InvOfCurrent(s);
      UnsafeIsFine(s.current, s.trace);
      SameQueue(s, t);
    } else {
      var l := s.submitted[0];
      assert QueuedInv(s, l, s.traces[0]);
      ShiftKeeps(s);
      SeenIsConfirmed(s, l, s.traces[0]);
      var u := Shift(s);
      forall i | 0 <= i < |t.submitted| ensures QueuedInv(t, t.submitted[i], t.traces[i]) {
        assert QueuedInv(u, u.submitted[i], u.traces[i]);
      }
      forall i | 0 <= i < |t.confirmed| ensures ConfirmedInv(t, t.confirmed[i]) {
        if i < |s.confirmed| {
          assert ConfirmedInv(s, s.confirmed[i]);
        }
      }
    }
  }

  lemma {:induction false} ConsumeAllKeeps(s: State, tokens: seq<Token>)
    requires Inv(s)
    ensures Inv(ConsumeAll(s, tokens))
    decreases |tokens|
  {
    hide CurrentInv, QueuedInv, ConfirmedInv, LineBoundary, SubmittedChar, CurrentChar;
    if tokens != [] {
      match tokens[0] {
        case NewLine => LineBoundaryKeeps(s);
        case Char(c) =>
          if s.submitted != [] {
            SubmittedCharKeeps(s, c);
          } else {
            CurrentCharKeeps(s, c);
          }
      }
      ConsumeAllKeeps(Consume(s, tokens[0]), tokens[1..]);
    }
  }

  lemma ActKeeps(s: State, a: Action)
    requires Inv(s)
    ensures Inv(Act(s, a))
  {
    match a
    case Typed(text) => AppendKeeps(s, text);
    case Rubout => BackspaceKeeps(s);
    case Cursor => SameQueue(s, Distrusted(s));
    case Enter => SubmitKeeps(s);
    case Output(text) => ConsumeAllKeeps(s, Tokens(text, 0));
  }

  lemma {:induction false} RunKeeps(s: State, actions: seq<Action>)
    requires Inv(s)
    ensures Inv(Run(s, actions))
    decreases |actions|
  {
    hide Act, CurrentInv, QueuedInv, ConfirmedInv;
    if actions != [] {
      ActKeeps(s, actions[0]);
      RunKeeps(Act(s, actions[0]), actions[1..]);
    }
  }

  /** In every run from the start: a confirmed command is the text of a submission whose line was
      reliable, safe and not blank; it was shown, in order, in the visible output since its first keystroke,
      which was exactly the command unless a backspace erased something; and confirmations come in the order
      of the submissions. */
  lemma ConfirmedWasShown(actions: seq<Action>)
    ensures var s := Run(START, actions);
      && (forall i :: 0 <= i < |s.confirmed| ==>
            var c := s.confirmed[i];
            && c.trace.id < |s.submissions|
            && s.submissions[c.trace.id].line.command == c.command
            && Confirmable(s.submissions[c.trace.id].line)
            && IsSubsequence(c.command, c.trace.shown)
            && (!c.trace.erased ==> c.trace.shown == c.command))
      && (forall i, j :: 0 <= i < j < |s.confirmed| ==> s.confirmed[i].trace.id < s.confirmed[j].trace.id)
  {
    hide Run, HasText, IsSubsequence;
    StartInv();
    RunKeeps(START, actions);
    var s := Run(START, actions);
    forall i | 0 <= i < |s.confirmed| ensures ConfirmedInv(s, s.confirmed[i]) {}
  }

  lemma StartInv()
    ensures Inv(START)
  {}

  /** Whatever was erased, what is still awaited stays a suffix of the line. */
  lemma AwaitedIsSuffix(actions: seq<Action>)
    ensures var s := Run(START, actions);
      && IsSuffix(s.current.pending, s.current.command)
      && forall i :: 0 <= i < |s.submitted| ==> IsSuffix(s.submitted[i].pending, s.submitted[i].command)
  {
    hide Run, HasText, IsSubsequence;
    StartInv();
    RunKeeps(START, actions);
    var s := Run(START, actions);
    forall i | 0 <= i < |s.submitted| ensures IsSuffix(s.submitted[i].pending, s.submitted[i].command) {
      assert QueuedInv(s, s.submitted[i], s.traces[i]);
    }
  }

  /** Suggestions are made only for a line that was shown, in order, and as it stands if nothing was erased. */
  lemma SuggestedWasShown(actions: seq<Action>)
    ensures var s := Run(START, actions);
      MaySuggest(s.current) ==>
        IsSubsequence(s.current.command, s.trace.shown) && (!s.trace.erased ==> s.trace.shown == s.current.command)
  {
    hide Run, HasText, IsSubsequence;
    StartInv();
    RunKeeps(START, actions);
    var s := Run(START, actions);
    assert s.trace.shown + [] == s.trace.shown;
    assert s.current.pending == [] ==> Seen(s.current) == s.current.command;
  }
}
