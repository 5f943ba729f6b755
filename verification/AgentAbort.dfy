/** An abort that the loop has seen is final, and the loop looks before everything it does. */
module AgentAbort {
  import opened Prelude
  import opened Conversation
  import opened AgentLoop
  import opened AgentTexts
  import L = Ladder
  import R = Redact
  import T = Text

  /** The requests, browser calls and stores so far. */
  function Deeds(s: St): nat {
    |s.requests| + |s.calls| + |s.stores|
  }

  /** The reads of the flag from the k-th to before the n-th found it clear. */
  ghost predicate Clear(w: World, k: nat, n: nat) {
    forall i :: k <= i < n ==> !w.aborted(i)
  }

  /**
   * From `s` to `t` every read found the flag clear, but for the last if that ended the run as aborted; and there
   * were at most `credit` more deeds than reads.
   */
  ghost predicate Guarded(w: World, s: St, t: St, end: Option<Outcome>, credit: int) {
    && s.polls <= t.polls
    && Deeds(t) - Deeds(s) <= t.polls - s.polls + credit
    && (Clear(w, s.polls, t.polls)
        || (end == Some(Aborted) && s.polls < t.polls && Clear(w, s.polls, t.polls - 1) && w.aborted(t.polls - 1)))
  }

  lemma Then(w: World, s: St, s': St, t: St, end: Option<Outcome>, c: int, d: int)
    requires Guarded(w, s, s', None, c) && Guarded(w, s', t, end, d)
    ensures Guarded(w, s, t, end, c + d)
  {
  }

  lemma Still(w: World, s: St, t: St, end: Option<Outcome>, credit: int)
    requires t.polls == s.polls && Deeds(t) <= Deeds(s) + credit
    ensures Guarded(w, s, t, end, credit)
  {
  }

  lemma Looked(w: World, s: St, t: St, end: Option<Outcome>)
    requires t.polls == s.polls + 1 && Deeds(t) == Deeds(s)
    requires w.aborted(s.polls) ==> end == Some(Aborted)
    ensures Guarded(w, s, t, end, -1)
  {
  }

  function EndOf(end: CallEnd): Option<Outcome> {
    match end
    case Answered(_, _) => None
    case Stopped(outcome) => Some(outcome)
  }

  ghost predicate CallGuarded(w: World, s: St, r: (St, CallEnd), credit: int) {
    Guarded(w, s, r.0, EndOf(r.1), credit)
  }

  lemma NeedUserGuarded(w: World, j: Job, s: St, tc: ToolCall)
    ensures CallGuarded(w, s, NeedUserCall(w, j, s, tc), 1)
  {
    hide Say, Clean, StepEvent, OrEmpty, Guarded;
    var s2 := Emit(Emit(s, NeedUser(Clean(j, OrEmpty(tc.arguments.message)))), StepEvent(j, s, tc, Say(WaitingForUser), false));
    var s3, r := Polled(s2), NeedUserCall(w, j, s, tc);
    Still(w, s, s2, None, 0);
    if w.aborted(s2.polls) {
      Looked(w, s2, s3, Some(Aborted));
      Then(w, s, s2, s3, Some(Aborted), 0, -1);
      More(w, s, s3, Some(Aborted), -1, 1);
    } else {
      Looked(w, s2, s3, None);
      Looked(w, s3, Polled(s3), EndOf(r.1));
      Then(w, s, s2, s3, None, 0, -1);
      Then(w, s, s3, Polled(s3), EndOf(r.1), -1, -1);
      More(w, s, Polled(s3), EndOf(r.1), -2, 1);
    }
  }

  lemma More(w: World, s: St, t: St, end: Option<Outcome>, c: int, d: int)
    requires Guarded(w, s, t, end, c) && c <= d
    ensures Guarded(w, s, t, end, d)
  {
  }

  lemma ReportedGuarded(w: World, j: Job, s: St, tc: ToolCall, raw: string, isError: bool)
    ensures CallGuarded(w, s, Reported(j, s, tc, raw, isError), 0)
  {
    hide Clean, StepEvent, Guarded;
    Still(w, s, Reported(j, s, tc, raw, isError).0, None, 0);
  }

  lemma StoreGuarded(w: World, j: Job, s: St, tc: ToolCall, keyType: string, value: string)
    ensures CallGuarded(w, s, StoreCall(w, j, s, tc, keyType, value), 1)
  {
    hide Say, Reported, Missing, R.Fingerprint, Guarded;
    var s' := Stored(s, keyType, tc.arguments.labelText, value, w.sink(|s.stores|));
    Still(w, s, s', None, 1);
    forall raw, isError ensures CallGuarded(w, s, Reported(j, s', tc, raw, isError), 1) {
      var r := Reported(j, s', tc, raw, isError);
      ReportedGuarded(w, j, s', tc, raw, isError);
      Then(w, s, s', r.0, EndOf(r.1), 1, 0);
    }
  }

  lemma CaptureAnsweredGuarded(w: World, j: Job, s: St, tc: ToolCall, out: Result<ToolOutput, ExecutorError>)
    ensures CallGuarded(w, s, CaptureAnswered(w, j, s, tc, out), 1)
  {
    hide Say, Reported, StoreCall, HasValue, Clean, OrEmpty, T.Trim, Guarded;
    match out
    case Ok(o) =>
      if HasValue(o) {
        WithValue(o);
        StoreGuarded(w, j, s, tc, OrEmpty(tc.arguments.keyType), T.Trim(o.secret.value));
      } else {
        var r := Reported(j, s, tc, if o.text == "" then Say(NoValue) else Clean(j, o.text), true);
        ReportedGuarded(w, j, s, tc, if o.text == "" then Say(NoValue) else Clean(j, o.text), true);
        More(w, s, r.0, EndOf(r.1), 0, 1);
      }
    case Err(e) =>
      if e.AbortedByUser? {
        Still(w, s, s, Some(Aborted), 1);
      } else {
        var r := Reported(j, s, tc, Say(CaptureFailed(e)), true);
        ReportedGuarded(w, j, s, tc, Say(CaptureFailed(e)), true);
        More(w, s, r.0, EndOf(r.1), 0, 1);
      }
  }

  lemma CheckedCaptureGuarded(w: World, j: Job, s: St, tc: ToolCall, out: Result<ToolOutput, ExecutorError>)
    ensures CallGuarded(w, s, if w.aborted(s.polls) then (Polled(s), Stopped(Aborted)) else CaptureAnswered(w, j, Polled(s), tc, out), 0)
  {
    hide CaptureAnswered, Guarded;
    if w.aborted(s.polls) {
      Looked(w, s, Polled(s), Some(Aborted));
      More(w, s, Polled(s), Some(Aborted), -1, 0);
    } else {
      var r := CaptureAnswered(w, j, Polled(s), tc, out);
      Looked(w, s, Polled(s), None);
      CaptureAnsweredGuarded(w, j, Polled(s), tc, out);
      Then(w, s, Polled(s), r.0, EndOf(r.1), -1, 1);
    }
  }

  lemma CaptureGuarded(w: World, j: Job, s: St, tc: ToolCall)
    ensures CallGuarded(w, s, CaptureCall(w, j, s, tc), 1)
  {
    hide Say, CaptureAnswered, OrEmpty, Guarded, Polled;
    var asked := OrEmpty(tc.arguments.keyType) in j.wanted;
    var out := if asked then w.executor(|s.calls|) else Ok(ToolOutput(Say(NotRequested), None, None, None, true));
    var s1 := if asked then Executed(s, tc.name, tc.arguments) else s;
    var r := CaptureCall(w, j, s, tc);
    Still(w, s, s1, None, 1);
    CheckedCaptureGuarded(w, j, s1, tc, out);
    Then(w, s, s1, r.0, EndOf(r.1), 1, 0);
  }

  lemma BrowserGuarded(w: World, j: Job, s: St, tc: ToolCall)
    ensures CallGuarded(w, s, BrowserCall(w, j, s, tc), 1)
  {
    hide Say, Clean, StepEvent, StateText, ShowExecutorError, Truncated, Guarded;
    var r := BrowserCall(w, j, s, tc);
    Still(w, s, r.0, EndOf(r.1), 1);
  }

  lemma DispatchedGuarded(w: World, j: Job, s: St, tc: ToolCall)
    ensures CallGuarded(w, s, Dispatched(w, j, s, tc), 1)
  {
    hide Say, ToolNamed, Clean, OrEmpty, NeedUserCall, CaptureCall, BrowserCall, PartialOutcome, DoneCall, Answering, Guarded;
    var r := Dispatched(w, j, s, tc);
    match ToolNamed(tc.name)
    case NeedUserTool => NeedUserGuarded(w, j, s, tc);
    case CaptureTool => CaptureGuarded(w, j, s, tc);
    case BrowserTool => BrowserGuarded(w, j, s, tc);
    case _ => Still(w, s, r.0, EndOf(r.1), 1);
  }

  lemma CallStepGuarded(w: World, j: Job, s: St, tc: ToolCall)
    ensures CallGuarded(w, s, CallStep(w, j, s, tc), 0)
  {
    hide Say, Dispatched, PartialOutcome, Guarded;
    var r := CallStep(w, j, s, tc);
    if s.step >= j.maxSteps {
      Still(w, s, s, EndOf(r.1), 0);
    } else if w.aborted(s.polls) {
      Looked(w, s, Stepped(s), Some(Aborted));
      More(w, s, Stepped(s), Some(Aborted), -1, 0);
    } else {
      Looked(w, s, Stepped(s), None);
      DispatchedGuarded(w, j, Stepped(s), tc);
      Then(w, s, Stepped(s), r.0, EndOf(r.1), -1, 1);
    }
  }

  function EndOfCalls(end: CallsEnd): Option<Outcome> {
    match end
    case AllAnswered(_, _) => None
    case CallsStopped(outcome) => Some(outcome)
  }

  lemma {:induction false} CallsGuarded(w: World, j: Job, s: St, calls: seq<ToolCall>)
    ensures var (t, end) := CallsFrom(w, j, s, calls);
            Guarded(w, s, t, EndOfCalls(end), 0)
  {
    hide CallStep, Guarded;
    if calls == [] {
      Still(w, s, s, None, 0);
    } else {
      var n := |calls| - 1;
      CallsGuarded(w, j, s, calls[..n]);
      var (s1, before) := CallsFrom(w, j, s, calls[..n]);
      if before.AllAnswered? {
        var r := CallStep(w, j, s1, calls[n]);
        CallStepGuarded(w, j, s1, calls[n]);
        Then(w, s, s1, r.0, EndOf(r.1), 0, 0);
      }
    }
  }

  // ------------------------------------------------------------------ rounds and runs

  lemma CallsReplyGuarded(w: World, j: Job, s: St, text: Option<string>, calls: seq<ToolCall>)
    requires s.ladder.Valid() && s.step <= j.maxSteps
    ensures var (t, end) := CallsReply(w, j, s, text, calls);
            Guarded(w, s, t, end, 0)
  {
    hide CallsFrom, AnsweredInText, Pruned, AssistantTurn, Guarded, Climb;
    var s1 := s.(idle := 0, messages := s.messages + [AssistantTurn(text, calls)]);
    var (s2, end) := CallsFrom(w, j, s1, calls);
    CallsProgress(w, j, s1, calls);
    CallsGuarded(w, j, s1, calls);
    Still(w, s, s1, None, 0);
    Then(w, s, s1, s2, EndOfCalls(end), 0, 0);
    if end.AllAnswered? {
      var t := AfterAnswers(s2, end.results, end.failed);
      ClimbIsStill(s2, L.AfterFailure(s2.ladder));
      Still(w, s2, t, None, 0);
      Then(w, s, s2, t, None, 0, 0);
    }
  }

  lemma ClimbIsStill(s: St, ladder: L.State)
    requires s.ladder.Valid() && ladder.Valid()
    ensures var t := Climb(s, ladder);
            t.polls == s.polls && Deeds(t) == Deeds(s)
  {
  }

  lemma RepliedGuarded(w: World, j: Job, s: St, answer: Answer)
    requires s.ladder.Valid() && s.step <= j.maxSteps
    ensures var (t, end) := Replied(w, j, s, answer);
            Guarded(w, s, t, end, 0)
  {
    hide CallsReply, Clean, Climb, PartialOutcome, Say, Guarded, UserText, AssistantTurn;
    var (t, end) := Replied(w, j, s, answer);
    match answer
    case Cancelled => Still(w, s, t, end, 0);
    case Failure(e) =>
      ClimbIsStill(s, if s.ladder.IsTop() then s.ladder else L.AfterProviderError(s.ladder));
      Still(w, s, t, end, 0);
    case Reply(text, calls) =>
      var s2 := Thinking(j, s, text);
      if calls == [] {
        Still(w, s, t, end, 0);
      } else {
        Still(w, s, s2, None, 0);
        CallsReplyGuarded(w, j, s2, text, calls);
        Then(w, s, s2, t, end, 0, 0);
      }
  }

  lemma RoundGuarded(w: World, j: Job, s: St)
    requires s.ladder.Valid() && s.step <= j.maxSteps
    ensures var (t, end) := Round(w, j, s);
            Guarded(w, s, t, end, 0)
  {
    hide Replied, Say, PartialOutcome, Guarded;
    var (t, end) := Round(w, j, s);
    if w.aborted(s.polls) || s.step >= j.maxSteps {
      Looked(w, s, t, end);
      More(w, s, t, end, -1, 0);
    } else {
      var s1, s2 := Polled(s), Asked(Polled(s));
      Looked(w, s, s1, None);
      Still(w, s1, s2, None, 1);
      Then(w, s, s1, s2, None, -1, 1);
      RepliedGuarded(w, j, s2, w.provider(|s.requests|));
      Then(w, s, s2, t, end, 0, 0);
    }
  }

  lemma {:induction false} RunFromGuarded(w: World, j: Job, s: St)
    requires s.ladder.Valid() && s.step <= j.maxSteps
    ensures var (t, outcome) := RunFrom(w, j, s);
            Guarded(w, s, t, Some(outcome), 0)
    decreases j.maxSteps - s.step, |s.ladder.models| - s.ladder.index
  {
    hide Round, Guarded;
    RoundGuarded(w, j, s);
    RoundUses(w, j, s);
    var (t, end) := Round(w, j, s);
    if end.None? {
      RunFromGuarded(w, j, t);
      Then(w, s, t, RunFrom(w, j, t).0, Some(RunFrom(w, j, t).1), 0, 0);
    }
  }

  /**
   * If a read of the abort flag finds it set, it is the last one and the run ends as aborted; and there are at least
   * as many reads as requests, browser calls and stores together.
   */
  lemma AbortIsFinal(w: World, j: Job)
    requires j.models != []
    ensures var (s, outcome) := RunInner(w, j);
            && (forall k :: 0 <= k < s.polls && w.aborted(k) ==> k == s.polls - 1 && outcome == Aborted)
            && Deeds(s) <= s.polls
  {
    hide RunFrom, Say, Clean;
    if w.begin.Ok? {
      RunFromGuarded(w, j, Opened(j, w.begin.value));
    }
  }

  lemma ReportedStores(j: Job, s: St, tc: ToolCall, raw: string, isError: bool)
    ensures var t := Reported(j, s, tc, raw, isError).0; t.stores == s.stores && t.values == s.values
  {
    hide Clean, StepEvent;
  }

  lemma StoreCallStores(w: World, j: Job, s: St, tc: ToolCall, keyType: string, value: string)
    ensures var t := StoreCall(w, j, s, tc, keyType, value).0;
            && t.stores == s.stores + [Store(keyType, tc.arguments.labelText, w.sink(|s.stores|))]
            && t.values == s.values + [value]
  {
    hide Say, Reported, Missing, R.Fingerprint;
    var s' := Stored(s, keyType, tc.arguments.labelText, value, w.sink(|s.stores|));
    forall raw, isError ensures Reported(j, s', tc, raw, isError).0.stores == s'.stores && Reported(j, s', tc, raw, isError).0.values == s'.values {
      ReportedStores(j, s', tc, raw, isError);
    }
  }

  lemma CaptureAnsweredStores(w: World, j: Job, s: St, tc: ToolCall, out: Result<ToolOutput, ExecutorError>)
    ensures var t := CaptureAnswered(w, j, s, tc, out).0;
            if out.Ok? && HasValue(out.value)
            then t.stores == s.stores + [Store(OrEmpty(tc.arguments.keyType), tc.arguments.labelText, w.sink(|s.stores|))]
                 && t.values == s.values + [T.Trim(out.value.secret.value)]
            else t.stores == s.stores && t.values == s.values
  {
    hide Say, Reported, StoreCall, HasValue, Clean, OrEmpty, T.Trim;
    match out
    case Ok(o) =>
      if HasValue(o) {
        WithValue(o);
        StoreCallStores(w, j, s, tc, OrEmpty(tc.arguments.keyType), T.Trim(o.secret.value));
      } else {
        ReportedStores(j, s, tc, if o.text == "" then Say(NoValue) else Clean(j, o.text), true);
      }
    case Err(e) => ReportedStores(j, s, tc, Say(CaptureFailed(e)), true);
  }

  /**
   * A capture reaches the vault exactly if the key was asked for, the flag was clear after the browser answered, and
   * the answer holds a value that is not blank; what is stored is that value, trimmed, under that key.
   */
  lemma CaptureStoresExactly(w: World, j: Job, s: St, tc: ToolCall)
    ensures var t := CaptureCall(w, j, s, tc).0;
            var keyType := OrEmpty(tc.arguments.keyType);
            var out := w.executor(|s.calls|);
            if keyType in j.wanted && !w.aborted(s.polls) && out.Ok? && HasValue(out.value)
            then t.stores == s.stores + [Store(keyType, tc.arguments.labelText, w.sink(|s.stores|))]
                 && t.values == s.values + [T.Trim(out.value.secret.value)]
            else t.stores == s.stores && t.values == s.values
  {
    hide Say, OrEmpty, T.Trim, CaptureAnswered;
    var asked := OrEmpty(tc.arguments.keyType) in j.wanted;
    var out := if asked then w.executor(|s.calls|) else Ok(ToolOutput(Say(NotRequested), None, None, None, true));
    var s2 := Polled(if asked then Executed(s, tc.name, tc.arguments) else s);
    assert s2.stores == s.stores && s2.values == s.values;
    CaptureAnsweredStores(w, j, s2, tc, out);
  }
}
