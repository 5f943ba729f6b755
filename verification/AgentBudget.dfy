/** What a run may spend, and how it ends. */
module AgentBudget {
  import opened Prelude
  import opened Conversation
  import opened AgentLoop
  import opened AgentTexts
  import L = Ladder

  /** At the top of a round: every browser call took a step, every request a step or a model. */
  ghost predicate WithinBudget(j: Job, s: St) {
    && s.ladder.Valid() && s.ladder.models == j.models
    && s.step <= j.maxSteps && s.idle < 3
    && |s.calls| <= s.step && |s.requests| <= s.step + s.ladder.index
  }

  /** At the end of a run. */
  ghost predicate Spent(j: Job, s: St) {
    && s.ladder.Valid() && s.ladder.models == j.models
    && s.step <= j.maxSteps
    && |s.calls| <= s.step && |s.requests| <= j.maxSteps + |j.models| - 1
  }

  ghost predicate Kept(j: Job, r: (St, Option<Outcome>)) {
    if r.1.None? then WithinBudget(j, r.0) else Spent(j, r.0)
  }

  /** A request has been sent in this round. */
  ghost predicate Asking(j: Job, s: St) {
    && s.ladder.Valid() && s.ladder.models == j.models
    && s.step < j.maxSteps && s.idle < 3
    && |s.calls| <= s.step && |s.requests| <= s.step + s.ladder.index + 1
  }

  lemma ProviderFailedKept(j: Job, s: St, e: ProviderError)
    requires Asking(j, s)
    ensures Kept(j, ProviderFailed(j, s, e))
  {
    hide Say, PartialOutcome;
  }

  lemma IdleReplyKept(j: Job, s: St, text: Option<string>)
    requires Asking(j, s)
    ensures Kept(j, IdleReply(j, s, text))
  {
    hide Say, PartialOutcome, UserText, AssistantTurn;
  }

  lemma CallsReplyKept(w: World, j: Job, s: St, text: Option<string>, calls: seq<ToolCall>)
    requires Asking(j, s) && calls != []
    ensures Kept(j, CallsReply(w, j, s, text, calls))
  {
    hide CallsFrom, AnsweredInText, Pruned, AssistantTurn;
    CallsProgress(w, j, s.(idle := 0, messages := s.messages + [AssistantTurn(text, calls)]), calls);
  }

  lemma RoundKept(w: World, j: Job, s: St)
    requires WithinBudget(j, s)
    ensures Kept(j, Round(w, j, s))
  {
    hide CallsReply, ProviderFailed, IdleReply, Clean, Say, PartialOutcome;
    if s.step < j.maxSteps {
      var s1 := Asked(Polled(s));
      assert Asking(j, s1);
      match w.provider(|s.requests|)
      case Failure(e) => ProviderFailedKept(j, s1, e);
      case Reply(text, calls) =>
        var s2 := Thinking(j, s1, text);
        assert Asking(j, s2);
        if calls != [] {
          CallsReplyKept(w, j, s2, text, calls);
        } else {
          IdleReplyKept(j, s2, text);
        }
      case _ =>
    }
  }

  lemma {:induction false} RunFromKept(w: World, j: Job, s: St)
    requires WithinBudget(j, s)
    ensures Spent(j, RunFrom(w, j, s).0)
    decreases j.maxSteps - s.step, |s.ladder.models| - s.ladder.index
  {
    hide Round;
    RoundKept(w, j, s);
    RoundUses(w, j, s);
    if Round(w, j, s).1.None? {
      RunFromKept(w, j, Round(w, j, s).0);
    }
  }

  /**
   * Whatever the provider, the browser, the vault and the user do: at most `maxSteps` browser calls, at most
   * `maxSteps` plus the number of models less one requests, and the ladder ends on one of its models.
   */
  lemma RunStaysInBudget(w: World, j: Job)
    requires j.models != []
    ensures var s := RunInner(w, j).0;
            && |s.calls| <= s.step <= j.maxSteps
            && |s.requests| <= j.maxSteps + |j.models| - 1
            && s.ladder.index < |j.models| && s.ladder.escalations == s.ladder.index
  {
    hide Say, RunFrom;
    if w.begin.Ok? {
      RunFromKept(w, j, Opened(j, w.begin.value));
    }
  }

  /** A provider error ends the run exactly if asking again could not help: the answer was malformed, the model is not
      supported, or the status is neither 429 nor that of a server error. */
  lemma ErrorEndsIff(j: Job, s: St, e: ProviderError)
    requires s.ladder.Valid()
    ensures ProviderFailed(j, s, e).1.Some?
            <==> e.Malformed? || e.Unsupported? || (e.Status? && e.status < 500 && e.status != 429)
  {
    hide Say, PartialOutcome;
  }

  lemma RateLimited(j: Job, s: St)
    requires s.ladder.Valid()
    ensures var (t, end) := ProviderFailed(j, s, ProviderError.RateLimited);
            && end.None? && t.requests == s.requests
            && (if s.ladder.IsTop() then t.step == s.step + 1 && t.ladder == s.ladder
                else t.step == s.step && t.ladder.index == s.ladder.index + 1)
  {
    hide Say, PartialOutcome;
  }

  lemma RateLimitedRound(w: World, j: Job, s: St)
    requires s.ladder.Valid() && s.step < j.maxSteps && !w.aborted(s.polls) && w.provider(|s.requests|) == Failure(ProviderError.RateLimited)
    ensures var (t, end) := Round(w, j, s);
            && end.None? && |t.requests| == |s.requests| + 1
            && (if s.ladder.IsTop() then t.step == s.step + 1 && t.ladder == s.ladder
                else t.step == s.step && t.ladder.index == s.ladder.index + 1)
  {
    hide Say, PartialOutcome, ProviderFailed, CallsReply, IdleReply, Thinking;
    RateLimited(j, Asked(Polled(s)));
  }

  lemma {:induction false} OnlyRateLimited(w: World, j: Job, s: St)
    requires WithinBudget(j, s) && |s.requests| == s.step + s.ladder.index
    requires (forall k :: w.provider(k) == Failure(ProviderError.RateLimited)) && forall k :: !w.aborted(k)
    ensures |RunFrom(w, j, s).0.requests| == j.maxSteps + (if s.step < j.maxSteps then |j.models| - 1 else s.ladder.index)
    decreases j.maxSteps - s.step, |s.ladder.models| - s.ladder.index
  {
    if s.step < j.maxSteps {
      hide Round, WithinBudget;
      assert w.provider(|s.requests|) == Failure(ProviderError.RateLimited) && !w.aborted(s.polls);
      RateLimitedRound(w, j, s);
      RoundKept(w, j, s);
      OnlyRateLimited(w, j, Round(w, j, s).0);
    } else {
      hide RunFrom;
      SpentRun(w, j, s);
    }
  }

  lemma SpentRun(w: World, j: Job, s: St)
    requires s.ladder.Valid() && s.step == j.maxSteps
    ensures RunFrom(w, j, s).0.requests == s.requests
  {
    hide Say, PartialOutcome, Replied;
  }

  /** The request bound is met: a provider that only ever fails is asked exactly that often. */
  lemma RequestBoundIsMet(w: World, j: Job)
    requires j.models != [] && j.maxSteps > 0 && w.begin.Ok?
    requires (forall k :: w.provider(k) == Failure(ProviderError.RateLimited)) && forall k :: !w.aborted(k)
    ensures |RunInner(w, j).0.requests| == j.maxSteps + |j.models| - 1
  {
    hide Say, RunFrom;
    OnlyRateLimited(w, j, Opened(j, w.begin.value));
  }

  // ------------------------------------------------------------------ what the ladder is told

  ghost predicate AnyError(results: seq<ToolResult>) {
    exists i :: 0 <= i < |results| && results[i].isError
  }

  lemma {:induction false} CallsErrors(w: World, j: Job, s: St, calls: seq<ToolCall>)
    ensures var end := CallsFrom(w, j, s, calls).1;
            end.AllAnswered? ==> (end.failed <==> AnyError(end.results))
  {
    hide CallStep, Stepped, OnlyCalled, AnyError;
    if calls == [] {
      NoErrors();
    } else {
      var n := |calls| - 1;
      var (s1, before) := CallsFrom(w, j, s, calls[..n]);
      CallsErrors(w, j, s, calls[..n]);
      CallStepProgress(w, j, s1, calls[n]);
      var last := CallStep(w, j, s1, calls[n]).1;
      if before.AllAnswered? && last.Answered? {
        MoreErrors(before.results, last.result);
      }
    }
  }

  lemma NoErrors()
    ensures !AnyError([])
  {
  }

  lemma MoreErrors(results: seq<ToolResult>, r: ToolResult)
    ensures AnyError(results + [r]) <==> AnyError(results) || r.isError
  {
    if AnyError(results) {
      var i :| 0 <= i < |results| && results[i].isError;
      assert (results + [r])[i].isError;
    }
    assert (results + [r])[|results|] == r;
  }

  /**
   * A round of tool calls that goes on leaves exactly one exchange behind, every call answered in order, and tells
   * the ladder of a failure if and only if one of the answers is an error.
   */
  lemma RoundTellsLadder(w: World, j: Job, s: St, text: Option<string>, calls: seq<ToolCall>)
    requires s.ladder.Valid() && s.step <= j.maxSteps && calls != []
    ensures var (t, end) := CallsReply(w, j, s, text, calls);
            end.None? ==> exists results ::
              && Answers(calls, results) && t.step == s.step + |calls|
              && t.ladder == L.Told(s.ladder, if AnyError(results) then L.Failed else L.Succeeded)
              && t.messages == Pruned(s.messages + [AssistantTurn(text, calls)] + [ToolResults(results)], 2)
  {
    hide CallsFrom, Pruned, AssistantTurn, ToolResults, AnyError, Answers;
    var s1 := s.(idle := 0, messages := s.messages + [AssistantTurn(text, calls)]);
    CallsProgress(w, j, s1, calls);
    CallsErrors(w, j, s1, calls);
    var (s2, end) := CallsFrom(w, j, s1, calls);
    if end.AllAnswered? {
      SomeAnswer(calls, end.results);
      assert Answers(calls, end.results);
    }
  }

  lemma SomeAnswer(calls: seq<ToolCall>, results: seq<ToolResult>)
    requires calls != [] && Answers(calls, results)
    ensures results != []
  {
  }
}
