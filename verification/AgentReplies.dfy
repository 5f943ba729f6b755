/** What a request carries of the replies and answers before it, and exactly when each API accepts it. */
module AgentReplies {
  import opened Prelude
  import opened Conversation
  import opened AgentLoop
  import opened AgentTexts
  import D = AgentDialogue
  import L = Ladder
  import R = Redact
  import T = Text
  import Anthropic
  import OpenAi

  /** The assistant turns of a conversation. */
  function TurnsIn(ms: seq<Message>): seq<Message> {
    if ms == [] then []
    else
      var last := ms[|ms| - 1];
      TurnsIn(ms[..|ms| - 1]) + (if last.role.Assistant? then [last] else [])
  }

  function TurnFor(a: Answer): seq<Message> {
    match a
    case Reply(text, calls) => [Message(Assistant, if text.Some? then [Text(text.value)] else [], calls, [])]
    case _ => []
  }

  /** The turns that the replies to the first `k` requests become. */
  function RepliesTo(w: World, k: nat): seq<Message> {
    if k == 0 then [] else RepliesTo(w, k - 1) + TurnFor(w.provider(k - 1))
  }

  /** The browser had nothing to say: no text, and no state to append to it. */
  predicate BlankOutput(out: Result<ToolOutput, ExecutorError>) {
    out.Ok? && out.value.text == "" && out.value.browserState.None?
  }

  /** The c-th call that was made was one of the tools that only act on the browser, and came back blank. */
  predicate BlankCall(w: World, calls: seq<(string, Arguments)>, c: nat) {
    c < |calls| && ToolNamed(calls[c].0).BrowserTool? && BlankOutput(w.executor(c))
  }

  ghost predicate AnyBlankCall(w: World, calls: seq<(string, Arguments)>, from: nat, n: nat) {
    exists c: nat :: from <= c < n && BlankCall(w, calls, c)
  }

  ghost predicate AnyBlankResult(results: seq<ToolResult>) {
    exists i :: 0 <= i < |results| && Anthropic.HasBlank(results[i].content)
  }

  ghost predicate AnyBlankAnswer(ms: seq<Message>) {
    exists i :: 0 <= i < |ms| && AnyBlankResult(ms[i].toolResults)
  }

  // ------------------------------------------------------------------ texts that are never empty

  lemma CleanIsEmpty(j: Job, t: string)
    ensures Clean(j, t) == "" <==> t == ""
  {
    hide R.Redacted;
    R.RedactedIsEmpty(t, j.generic);
  }

  lemma BlankText(t: string)
    ensures Anthropic.HasBlank([Text(t)]) <==> t == ""
  {
    assert t == "" ==> [Text(t)][0] == Text("");
  }

  // ------------------------------------------------------------------ the answers of one call

  /** The answer is blank exactly if a browser call made for it came back blank. */
  ghost predicate AnswersTruly(w: World, s: St, r: (St, CallEnd)) {
    && s.calls <= r.0.calls
    && (r.1.Answered? ==> (Anthropic.HasBlank(r.1.result.content) <==> AnyBlankCall(w, r.0.calls, |s.calls|, |r.0.calls|)))
  }

  lemma Spoken(w: World, s: St, t: St, tc: ToolCall, text: string, isError: bool)
    requires text != "" && s.calls <= t.calls && !AnyBlankCall(w, t.calls, |s.calls|, |t.calls|)
    ensures AnswersTruly(w, s, (t, Answering(tc, text, isError)))
  {
    hide AnyBlankCall;
    BlankText(text);
  }

  lemma Ended(w: World, s: St, t: St, outcome: Outcome)
    requires s.calls <= t.calls
    ensures AnswersTruly(w, s, (t, Stopped(outcome)))
  {
  }

  lemma NeedUserTrue(w: World, j: Job, s: St, tc: ToolCall)
    ensures AnswersTruly(w, s, NeedUserCall(w, j, s, tc))
  {
    hide Say, Clean, StepEvent, OrEmpty, AnswersTruly, BlankCall;
    SaysSomething(UserIsBack);
    NothingBlank(w, s.calls);
    var r := NeedUserCall(w, j, s, tc);
    if r.1.Stopped? {
      Ended(w, s, r.0, Aborted);
    } else {
      Spoken(w, s, r.0, tc, Say(UserIsBack), false);
    }
  }

  /** `s` is the state before the browser was asked, `s'` the one in which the report is made. */
  lemma ReportedTrue(w: World, j: Job, s: St, s': St, tc: ToolCall, raw: string, isError: bool)
    requires raw != "" && s.calls <= s'.calls && !AnyBlankCall(w, s'.calls, |s.calls|, |s'.calls|)
    ensures AnswersTruly(w, s, Reported(j, s', tc, raw, isError))
  {
    hide Clean, StepEvent, Answering, AnswersTruly, AnyBlankCall;
    CleanIsEmpty(j, raw);
    Spoken(w, s, Reported(j, s', tc, raw, isError).0, tc, Clean(j, raw), isError);
  }

  lemma StoreTrue(w: World, j: Job, s: St, s': St, tc: ToolCall, keyType: string, value: string)
    requires s.calls <= s'.calls && !AnyBlankCall(w, s'.calls, |s.calls|, |s'.calls|)
    ensures AnswersTruly(w, s, StoreCall(w, j, s', tc, keyType, value))
  {
    hide Say, Reported, Missing, R.Fingerprint, AnswersTruly, AnyBlankCall;
    var t := Stored(s', keyType, tc.arguments.labelText, value, w.sink(|s'.stores|));
    assert t.calls == s'.calls;
    forall raw, isError | raw != "" ensures AnswersTruly(w, s, Reported(j, t, tc, raw, isError)) {
      ReportedTrue(w, j, s, t, tc, raw, isError);
    }
    forall p | IsAnswer(p) ensures Say(p) != "" {
      SaysSomething(p);
    }
  }

  lemma CaptureAnsweredTrue(w: World, j: Job, s: St, s': St, tc: ToolCall, out: Result<ToolOutput, ExecutorError>)
    requires s.calls <= s'.calls && !AnyBlankCall(w, s'.calls, |s.calls|, |s'.calls|)
    ensures AnswersTruly(w, s, CaptureAnswered(w, j, s', tc, out))
  {
    hide Say, Reported, StoreCall, HasValue, Clean, OrEmpty, T.Trim, AnswersTruly, AnyBlankCall;
    match out
    case Ok(o) =>
      if HasValue(o) {
        WithValue(o);
        StoreTrue(w, j, s, s', tc, OrEmpty(tc.arguments.keyType), T.Trim(o.secret.value));
      } else {
        SaysSomething(NoValue);
        CleanIsEmpty(j, o.text);
        ReportedTrue(w, j, s, s', tc, if o.text == "" then Say(NoValue) else Clean(j, o.text), true);
      }
    case Err(e) =>
      if e.AbortedByUser? {
        Ended(w, s, s', Aborted);
      } else {
        SaysSomething(CaptureFailed(e));
        ReportedTrue(w, j, s, s', tc, Say(CaptureFailed(e)), true);
      }
  }

  lemma CaptureTrue(w: World, j: Job, s: St, tc: ToolCall)
    requires ToolNamed(tc.name).CaptureTool?
    ensures AnswersTruly(w, s, CaptureCall(w, j, s, tc))
  {
    hide Say, CaptureAnswered, OrEmpty, AnswersTruly, ToolNamed;
    var asked := OrEmpty(tc.arguments.keyType) in j.wanted;
    var out := if asked then w.executor(|s.calls|) else Ok(ToolOutput(Say(NotRequested), None, None, None, true));
    var s1 := if asked then Executed(s, tc.name, tc.arguments) else s;
    assert !AnyBlankCall(w, s1.calls, |s.calls|, |s1.calls|);
    Ended(w, s, Polled(s1), Aborted);
    CaptureAnsweredTrue(w, j, s, Polled(s1), tc, out);
  }

  lemma BlankState(o: ToolOutput)
    ensures StateText(o) == "" <==> o.text == "" && o.browserState.None?
  {
  }

  lemma ShowsSomething(e: ExecutorError)
    ensures ShowExecutorError(e) != ""
  {
  }

  lemma LastCallBlank(w: World, calls: seq<(string, Arguments)>, call: (string, Arguments))
    ensures AnyBlankCall(w, calls + [call], |calls|, |calls| + 1)
       <==> ToolNamed(call.0).BrowserTool? && BlankOutput(w.executor(|calls|))
  {
    hide ToolNamed, BlankOutput;
    assert BlankCall(w, calls + [call], |calls|) <==> ToolNamed(call.0).BrowserTool? && BlankOutput(w.executor(|calls|));
  }

  lemma BrowserTrue(w: World, j: Job, s: St, tc: ToolCall)
    requires ToolNamed(tc.name).BrowserTool?
    ensures AnswersTruly(w, s, BrowserCall(w, j, s, tc))
  {
    hide Say, Clean, StepEvent, StateText, ShowExecutorError, Truncated, ToolNamed, AnyBlankCall;
    LastCallBlank(w, s.calls, (tc.name, tc.arguments));
    match w.executor(|s.calls|)
    case Ok(o) =>
      BlankState(o);
      CleanIsEmpty(j, StateText(o));
      BlankText(Clean(j, StateText(o)));
    case Err(e) =>
      ShowsSomething(e);
      CleanIsEmpty(j, ShowExecutorError(e));
      BlankText(Clean(j, ShowExecutorError(e)));
  }

  lemma DispatchedTrue(w: World, j: Job, s: St, tc: ToolCall)
    ensures AnswersTruly(w, s, Dispatched(w, j, s, tc))
  {
    hide Say, ToolNamed, Clean, OrEmpty, NeedUserCall, CaptureCall, BrowserCall, PartialOutcome, DoneCall, Answering, AnswersTruly, BlankCall;
    match ToolNamed(tc.name)
    case NeedUserTool => NeedUserTrue(w, j, s, tc);
    case CaptureTool => CaptureTrue(w, j, s, tc);
    case BrowserTool => BrowserTrue(w, j, s, tc);
    case DoneTool => Ended(w, s, s, DoneCall(j, s, tc));
    case FailTool => Ended(w, s, s, PartialOutcome(j, s.captured, Clean(j, OrEmpty(tc.arguments.reason))));
    case NoTool =>
      SaysSomething(UnknownTool(tc.name));
      Spoken(w, s, s, tc, Say(UnknownTool(tc.name)), true);
  }

  lemma CallStepTrue(w: World, j: Job, s: St, tc: ToolCall)
    ensures AnswersTruly(w, s, CallStep(w, j, s, tc))
  {
    hide Say, Dispatched, PartialOutcome, AnyBlankCall;
    if s.step >= j.maxSteps {
      Ended(w, s, s, PartialOutcome(j, s.captured, Say(Exhausted(j.maxSteps))));
    } else if w.aborted(s.polls) {
      Ended(w, s, Stepped(s), Aborted);
    } else {
      DispatchedTrue(w, j, Stepped(s), tc);
    }
  }

  lemma BlankCallsSplit(w: World, calls: seq<(string, Arguments)>, calls': seq<(string, Arguments)>, from: nat)
    requires calls <= calls' && from <= |calls|
    ensures AnyBlankCall(w, calls', from, |calls'|)
       <==> AnyBlankCall(w, calls, from, |calls|) || AnyBlankCall(w, calls', |calls|, |calls'|)
  {
    hide ToolNamed, BlankOutput;
    forall c: nat | c < |calls| ensures BlankCall(w, calls, c) <==> BlankCall(w, calls', c) {
    }
  }

  lemma BlankResultsMore(results: seq<ToolResult>, r: ToolResult)
    ensures AnyBlankResult(results + [r]) <==> AnyBlankResult(results) || Anthropic.HasBlank(r.content)
  {
    hide Anthropic.HasBlank;
    if AnyBlankResult(results) {
      var i :| 0 <= i < |results| && Anthropic.HasBlank(results[i].content);
      assert (results + [r])[i] == results[i];
    }
    assert (results + [r])[|results|] == r;
  }

  lemma {:induction false} CallsTrue(w: World, j: Job, s: St, calls: seq<ToolCall>)
    ensures var (t, end) := CallsFrom(w, j, s, calls);
            && s.calls <= t.calls
            && (end.AllAnswered? ==> (AnyBlankResult(end.results) <==> AnyBlankCall(w, t.calls, |s.calls|, |t.calls|)))
  {
    hide CallStep, AnyBlankResult, AnyBlankCall, Anthropic.HasBlank;
    if calls == [] {
      NothingBlank(w, s.calls);
    } else {
      var n := |calls| - 1;
      CallsTrue(w, j, s, calls[..n]);
      var (s1, before) := CallsFrom(w, j, s, calls[..n]);
      if before.AllAnswered? {
        var (t, last) := CallStep(w, j, s1, calls[n]);
        CallStepTrue(w, j, s1, calls[n]);
        BlankCallsSplit(w, s1.calls, t.calls, |s.calls|);
        if last.Answered? {
          BlankResultsMore(before.results, last.result);
        }
      }
    }
  }

  lemma NothingBlank(w: World, calls: seq<(string, Arguments)>)
    ensures !AnyBlankResult([]) && !AnyBlankCall(w, calls, |calls|, |calls|)
  {
  }

  // ------------------------------------------------------------------ what a conversation carries

  /** No user turn's own content is blank. */
  ghost predicate UsersSpeak(ms: seq<Message>) {
    forall i :: 0 <= i < |ms| && ms[i].role.User? ==> !Anthropic.HasBlank(ms[i].content)
  }

  /** The conversation after `k` requests and these browser calls: the replies so far, and answers as blank as the calls. */
  ghost predicate Carries(w: World, ms: seq<Message>, k: nat, calls: seq<(string, Arguments)>, made: nat) {
    && TurnsIn(ms) == RepliesTo(w, k) && UsersSpeak(ms)
    && (AnyBlankAnswer(ms) <==> AnyBlankCall(w, calls, 0, made))
  }

  ghost predicate Recorded(w: World, requests: seq<Request>, calls: seq<(string, Arguments)>) {
    forall k :: 0 <= k < |requests| ==>
      requests[k].made <= |calls| && Carries(w, requests[k].messages, k, calls, requests[k].made)
  }

  lemma MoreCalls(w: World, requests: seq<Request>, calls: seq<(string, Arguments)>, calls': seq<(string, Arguments)>)
    requires Recorded(w, requests, calls) && calls <= calls'
    ensures Recorded(w, requests, calls')
  {
    hide TurnsIn, RepliesTo, UsersSpeak, AnyBlankAnswer, ToolNamed, BlankOutput;
    forall k | 0 <= k < |requests| ensures Carries(w, requests[k].messages, k, calls', requests[k].made) {
      assert forall c: nat :: c < requests[k].made ==> (BlankCall(w, calls, c) <==> BlankCall(w, calls', c));
    }
  }

  lemma Exchange(ms: seq<Message>, a: Message, u: Message)
    requires a.role.Assistant? && a.toolResults == [] && u.role.User?
    ensures var all := ms + [a, u];
            && TurnsIn(all) == TurnsIn(ms) + [a]
            && (AnyBlankAnswer(all) <==> AnyBlankAnswer(ms) || AnyBlankResult(u.toolResults))
            && (UsersSpeak(all) <==> UsersSpeak(ms) && !Anthropic.HasBlank(u.content))
  {
    hide Anthropic.HasBlank;
    var all, n := ms + [a, u], |ms|;
    assert all[..n + 1] == ms + [a] && (ms + [a])[..n] == ms;
    assert all[n] == a && all[n + 1] == u;
    if AnyBlankAnswer(ms) {
      var i :| 0 <= i < |ms| && AnyBlankResult(ms[i].toolResults);
      assert all[i] == ms[i];
    }
    forall i | 0 <= i < n ensures all[i] == ms[i] {
    }
  }

  ghost predicate RoundCarries(w: World, r: (St, Option<Outcome>)) {
    && Recorded(w, r.0.requests, r.0.calls)
    && (r.1.None? ==> Carries(w, r.0.messages, |r.0.requests|, r.0.calls, |r.0.calls|))
  }

  /** A round of calls that goes on appends exactly the reply and its answers. */
  lemma CallsReplyAppends(w: World, j: Job, s: St, text: Option<string>, calls: seq<ToolCall>)
    requires D.Proper(s.messages) && s.ladder.Valid() && s.step <= j.maxSteps && calls != []
    ensures var (t, end) := CallsReply(w, j, s, text, calls);
            var s1 := s.(idle := 0, messages := s.messages + [AssistantTurn(text, calls)]);
            var (s2, made) := CallsFrom(w, j, s1, calls);
            && t.calls == s2.calls && t.requests == s.requests
            && (end.None? <==> made.AllAnswered?)
            && (end.None? ==> t.messages == s.messages + [AssistantTurn(text, calls), ToolResults(made.results)])
  {
    hide CallsFrom, AnsweredInText, Pruned, AssistantTurn, D.Proper, D.ProperTurn, D.Masked, IsUserTurn, Climb;
    var s1 := s.(idle := 0, messages := s.messages + [AssistantTurn(text, calls)]);
    CallsProgress(w, j, s1, calls);
    D.CallsMasked(w, j, s1, calls);
    D.AssistantIsProper(text, calls);
    var (s2, end) := CallsFrom(w, j, s1, calls);
    if end.AllAnswered? {
      D.AnswersAreProper(calls, end.results);
      D.CallsOf(text, calls);
      D.ProperExchange(s.messages, AssistantTurn(text, calls), ToolResults(end.results));
      D.ClimbKeeps(s2, L.AfterFailure(s2.ladder));
      ClimbCalls(s2, L.AfterFailure(s2.ladder));
      D.SomeAnswer(calls, end.results);
    }
  }

  lemma ClimbCalls(s: St, ladder: L.State)
    requires s.ladder.Valid() && ladder.Valid()
    ensures Climb(s, ladder).calls == s.calls
  {
  }

  /** The state right after request `k` was sent. */
  ghost predicate Sent(w: World, s: St) {
    s.requests != [] && Recorded(w, s.requests, s.calls) && Carries(w, s.messages, |s.requests| - 1, s.calls, |s.calls|)
  }

  lemma CallsReplyCarries(w: World, j: Job, s: St, text: Option<string>, calls: seq<ToolCall>)
    requires Sent(w, s) && w.provider(|s.requests| - 1) == Reply(text, calls) && calls != []
    requires D.Proper(s.messages) && s.ladder.Valid() && s.step <= j.maxSteps
    ensures RoundCarries(w, CallsReply(w, j, s, text, calls))
  {
    hide CallsReply, CallsFrom, D.Proper, Recorded, TurnsIn, AnyBlankAnswer, AnyBlankResult, AnyBlankCall, UsersSpeak, Anthropic.HasBlank;
    var s1 := s.(idle := 0, messages := s.messages + [AssistantTurn(text, calls)]);
    var (t, end) := CallsReply(w, j, s, text, calls);
    CallsReplyAppends(w, j, s, text, calls);
    CallsTrue(w, j, s1, calls);
    MoreCalls(w, s.requests, s.calls, t.calls);
    if end.None? {
      var results := CallsFrom(w, j, s1, calls).1.results;
      Exchange(s.messages, AssistantTurn(text, calls), ToolResults(results));
      NoContent(results);
      BlankCallsSplit(w, s.calls, t.calls, 0);
    }
  }

  lemma NoContent(results: seq<ToolResult>)
    ensures !Anthropic.HasBlank(ToolResults(results).content) && ToolResults(results).toolResults == results
  {
  }

  lemma IdleReplyCarries(w: World, j: Job, s: St, text: Option<string>)
    requires Sent(w, s) && w.provider(|s.requests| - 1) == Reply(text, [])
    ensures RoundCarries(w, IdleReply(j, s, text))
  {
    hide Say, PartialOutcome, Recorded, Carries, UserText, AssistantTurn;
    SaysSomething(GoOn);
    IdlingCarries(w, s.messages, |s.requests| - 1, s.calls, text, Say(GoOn));
  }

  lemma IdlingCarries(w: World, ms: seq<Message>, k: nat, calls: seq<(string, Arguments)>, text: Option<string>, t: string)
    requires Carries(w, ms, k, calls, |calls|) && w.provider(k) == Reply(text, []) && t != ""
    ensures Carries(w, ms + [AssistantTurn(text, [])] + [UserText(t)], k + 1, calls, |calls|)
  {
    hide TurnsIn, AnyBlankAnswer, AnyBlankResult, AnyBlankCall, UsersSpeak, Anthropic.HasBlank;
    var a, u := AssistantTurn(text, []), UserText(t);
    BlankText(t);
    NothingBlank(w, calls);
    Exchange(ms, a, u);
    assert ms + [a] + [u] == ms + [a, u];
  }

  lemma ProviderFailedCarries(w: World, j: Job, s: St, e: ProviderError)
    requires Sent(w, s) && w.provider(|s.requests| - 1) == Failure(e) && s.ladder.Valid()
    ensures RoundCarries(w, ProviderFailed(j, s, e))
  {
    hide Say, PartialOutcome, Recorded, TurnsIn, AnyBlankAnswer, AnyBlankCall, UsersSpeak, Climb;
    if !s.ladder.IsTop() {
      D.ClimbKeeps(s, L.AfterProviderError(s.ladder));
      ClimbCalls(s, L.AfterProviderError(s.ladder));
    }
    assert RepliesTo(w, |s.requests|) == RepliesTo(w, |s.requests| - 1) + [];
  }

  lemma RepliedCarries(w: World, j: Job, s: St)
    requires Sent(w, s) && D.Proper(s.messages) && s.ladder.Valid() && s.step <= j.maxSteps
    ensures RoundCarries(w, Replied(w, j, s, w.provider(|s.requests| - 1)))
  {
    hide CallsReply, IdleReply, ProviderFailed, Clean, D.Proper, Recorded, Carries;
    match w.provider(|s.requests| - 1)
    case Cancelled =>
    case Failure(e) => ProviderFailedCarries(w, j, s, e);
    case Reply(text, calls) =>
      var s2 := Thinking(j, s, text);
      assert Sent(w, s2);
      if calls == [] {
        IdleReplyCarries(w, j, s2, text);
      } else {
        CallsReplyCarries(w, j, s2, text, calls);
      }
  }

  ghost predicate Carrying(w: World, s: St) {
    Recorded(w, s.requests, s.calls) && Carries(w, s.messages, |s.requests|, s.calls, |s.calls|)
  }

  lemma AskedSent(w: World, s: St)
    requires Carrying(w, s) && s.ladder.Valid()
    ensures Sent(w, Asked(Polled(s)))
  {
    hide Carries;
  }

  lemma RoundIsCarried(w: World, j: Job, s: St)
    requires Carrying(w, s) && D.Proper(s.messages) && s.ladder.Valid() && s.step <= j.maxSteps
    ensures RoundCarries(w, Round(w, j, s))
  {
    hide Replied, Say, PartialOutcome, D.Proper, Recorded, Carries, Sent;
    if s.step < j.maxSteps {
      AskedSent(w, s);
      RepliedCarries(w, j, Asked(Polled(s)));
    }
  }

  lemma {:induction false} RunFromCarries(w: World, j: Job, s: St)
    requires Carrying(w, s) && D.Proper(s.messages) && D.AllProper(j, s.requests)
    requires s.ladder.Valid() && s.ladder.models == j.models && s.step <= j.maxSteps
    ensures var t := RunFrom(w, j, s).0;
            Recorded(w, t.requests, t.calls)
    decreases j.maxSteps - s.step, |s.ladder.models| - s.ladder.index
  {
    hide Round, D.Proper, D.AllProper, Recorded, Carries;
    RoundIsCarried(w, j, s);
    D.RoundIsProper(w, j, s);
    RoundUses(w, j, s);
    if Round(w, j, s).1.None? {
      RunFromCarries(w, j, Round(w, j, s).0);
    }
  }

  /**
   * Every request carries exactly the replies to the earlier ones, in order, and a blank answer exactly if one of
   * the browser calls made before it came back blank.
   */
  lemma RequestsCarryReplies(w: World, j: Job)
    requires j.models != []
    ensures var s := RunInner(w, j).0;
            Recorded(w, s.requests, s.calls)
  {
    hide RunFrom, D.Proper, D.AllProper, UserText, Say, Clean, Carries, Recorded;
    D.NoRequestYet(j);
    NothingRecorded(w);
    if w.begin.Ok? {
      var t := Say(Opening(w.begin.value, j.startUrl));
      D.StartIsProper(t);
      SaysSomething(Opening(w.begin.value, j.startUrl));
      StartCarries(w, t);
      RunFromCarries(w, j, Opened(j, w.begin.value));
    }
  }

  lemma NothingRecorded(w: World)
    ensures Recorded(w, [], [])
  {
  }

  lemma StartCarries(w: World, t: string)
    requires t != ""
    ensures Carries(w, [UserText(t)], 0, [], 0)
  {
    BlankText(t);
    assert [UserText(t)][..0] == [];
  }
}
