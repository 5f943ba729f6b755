/** What the agent loop hands to the provider. */
module AgentDialogue {
  import opened Prelude
  import opened Conversation
  import opened AgentLoop
  import opened AgentTexts
  import L = Ladder
  import R = Redact
  import T = Text
  import Anthropic
  import OpenAi

  // ------------------------------------------------------------------ conversations of text

  ghost predicate AllText(content: seq<ContentPart>) {
    forall i :: 0 <= i < |content| ==> content[i].Text?
  }

  /** No image anywhere, and no answer without content. */
  ghost predicate TextOnly(m: Message) {
    && AllText(m.content)
    && forall i :: 0 <= i < |m.toolResults| ==> m.toolResults[i].content != [] && AllText(m.toolResults[i].content)
  }

  lemma {:induction false} RetainText(content: seq<ContentPart>, seen: nat, keep: nat)
    requires AllText(content)
    ensures Retain(content, seen, keep) == (content, seen)
  {
    if content != [] {
      RetainText(content[1..], seen, keep);
      assert content == [content[0]] + content[1..];
    }
  }

  lemma {:induction false} PruneTextResults(rs: seq<ToolResult>, seen: nat, keep: nat)
    requires forall i :: 0 <= i < |rs| ==> rs[i].content != [] && AllText(rs[i].content)
    ensures PruneResults(rs, seen, keep) == (rs, seen)
  {
    hide AllText, Retain;
    if rs != [] {
      var n := |rs| - 1;
      RetainText(rs[n].content, seen, keep);
      PruneTextResults(rs[..n], seen, keep);
      assert rs == rs[..n] + [rs[n]];
    }
  }

  lemma PruneTextMessage(m: Message, seen: nat, keep: nat)
    requires TextOnly(m)
    ensures PruneMessage(m, seen, keep) == (m, seen)
  {
    hide AllText, Retain;
    PruneTextResults(m.toolResults, seen, keep);
    RetainText(m.content, seen, keep);
  }

  /** There is nothing to prune in a conversation of text. */
  lemma {:induction false} PruneText(ms: seq<Message>, seen: nat, keep: nat)
    requires forall i :: 0 <= i < |ms| ==> TextOnly(ms[i])
    ensures PruneFrom(ms, seen, keep) == (ms, seen)
  {
    hide TextOnly, PruneMessage;
    if ms != [] {
      var n := |ms| - 1;
      PruneTextMessage(ms[n], seen, keep);
      PruneText(ms[..n], seen, keep);
      assert ms == ms[..n] + [ms[n]];
    }
  }

  // ------------------------------------------------------------------ answers carry no secret shape

  /** An answer of a browser tool holds no text of a known secret shape. */
  ghost predicate Masked(r: ToolResult) {
    ToolNamed(r.name).CaptureTool? || ToolNamed(r.name).BrowserTool? ==>
      |r.content| == 1 && r.content[0].Text? && !R.HoldsKey(r.content[0].text)
  }

  lemma CleanIsMasked(j: Job, tc: ToolCall, raw: string, isError: bool)
    ensures Answering(tc, Clean(j, raw), isError).Answered? && Masked(Answering(tc, Clean(j, raw), isError).result)
  {
    hide R.Redacted, R.HoldsKey, ToolNamed;
    R.RedactedIsClean(raw, j.generic);
  }

  ghost predicate AnswerMasked(end: CallEnd) {
    end.Answered? ==> Masked(end.result)
  }

  lemma StoreMasked(w: World, j: Job, s: St, tc: ToolCall, keyType: string, value: string)
    ensures AnswerMasked(StoreCall(w, j, s, tc, keyType, value).1)
  {
    hide Say, Clean, Missing, R.Fingerprint, Masked, Stored, StepEvent;
    forall raw, isError ensures Masked(Answering(tc, Clean(j, raw), isError).result) {
      CleanIsMasked(j, tc, raw, isError);
    }
  }

  lemma CaptureMasked(w: World, j: Job, s: St, tc: ToolCall)
    ensures AnswerMasked(CaptureCall(w, j, s, tc).1)
  {
    hide Say, CaptureAnswered, OrEmpty, AnswerMasked, Masked, ToolNamed;
    StoppedMasked(Aborted);
    var asked := OrEmpty(tc.arguments.keyType) in j.wanted;
    var out := if asked then w.executor(|s.calls|) else Ok(ToolOutput(Say(NotRequested), None, None, None, true));
    CaptureAnsweredMasked(w, j, Polled(if asked then Executed(s, tc.name, tc.arguments) else s), tc, out);
  }

  lemma CaptureAnsweredMasked(w: World, j: Job, s: St, tc: ToolCall, out: Result<ToolOutput, ExecutorError>)
    ensures AnswerMasked(CaptureAnswered(w, j, s, tc, out).1)
  {
    hide Say, Reported, StoreCall, HasValue, Clean, OrEmpty, T.Trim, AnswerMasked, Masked, ToolNamed;
    match out
    case Ok(o) =>
      if HasValue(o) {
        WithValue(o);
        StoreMasked(w, j, s, tc, OrEmpty(tc.arguments.keyType), T.Trim(o.secret.value));
      } else {
        ReportedMasked(j, s, tc, if o.text == "" then Say(NoValue) else Clean(j, o.text), true);
      }
    case Err(e) =>
      if e.AbortedByUser? {
        StoppedMasked(Aborted);
      } else {
        ReportedMasked(j, s, tc, Say(CaptureFailed(e)), true);
      }
  }

  lemma ReportedMasked(j: Job, s: St, tc: ToolCall, raw: string, isError: bool)
    ensures AnswerMasked(Reported(j, s, tc, raw, isError).1)
  {
    hide Clean, Masked, StepEvent;
    CleanIsMasked(j, tc, raw, isError);
  }

  lemma StoppedMasked(outcome: Outcome)
    ensures AnswerMasked(Stopped(outcome))
  {
  }

  lemma BrowserMasked(w: World, j: Job, s: St, tc: ToolCall)
    ensures AnswerMasked(BrowserCall(w, j, s, tc).1)
  {
    hide Clean, Masked, StepEvent, StateText, ShowExecutorError, Truncated;
    match w.executor(|s.calls|)
    case Ok(o) => CleanIsMasked(j, tc, StateText(o), o.isError);
    case Err(e) => CleanIsMasked(j, tc, ShowExecutorError(e), true);
  }

  lemma NeedUserMasked(w: World, j: Job, s: St, tc: ToolCall)
    requires ToolNamed(tc.name).NeedUserTool?
    ensures AnswerMasked(NeedUserCall(w, j, s, tc).1)
  {
    hide Say, ToolNamed, Clean, OrEmpty, StepEvent;
  }

  lemma UnknownMasked(tc: ToolCall, text: string)
    requires ToolNamed(tc.name).NoTool?
    ensures AnswerMasked(Answering(tc, text, true))
  {
    hide ToolNamed;
  }

  lemma DispatchedMasked(w: World, j: Job, s: St, tc: ToolCall)
    ensures AnswerMasked(Dispatched(w, j, s, tc).1)
  {
    hide Say, ToolNamed, Clean, OrEmpty, NeedUserCall, CaptureCall, BrowserCall, PartialOutcome, DoneCall, Answering, AnswerMasked;
    match ToolNamed(tc.name)
    case NeedUserTool => NeedUserMasked(w, j, s, tc);
    case CaptureTool => CaptureMasked(w, j, s, tc);
    case BrowserTool => BrowserMasked(w, j, s, tc);
    case DoneTool => StoppedMasked(DoneCall(j, s, tc));
    case FailTool => StoppedMasked(PartialOutcome(j, s.captured, Clean(j, OrEmpty(tc.arguments.reason))));
    case NoTool => UnknownMasked(tc, Say(UnknownTool(tc.name)));
  }

  lemma CallStepMasked(w: World, j: Job, s: St, tc: ToolCall)
    ensures AnswerMasked(CallStep(w, j, s, tc).1)
  {
    hide Say, Dispatched, PartialOutcome, AnswerMasked, ToolNamed, R.HoldsKey, Masked;
    if s.step >= j.maxSteps {
      StoppedMasked(PartialOutcome(j, s.captured, Say(Exhausted(j.maxSteps))));
    } else if w.aborted(s.polls) {
      StoppedMasked(Aborted);
    } else {
      DispatchedMasked(w, j, Stepped(s), tc);
    }
  }

  lemma {:induction false} CallsMasked(w: World, j: Job, s: St, calls: seq<ToolCall>)
    ensures var end := CallsFrom(w, j, s, calls).1;
            end.AllAnswered? ==> forall i :: 0 <= i < |end.results| ==> Masked(end.results[i])
  {
    hide CallStep, Masked;
    if calls != [] {
      var n := |calls| - 1;
      CallsMasked(w, j, s, calls[..n]);
      CallStepMasked(w, j, CallsFrom(w, j, s, calls[..n]).0, calls[n]);
    }
  }

  // ------------------------------------------------------------------ every request is proper

  ghost predicate ProperTurn(m: Message) {
    TextOnly(m) && forall i :: 0 <= i < |m.toolResults| ==> Masked(m.toolResults[i])
  }

  /** A well-formed conversation, of text alone, in which nothing from the browser has a secret shape. */
  ghost predicate Proper(ms: seq<Message>) {
    WellFormed(ms) && forall i :: 0 <= i < |ms| ==> ProperTurn(ms[i])
  }

  ghost predicate AllProper(j: Job, requests: seq<Request>) {
    forall k :: 0 <= k < |requests| ==> requests[k].model in j.models && Proper(requests[k].messages)
  }

  lemma UserTextIsProper(t: string)
    ensures ProperTurn(UserText(t)) && IsUserTurn(UserText(t))
  {
    assert UserText(t).content[0].Text?;
  }

  lemma AssistantIsProper(text: Option<string>, calls: seq<ToolCall>)
    ensures ProperTurn(AssistantTurn(text, calls)) && IsAssistantTurn(AssistantTurn(text, calls))
  {
  }

  lemma AnswersAreProper(calls: seq<ToolCall>, results: seq<ToolResult>)
    requires calls != [] && AnsweredInText(calls, results)
    requires forall i :: 0 <= i < |results| ==> Masked(results[i])
    ensures ProperTurn(ToolResults(results)) && IsUserTurn(ToolResults(results)) && Answers(calls, ToolResults(results).toolResults)
  {
    hide Masked;
  }

  lemma ProperExchange(ms: seq<Message>, a: Message, u: Message)
    requires Proper(ms) && ProperTurn(a) && ProperTurn(u)
    requires IsAssistantTurn(a) && IsUserTurn(u) && Answers(a.toolCalls, u.toolResults)
    ensures Proper(ms + [a, u])
    ensures Pruned(ms + [a, u], 2) == ms + [a, u]
    ensures ms + [a] + [u] == ms + [a, u]
  {
    hide ProperTurn, WellFormed, PruneFrom;
    ExchangeIsWellFormed(ms, a, u);
    var all := ms + [a, u];
    forall i | 0 <= i < |all| ensures ProperTurn(all[i]) && TextOnly(all[i]) {
      assert all[i] == if i < |ms| then ms[i] else if i == |ms| then a else u;
      ProperIsText(all[i]);
    }
    PruneText(all, 0, 2);
  }

  lemma ProperIsText(m: Message)
    requires ProperTurn(m)
    ensures TextOnly(m)
  {
  }

  ghost predicate RoundProper(j: Job, r: (St, Option<Outcome>)) {
    AllProper(j, r.0.requests) && (r.1.None? ==> Proper(r.0.messages))
  }

  lemma IdleReplyProper(j: Job, s: St, text: Option<string>)
    requires Proper(s.messages) && AllProper(j, s.requests)
    ensures RoundProper(j, IdleReply(j, s, text))
  {
    hide Say, PartialOutcome, Proper, UserText, AssistantTurn, AllProper;
    ProperIdling(s.messages, text, Say(GoOn));
  }

  lemma ProperIdling(ms: seq<Message>, text: Option<string>, t: string)
    requires Proper(ms)
    ensures Proper(ms + [AssistantTurn(text, [])] + [UserText(t)])
  {
    hide Proper, ProperTurn, IsUserTurn, Pruned;
    UserTextIsProper(t);
    AssistantIsProper(text, []);
    ProperExchange(ms, AssistantTurn(text, []), UserText(t));
  }

  lemma CallsReplyProper(w: World, j: Job, s: St, text: Option<string>, calls: seq<ToolCall>)
    requires Proper(s.messages) && AllProper(j, s.requests) && s.ladder.Valid() && s.step <= j.maxSteps && calls != []
    ensures RoundProper(j, CallsReply(w, j, s, text, calls))
  {
    hide CallsFrom, AnsweredInText, Pruned, AssistantTurn, Proper, ProperTurn, Masked, IsUserTurn, Climb;
    var s1 := s.(idle := 0, messages := s.messages + [AssistantTurn(text, calls)]);
    CallsProgress(w, j, s1, calls);
    CallsMasked(w, j, s1, calls);
    AssistantIsProper(text, calls);
    var (s2, end) := CallsFrom(w, j, s1, calls);
    if end.AllAnswered? {
      AnswersAreProper(calls, end.results);
      CallsOf(text, calls);
      ProperExchange(s.messages, AssistantTurn(text, calls), ToolResults(end.results));
      ClimbKeeps(s2, L.AfterFailure(s2.ladder));
      SomeAnswer(calls, end.results);
    }
  }

  lemma CallsOf(text: Option<string>, calls: seq<ToolCall>)
    ensures AssistantTurn(text, calls).toolCalls == calls
  {
  }

  lemma SomeAnswer(calls: seq<ToolCall>, results: seq<ToolResult>)
    requires calls != [] && AnsweredInText(calls, results)
    ensures results != []
  {
  }

  lemma ClimbKeeps(s: St, ladder: L.State)
    requires s.ladder.Valid() && ladder.Valid()
    ensures var t := Climb(s, ladder);
            t.messages == s.messages && t.requests == s.requests
  {
  }

  lemma RepliedProper(w: World, j: Job, s: St, answer: Answer)
    requires Proper(s.messages) && AllProper(j, s.requests) && s.ladder.Valid() && s.step <= j.maxSteps
    ensures RoundProper(j, Replied(w, j, s, answer))
  {
    hide CallsReply, IdleReply, Clean, Climb, PartialOutcome, Say, Proper;
    match answer
    case Cancelled =>
    case Failure(e) =>
      ClimbKeeps(s, if s.ladder.IsTop() then s.ladder else L.AfterProviderError(s.ladder));
    case Reply(text, calls) =>
      var s2 := Thinking(j, s, text);
      assert s2.messages == s.messages && s2.requests == s.requests && s2.ladder == s.ladder && s2.step == s.step;
      if calls == [] {
        IdleReplyProper(j, s2, text);
      } else {
        CallsReplyProper(w, j, s2, text, calls);
      }
  }

  lemma RoundIsProper(w: World, j: Job, s: St)
    requires Proper(s.messages) && AllProper(j, s.requests)
    requires s.ladder.Valid() && s.ladder.models == j.models && s.step <= j.maxSteps
    ensures RoundProper(j, Round(w, j, s))
  {
    hide Replied, Say, PartialOutcome, Proper, ToolNamed, Masked;
    if s.step < j.maxSteps {
      assert AllProper(j, Asked(Polled(s)).requests) by {
        OneMoreProper(j, s.requests, Request(s.ladder.Current(), s.messages, |s.calls|));
      }
      RepliedProper(w, j, Asked(Polled(s)), w.provider(|s.requests|));
    }
  }

  lemma OneMoreProper(j: Job, requests: seq<Request>, r: Request)
    requires AllProper(j, requests) && r.model in j.models && Proper(r.messages)
    ensures AllProper(j, requests + [r])
  {
    hide Proper;
  }

  lemma {:induction false} RunFromProper(w: World, j: Job, s: St)
    requires Proper(s.messages) && AllProper(j, s.requests)
    requires s.ladder.Valid() && s.ladder.models == j.models && s.step <= j.maxSteps
    ensures AllProper(j, RunFrom(w, j, s).0.requests)
    decreases j.maxSteps - s.step, |s.ladder.models| - s.ladder.index
  {
    hide Round, Proper, AllProper;
    RoundIsProper(w, j, s);
    RoundUses(w, j, s);
    if Round(w, j, s).1.None? {
      RunFromProper(w, j, Round(w, j, s).0);
    }
  }

  /**
   * Whatever comes back from the provider, the browser and the user, every request names a model of the ladder and
   * carries a well-formed conversation without images, in which no answer of a browser tool has a secret's shape.
   */
  lemma RequestsAreProper(w: World, j: Job)
    requires j.models != []
    ensures AllProper(j, RunInner(w, j).0.requests)
  {
    hide RunFrom, Proper, UserText, Say, Clean, AllProper;
    NoRequestYet(j);
    if w.begin.Ok? {
      StartIsProper(Say(Opening(w.begin.value, j.startUrl)));
      RunFromProper(w, j, Opened(j, w.begin.value));
    }
  }

  lemma NoRequestYet(j: Job)
    ensures AllProper(j, [])
  {
  }

  lemma StartIsProper(t: string)
    ensures Proper([UserText(t)])
  {
    StartIsWellFormed(t);
    UserTextIsProper(t);
  }

  /** So both translations of every request have the order that their APIs ask for. */
  lemma RequestsAreInOrder(w: World, j: Job, system: string, k: nat)
    requires j.models != [] && k < |RunInner(w, j).0.requests|
    ensures var ms := RunInner(w, j).0.requests[k].messages;
            Anthropic.InOrder(Anthropic.Converted(ms)) && OpenAi.InOrder(OpenAi.Converted(system, ms))
  {
    hide RunInner, WellFormed, Anthropic.InOrder, OpenAi.InOrder;
    RequestsAreProper(w, j);
    var ms := RunInner(w, j).0.requests[k].messages;
    assert Proper(ms);
    Anthropic.WellFormedIsInOrder(ms);
    OpenAi.WellFormedIsInOrder(system, ms);
  }
}
