/** The collection agent as a function of its environment: every answer of the provider, browser, vault and user. */
module AgentLoop {
  import opened Prelude
  import opened AgentTexts
  import opened Conversation
  import L = Ladder
  import R = Redact
  import T = Text

  // ------------------------------------------------------------------ the environment

  datatype BrowserState = BrowserState(tabId: string, url: string, title: string)

  datatype ToolOutput = ToolOutput(
    text: string,
    image: Option<string>,
    secret: Option<string>,
    browserState: Option<BrowserState>,
    isError: bool)

  /** A completion, an error, or the user's abort while waiting for one. */
  datatype Answer = Cancelled | Failure(error: ProviderError) | Reply(text: Option<string>, calls: seq<ToolCall>)

  /** The answer to the k-th request, the k-th browser call, the k-th store, and the k-th read of the abort flag. */
  datatype World = World(
    begin: Result<string, ExecutorError>,
    provider: nat -> Answer,
    executor: nat -> Result<ToolOutput, ExecutorError>,
    sink: nat -> Result<bool, string>,
    aborted: nat -> bool)

  /** A collection request; `generic` is the redactor's last pass. */
  datatype Job = Job(service: string, wanted: seq<string>, maxSteps: nat, startUrl: string, models: seq<string>, generic: R.Generic)

  // ------------------------------------------------------------------ what a run leaves behind

  datatype Outcome =
    | Success(captured: seq<string>, summary: string)
    | Partial(captured: seq<string>, missing: seq<string>, reason: string)
    | Failed(reason: string)
    | Aborted

  datatype Event =
    | Started(service: string, model: string)
    | Thought(text: string)
    | Step(step: nat, tool: string, args: string, result: string, isError: bool)
    | Captured(keyType: string, fingerprint: string, valid: bool)
    | Escalated(from: string, into: string)
    | NeedUser(message: string)
    | Finished(outcome: Outcome)

  /** One request to the provider; `made` is how many browser calls had been made before it. */
  datatype Request = Request(model: string, messages: seq<Message>, made: nat)

  /** One call of the vault's `store`, without the value. */
  datatype Store = Store(keyType: string, label_: Option<string>, verdict: Result<bool, string>)

  /** The loop's variables, and what it has sent out so far. `values[k]` is the value of `stores[k]`. */
  datatype St = St(
    step: nat,
    idle: nat,
    captured: seq<string>,
    messages: seq<Message>,
    ladder: L.State,
    polls: nat,
    requests: seq<Request>,
    calls: seq<(string, Arguments)>,
    stores: seq<Store>,
    values: seq<string>,
    events: seq<Event>)

  // ------------------------------------------------------------------ texts

  function OrEmpty(s: Option<string>): string {
    if s.Some? then s.value else ""
  }

  function Truncated(s: string, n: nat): string {
    if |s| <= n then s else s[..n] + "\U{2026}"
  }

  function Clean(j: Job, t: string): string {
    R.Redacted(t, j.generic)
  }

  function ArgsSummary(j: Job, args: Arguments): string {
    Truncated(Clean(j, args.printed), 200)
  }

  function StateText(o: ToolOutput): string {
    match o.browserState
    case None => o.text
    case Some(b) => o.text + "\n[tab " + b.tabId + " \U{b7} " + b.title + " \U{b7} " + b.url + "]"
  }

  // ------------------------------------------------------------------ one tool call

  datatype Tool = DoneTool | FailTool | NeedUserTool | CaptureTool | BrowserTool | NoTool

  const BROWSER_TOOLS: seq<string> :=
    ["navigate", "read_page", "find", "get_page_text", "left_click", "double_click", "hover", "type", "key", "form_input",
     "scroll", "scroll_to", "wait", "list_tabs", "switch_tab", "capture_secret"]

  function ToolNamed(name: string): Tool {
    if name == "done" then DoneTool
    else if name == "fail" then FailTool
    else if name == "need_user" then NeedUserTool
    else if name == "capture_secret" then CaptureTool
    else if name in BROWSER_TOOLS then BrowserTool
    else NoTool
  }

  /** The wanted keys not captured yet, in the order they were asked for. */
  function Missing(wanted: seq<string>, captured: seq<string>): seq<string> {
    if wanted == [] then []
    else (if wanted[0] in captured then [] else [wanted[0]]) + Missing(wanted[1..], captured)
  }

  function PartialOutcome(j: Job, captured: seq<string>, reason: string): Outcome {
    if captured == [] then Failed(reason) else Partial(captured, Missing(j.wanted, captured), reason)
  }

  function Emit(s: St, e: Event): St {
    s.(events := s.events + [e])
  }

  function Polled(s: St): St {
    s.(polls := s.polls + 1)
  }

  function Executed(s: St, name: string, args: Arguments): St {
    s.(calls := s.calls + [(name, args)])
  }

  datatype CallEnd = Answered(result: ToolResult, failed: bool) | Stopped(outcome: Outcome)

  function Answering(tc: ToolCall, text: string, isError: bool): CallEnd {
    Answered(ToolResult(tc.id, tc.name, [Text(text)], isError), isError)
  }

  function StepEvent(j: Job, s: St, tc: ToolCall, result: string, isError: bool): Event {
    Step(s.step, tc.name, ArgsSummary(j, tc.arguments), result, isError)
  }

  function DoneCall(j: Job, s: St, tc: ToolCall): Outcome {
    var summary := Clean(j, OrEmpty(tc.arguments.summary));
    var missing := Missing(j.wanted, s.captured);
    if missing == [] then Success(s.captured, summary) else Partial(s.captured, missing, summary)
  }

  function NeedUserCall(w: World, j: Job, s: St, tc: ToolCall): (St, CallEnd) {
    var s1 := Emit(s, NeedUser(Clean(j, OrEmpty(tc.arguments.message))));
    var s2 := Emit(s1, StepEvent(j, s, tc, Say(WaitingForUser), false));
    var s3 := Polled(s2);
    if w.aborted(s2.polls) then (s3, Stopped(Aborted))
    else
      var s4 := Polled(s3);
      if w.aborted(s3.polls) then (s4, Stopped(Aborted)) else (s4, Answering(tc, Say(UserIsBack), false))
  }

  function Reported(j: Job, s: St, tc: ToolCall, raw: string, isError: bool): (St, CallEnd) {
    var text := Clean(j, raw);
    (Emit(s, StepEvent(j, s, tc, text, isError)), Answering(tc, text, isError))
  }

  function Stored(s: St, keyType: string, label_: Option<string>, value: string, verdict: Result<bool, string>): St {
    var s1 := s.(stores := s.stores + [Store(keyType, label_, verdict)], values := s.values + [value]);
    if verdict == Ok(true) then
      Emit(s1.(captured := if keyType in s.captured then s.captured else s.captured + [keyType]),
           Captured(keyType, R.Fingerprint(value), true))
    else s1
  }

  function StoreCall(w: World, j: Job, s: St, tc: ToolCall, keyType: string, value: string): (St, CallEnd) {
    var verdict := w.sink(|s.stores|);
    var s' := Stored(s, keyType, tc.arguments.labelText, value, verdict);
    match verdict
    case Ok(valid) =>
      if valid then Reported(j, s', tc, Say(CapturedIt(keyType, |value|, R.Fingerprint(value), Missing(j.wanted, s'.captured))), false)
      else Reported(j, s', tc, Say(Rejected), true)
    case Err(e) => Reported(j, s', tc, Say(VaultRefused(e)), true)
  }

  function HasValue(o: ToolOutput): bool {
    o.secret.Some? && T.Trim(o.secret.value) != ""
  }

  /** What becomes of the browser's answer to a capture; a key that was not asked for is never taken to the browser. */
  function CaptureAnswered(w: World, j: Job, s: St, tc: ToolCall, out: Result<ToolOutput, ExecutorError>): (St, CallEnd) {
    match out
    case Ok(o) =>
      if HasValue(o) then StoreCall(w, j, s, tc, OrEmpty(tc.arguments.keyType), T.Trim(o.secret.value))
      else Reported(j, s, tc, if o.text == "" then Say(NoValue) else Clean(j, o.text), true)
    case Err(e) =>
      if e.AbortedByUser? then (s, Stopped(Aborted)) else Reported(j, s, tc, Say(CaptureFailed(e)), true)
  }

  function CaptureCall(w: World, j: Job, s: St, tc: ToolCall): (St, CallEnd) {
    var asked := OrEmpty(tc.arguments.keyType) in j.wanted;
    var out := if asked then w.executor(|s.calls|) else Ok(ToolOutput(Say(NotRequested), None, None, None, true));
    var s1 := if asked then Executed(s, tc.name, tc.arguments) else s;
    if w.aborted(s1.polls) then (Polled(s1), Stopped(Aborted)) else CaptureAnswered(w, j, Polled(s1), tc, out)
  }

  function BrowserCall(w: World, j: Job, s: St, tc: ToolCall): (St, CallEnd) {
    var s1 := Executed(s, tc.name, tc.arguments);
    match w.executor(|s.calls|)
    case Ok(o) =>
      var text := Clean(j, StateText(o));
      (Emit(s1, StepEvent(j, s1, tc, Truncated(text, 400), o.isError)), Answering(tc, text, o.isError))
    case Err(e) =>
      if e.AbortedByUser? then (s1, Stopped(Aborted))
      else
        var text := Clean(j, ShowExecutorError(e));
        (Emit(s1, StepEvent(j, s1, tc, Truncated(text, 400), true)), Answering(tc, text, true))
  }

  function Dispatched(w: World, j: Job, s: St, tc: ToolCall): (St, CallEnd) {
    match ToolNamed(tc.name)
    case DoneTool => (s, Stopped(DoneCall(j, s, tc)))
    case FailTool => (s, Stopped(PartialOutcome(j, s.captured, Clean(j, OrEmpty(tc.arguments.reason)))))
    case NeedUserTool => NeedUserCall(w, j, s, tc)
    case CaptureTool => CaptureCall(w, j, s, tc)
    case BrowserTool => BrowserCall(w, j, s, tc)
    case NoTool => (s, Answering(tc, Say(UnknownTool(tc.name)), true))
  }

  function Stepped(s: St): St {
    Polled(s.(step := s.step + 1))
  }

  function CallStep(w: World, j: Job, s: St, tc: ToolCall): (St, CallEnd) {
    if s.step >= j.maxSteps then (s, Stopped(PartialOutcome(j, s.captured, Say(Exhausted(j.maxSteps)))))
    else if w.aborted(s.polls) then (Stepped(s), Stopped(Aborted))
    else Dispatched(w, j, Stepped(s), tc)
  }

  // ------------------------------------------------------------------ the calls of one reply

  datatype CallsEnd = AllAnswered(results: seq<ToolResult>, failed: bool) | CallsStopped(outcome: Outcome)

  function Extended(results: seq<ToolResult>, failed: bool, r: (St, CallEnd)): (St, CallsEnd) {
    match r.1
    case Stopped(outcome) => (r.0, CallsStopped(outcome))
    case Answered(result, error) => (r.0, AllAnswered(results + [result], failed || error))
  }

  /** The calls of one reply, in order, until one ends the run. */
  function CallsFrom(w: World, j: Job, s: St, calls: seq<ToolCall>): (St, CallsEnd) {
    if calls == [] then (s, AllAnswered([], false))
    else
      var n := |calls| - 1;
      var (s1, before) := CallsFrom(w, j, s, calls[..n]);
      match before
      case CallsStopped(_) => (s1, before)
      case AllAnswered(results, failed) =>
        Extended(results, failed, CallStep(w, j, s1, calls[n]))
  }

  /** `t` is `s` after some tool calls: nothing else of the loop's state has moved. */
  ghost predicate OnlyCalled(s: St, t: St) {
    t.messages == s.messages && t.requests == s.requests && t.ladder == s.ladder && t.idle == s.idle
  }

  /** The call `tc`, made in state `s`, took one browser call at most and was answered with one text, marked if it failed. */
  ghost predicate CallWentWell(s: St, tc: ToolCall, r: (St, CallEnd)) {
    && OnlyCalled(s, r.0) && r.0.step == s.step && |s.calls| <= |r.0.calls| <= |s.calls| + 1
    && (r.1.Answered? ==>
          && r.1.result.callId == tc.id && r.1.result.name == tc.name
          && |r.1.result.content| == 1 && r.1.result.content[0].Text? && r.1.failed == r.1.result.isError)
  }

  lemma NeedUserWentWell(w: World, j: Job, s: St, tc: ToolCall)
    ensures CallWentWell(s, tc, NeedUserCall(w, j, s, tc))
  {
    hide Say, Clean, StepEvent, OrEmpty;
  }

  lemma ReportedWentWell(j: Job, s: St, tc: ToolCall, raw: string, isError: bool)
    ensures CallWentWell(s, tc, Reported(j, s, tc, raw, isError)) && Reported(j, s, tc, raw, isError).0.calls == s.calls
  {
    hide Clean, StepEvent;
  }

  lemma StoreWentWell(w: World, j: Job, s: St, tc: ToolCall, keyType: string, value: string)
    ensures CallWentWell(s, tc, StoreCall(w, j, s, tc, keyType, value)) && StoreCall(w, j, s, tc, keyType, value).0.calls == s.calls
  {
    hide Say, Reported, Missing, R.Fingerprint, CallWentWell;
    var s' := Stored(s, keyType, tc.arguments.labelText, value, w.sink(|s.stores|));
    assert OnlyCalled(s, s') && s'.step == s.step && s'.calls == s.calls;
    forall raw, isError ensures CallWentWell(s, tc, Reported(j, s', tc, raw, isError)) && Reported(j, s', tc, raw, isError).0.calls == s.calls {
      ReportedWentWell(j, s', tc, raw, isError);
      WentWellFrom(s, s', tc, Reported(j, s', tc, raw, isError));
    }
  }

  lemma WentWellFrom(s: St, s': St, tc: ToolCall, r: (St, CallEnd))
    requires OnlyCalled(s, s') && s'.step == s.step && |s.calls| <= |s'.calls| <= |s.calls| + 1 && r.0.calls == s'.calls
    requires CallWentWell(s', tc, r)
    ensures CallWentWell(s, tc, r)
  {
  }

  lemma CaptureAnsweredWentWell(w: World, j: Job, s: St, tc: ToolCall, out: Result<ToolOutput, ExecutorError>)
    ensures CallWentWell(s, tc, CaptureAnswered(w, j, s, tc, out)) && CaptureAnswered(w, j, s, tc, out).0.calls == s.calls
  {
    hide Say, Reported, StoreCall, HasValue, Clean, OrEmpty, T.Trim, CallWentWell;
    match out
    case Ok(o) =>
      if HasValue(o) {
        WithValue(o);
        StoreWentWell(w, j, s, tc, OrEmpty(tc.arguments.keyType), T.Trim(o.secret.value));
      } else {
        ReportedWentWell(j, s, tc, if o.text == "" then Say(NoValue) else Clean(j, o.text), true);
      }
    case Err(e) =>
      if e.AbortedByUser? {
        StoppedWentWell(s, s, tc, Aborted);
      } else {
        ReportedWentWell(j, s, tc, Say(CaptureFailed(e)), true);
      }
  }

  lemma WithValue(o: ToolOutput)
    requires HasValue(o)
    ensures o.secret.Some? && T.Trim(o.secret.value) != ""
  {
    hide T.Trim;
  }

  lemma CaptureWentWell(w: World, j: Job, s: St, tc: ToolCall)
    ensures CallWentWell(s, tc, CaptureCall(w, j, s, tc))
  {
    hide Say, CaptureAnswered, OrEmpty, CallWentWell;
    var asked := OrEmpty(tc.arguments.keyType) in j.wanted;
    var out := if asked then w.executor(|s.calls|) else Ok(ToolOutput(Say(NotRequested), None, None, None, true));
    var s2 := Polled(if asked then Executed(s, tc.name, tc.arguments) else s);
    assert OnlyCalled(s, s2) && s2.step == s.step && |s.calls| <= |s2.calls| <= |s.calls| + 1;
    StoppedWentWell(s, s2, tc, Aborted);
    CaptureAnsweredWentWell(w, j, s2, tc, out);
    WentWellFrom(s, s2, tc, CaptureAnswered(w, j, s2, tc, out));
  }

  lemma StoppedWentWell(s: St, s': St, tc: ToolCall, outcome: Outcome)
    requires OnlyCalled(s, s') && s'.step == s.step && |s.calls| <= |s'.calls| <= |s.calls| + 1
    ensures CallWentWell(s, tc, (s', Stopped(outcome)))
  {
  }

  lemma BrowserWentWell(w: World, j: Job, s: St, tc: ToolCall)
    ensures CallWentWell(s, tc, BrowserCall(w, j, s, tc))
  {
    hide Say, Clean, StepEvent, StateText, ShowExecutorError, Truncated;
  }

  lemma DispatchedWentWell(w: World, j: Job, s: St, tc: ToolCall)
    ensures CallWentWell(s, tc, Dispatched(w, j, s, tc))
  {
    hide Say, ToolNamed, Clean, OrEmpty, CallWentWell, NeedUserCall, CaptureCall, BrowserCall, PartialOutcome, DoneCall, Answering;
    match ToolNamed(tc.name)
    case NeedUserTool => NeedUserWentWell(w, j, s, tc);
    case CaptureTool => CaptureWentWell(w, j, s, tc);
    case BrowserTool => BrowserWentWell(w, j, s, tc);
    case DoneTool => StoppedWentWell(s, s, tc, DoneCall(j, s, tc));
    case FailTool => StoppedWentWell(s, s, tc, PartialOutcome(j, s.captured, Clean(j, OrEmpty(tc.arguments.reason))));
    case NoTool => AnsweringWentWell(s, tc, Say(UnknownTool(tc.name)), true);
  }

  lemma CallStepProgress(w: World, j: Job, s: St, tc: ToolCall)
    ensures s.step >= j.maxSteps ==> CallStep(w, j, s, tc).0 == s && CallStep(w, j, s, tc).1.Stopped?
    ensures s.step < j.maxSteps ==> CallWentWell(Stepped(s), tc, CallStep(w, j, s, tc))
  {
    hide Say, Dispatched, CallWentWell, PartialOutcome;
    StoppedWentWell(Stepped(s), Stepped(s), tc, Aborted);
    DispatchedWentWell(w, j, Stepped(s), tc);
  }

  lemma AnsweringWentWell(s: St, tc: ToolCall, text: string, isError: bool)
    ensures CallWentWell(s, tc, (s, Answering(tc, text, isError)))
  {
  }

  /** Each call was answered by one text, in order. */
  ghost predicate AnsweredInText(calls: seq<ToolCall>, results: seq<ToolResult>) {
    && Answers(calls, results)
    && forall i :: 0 <= i < |results| ==> |results[i].content| == 1 && results[i].content[0].Text?
  }

  ghost predicate CallsWentWell(j: Job, s: St, calls: seq<ToolCall>, r: (St, CallsEnd)) {
    && OnlyCalled(s, r.0) && s.step <= r.0.step <= j.maxSteps
    && 0 <= |r.0.calls| - |s.calls| <= r.0.step - s.step
    && (r.1.AllAnswered? ==> r.0.step == s.step + |calls| && AnsweredInText(calls, r.1.results))
  }

  lemma AnsweredOneMore(calls: seq<ToolCall>, results: seq<ToolResult>, tc: ToolCall, r: ToolResult)
    requires AnsweredInText(calls, results)
    requires r.callId == tc.id && r.name == tc.name && |r.content| == 1 && r.content[0].Text?
    ensures AnsweredInText(calls + [tc], results + [r])
  {
  }

  lemma OneMoreWentWell(j: Job, s: St, calls: seq<ToolCall>, s1: St, results: seq<ToolResult>, failed: bool, tc: ToolCall, r: (St, CallEnd))
    requires CallsWentWell(j, s, calls, (s1, AllAnswered(results, failed)))
    requires if s1.step < j.maxSteps then CallWentWell(Stepped(s1), tc, r) else r.0 == s1 && r.1.Stopped?
    ensures CallsWentWell(j, s, calls + [tc], Extended(results, failed, r))
  {
    hide AnsweredInText;
    if r.1.Answered? {
      AnsweredOneMore(calls, results, tc, r.1.result);
    }
  }

  lemma {:induction false} CallsProgress(w: World, j: Job, s: St, calls: seq<ToolCall>)
    requires s.step <= j.maxSteps
    ensures CallsWentWell(j, s, calls, CallsFrom(w, j, s, calls))
  {
    hide CallStep, AnsweredInText, CallWentWell, Stepped;
    if calls == [] {
      NothingToAnswer();
    } else {
      var n := |calls| - 1;
      CallsProgress(w, j, s, calls[..n]);
      var (s1, before) := CallsFrom(w, j, s, calls[..n]);
      assert calls == calls[..n] + [calls[n]];
      if before.AllAnswered? {
        CallStepProgress(w, j, s1, calls[n]);
        OneMoreWentWell(j, s, calls[..n], s1, before.results, before.failed, calls[n], CallStep(w, j, s1, calls[n]));
      }
    }
  }

  lemma NothingToAnswer()
    ensures AnsweredInText([], [])
  {
  }

  // ------------------------------------------------------------------ one round

  /** An `Escalated` event when the ladder moved. */
  function Climb(s: St, ladder: L.State): St
    requires s.ladder.Valid() && ladder.Valid()
  {
    if ladder.index == s.ladder.index then s.(ladder := ladder)
    else Emit(s.(ladder := ladder), Escalated(s.ladder.Current(), ladder.Current()))
  }

  function AfterAnswers(s: St, results: seq<ToolResult>, failed: bool): St
    requires s.ladder.Valid()
  {
    var s1 := if failed then Climb(s, L.AfterFailure(s.ladder)) else s.(ladder := L.AfterSuccess(s.ladder));
    s1.(messages := Pruned(if results == [] then s1.messages else s1.messages + [ToolResults(results)], 2))
  }

  function ProviderFailed(j: Job, s: St, e: ProviderError): (St, Option<Outcome>)
    requires s.ladder.Valid()
  {
    if !e.IsRetryable() then (s, Some(PartialOutcome(j, s.captured, Say(ModelError(e)))))
    else if s.ladder.IsTop() then (s.(step := s.step + 1), None)
    else (Climb(s, L.AfterProviderError(s.ladder)), None)
  }

  function IdleReply(j: Job, s: St, text: Option<string>): (St, Option<Outcome>) {
    var s1 := s.(idle := s.idle + 1, messages := s.messages + [AssistantTurn(text, [])]);
    if s1.idle >= 3 then (s1, Some(PartialOutcome(j, s1.captured, Say(StoppedCalling))))
    else (s1.(messages := s1.messages + [UserText(Say(GoOn))], step := s1.step + 1), None)
  }

  function CallsReply(w: World, j: Job, s: St, text: Option<string>, calls: seq<ToolCall>): (St, Option<Outcome>)
    requires s.ladder.Valid() && s.step <= j.maxSteps
  {
    var s1 := s.(idle := 0, messages := s.messages + [AssistantTurn(text, calls)]);
    CallsProgress(w, j, s1, calls);
    var (s2, end) := CallsFrom(w, j, s1, calls);
    match end
    case CallsStopped(outcome) => (s2, Some(outcome))
    case AllAnswered(results, failed) => (AfterAnswers(s2, results, failed), None)
  }

  function Asked(s: St): St
    requires s.ladder.Valid()
  {
    s.(requests := s.requests + [Request(s.ladder.Current(), s.messages, |s.calls|)])
  }

  function Thinking(j: Job, s: St, text: Option<string>): St {
    if text.Some? then Emit(s, Thought(Clean(j, text.value))) else s
  }

  function Replied(w: World, j: Job, s: St, answer: Answer): (St, Option<Outcome>)
    requires s.ladder.Valid() && s.step <= j.maxSteps
  {
    match answer
    case Cancelled => (s, Some(Aborted))
    case Failure(e) => ProviderFailed(j, s, e)
    case Reply(text, calls) =>
      if calls == [] then IdleReply(j, Thinking(j, s, text), text) else CallsReply(w, j, Thinking(j, s, text), text, calls)
  }

  /** One turn of the loop; an outcome if it ends the run. */
  function Round(w: World, j: Job, s: St): (St, Option<Outcome>)
    requires s.ladder.Valid() && s.step <= j.maxSteps
  {
    if w.aborted(s.polls) then (Polled(s), Some(Aborted))
    else if s.step >= j.maxSteps then (Polled(s), Some(PartialOutcome(j, s.captured, Say(Exhausted(j.maxSteps)))))
    else Replied(w, j, Asked(Polled(s)), w.provider(|s.requests|))
  }

  // ------------------------------------------------------------------ progress

  /** Steps and models left: every round that does not end the run uses up one or the other. */
  ghost predicate Uses(j: Job, s: St, t: St) {
    && t.ladder.Valid() && t.ladder.models == s.ladder.models && t.step <= j.maxSteps
    && (t.step > s.step || (t.step == s.step && t.ladder.index > s.ladder.index))
    && t.ladder.index >= s.ladder.index
  }

  lemma CallsReplyUses(w: World, j: Job, s: St, text: Option<string>, calls: seq<ToolCall>)
    requires s.ladder.Valid() && s.step <= j.maxSteps && calls != []
    ensures var (t, end) := CallsReply(w, j, s, text, calls);
            end.None? ==> Uses(j, s, t)
  {
    hide CallsFrom, AnsweredInText, Pruned;
    CallsProgress(w, j, s.(idle := 0, messages := s.messages + [AssistantTurn(text, calls)]), calls);
  }

  lemma ProviderFailedUses(j: Job, s: St, e: ProviderError)
    requires s.ladder.Valid() && s.step < j.maxSteps
    ensures var (t, end) := ProviderFailed(j, s, e);
            end.None? ==> Uses(j, s, t)
  {
    hide Say, PartialOutcome;
  }

  lemma IdleReplyUses(j: Job, s: St, text: Option<string>)
    requires s.ladder.Valid() && s.step < j.maxSteps
    ensures var (t, end) := IdleReply(j, s, text);
            end.None? ==> Uses(j, s, t)
  {
    hide Say, PartialOutcome, UserText, AssistantTurn;
  }

  lemma RoundUses(w: World, j: Job, s: St)
    requires s.ladder.Valid() && s.step <= j.maxSteps
    ensures var (t, end) := Round(w, j, s);
            end.None? ==> Uses(j, s, t)
  {
    hide CallsReply, ProviderFailed, IdleReply, Clean, Missing, Say, PartialOutcome;
    if s.step < j.maxSteps {
      var s1 := Asked(Polled(s));
      match w.provider(|s.requests|)
      case Failure(e) => ProviderFailedUses(j, s1, e);
      case Reply(text, calls) =>
        var s2 := Thinking(j, s1, text);
        assert s2.ladder == s.ladder && s2.step == s.step;
        if calls != [] {
          CallsReplyUses(w, j, s2, text, calls);
        } else {
          IdleReplyUses(j, s2, text);
        }
      case _ =>
    }
  }

  /** The loop, from the state at the top of a round to its outcome. */
  function RunFrom(w: World, j: Job, s: St): (St, Outcome)
    requires s.ladder.Valid() && s.step <= j.maxSteps
    decreases j.maxSteps - s.step, |s.ladder.models| - s.ladder.index
  {
    RoundUses(w, j, s);
    var (t, end) := Round(w, j, s);
    match end
    case Some(outcome) => (t, outcome)
    case None => RunFrom(w, j, t)
  }

  // ------------------------------------------------------------------ a whole run

  function Began(j: Job): St
    requires j.models != []
  {
    St(0, 0, [], [], L.Start(j.models), 0, [], [], [], [], [Started(j.service, j.models[0])])
  }

  function Opened(j: Job, tab: string): St
    requires j.models != []
  {
    Began(j).(messages := [UserText(Say(Opening(tab, j.startUrl)))])
  }

  function RunInner(w: World, j: Job): (St, Outcome)
    requires j.models != []
  {
    match w.begin
    case Ok(tab) => RunFrom(w, j, Opened(j, tab))
    case Err(e) => (Began(j), if e.AbortedByUser? then Aborted else Failed(Clean(j, Say(CannotOpen(e)))))
  }

  datatype Kind = Collect(job: Job) | Rotate(keyType: string)

  /** What a run sent out: its events, and the `keep_tabs` argument of each `session_end`. */
  datatype Trace = Trace(outcome: Outcome, events: seq<Event>, sessionEnds: seq<bool>)

  /** Tabs stay open when the user may have to go on by hand. */
  predicate KeepsTabs(o: Outcome) {
    o.Failed? || o.Partial?
  }

  function Run(w: World, kind: Kind): Trace
    requires kind.Collect? ==> kind.job.models != []
  {
    match kind
    case Rotate(_) =>
      var outcome := Failed(Say(NoRotation));
      Trace(outcome, [Finished(outcome)], [])
    case Collect(j) =>
      var (s, outcome) := RunInner(w, j);
      Trace(outcome, s.events + [Finished(outcome)], [KeepsTabs(outcome)])
  }
}
