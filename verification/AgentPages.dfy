/** What the provider learns of the pages: each answer of a browser tool is what the browser said, masked. */
module AgentPages {
  import opened Prelude
  import opened Conversation
  import opened AgentLoop
  import opened AgentTexts
  import C = AgentReplies
  import D = AgentDialogue
  import L = Ladder
  import R = Redact

  /** The tools that act on the browser and answer with what they find; `capture_secret` is not among them. */
  predicate IsPageTool(name: string) {
    name in {"navigate", "read_page", "find", "get_page_text", "left_click", "double_click", "hover", "type", "key",
             "form_input", "scroll", "scroll_to", "wait", "list_tabs", "switch_tab"}
  }

  datatype PageAnswer = PageAnswer(tool: string, content: seq<ContentPart>, isError: bool)

  /** What the browser said: the text of the page, then its tab, title and address if it gave them; or its error. */
  function Spoken(out: Result<ToolOutput, ExecutorError>): string {
    match out
    case Ok(o) =>
      o.text + (match o.browserState
                case None => ""
                case Some(b) => "\n[tab " + b.tabId + " \U{b7} " + b.title + " \U{b7} " + b.url + "]")
    case Err(NotConnected) => "browser extension not connected"
    case Err(AbortedByUser) => "aborted by user"
    case Err(CallFailed(message)) => "browser call failed: " + message
  }

  function Failed(out: Result<ToolOutput, ExecutorError>): bool {
    out.Err? || out.value.isError
  }

  /** The answer owed for a page tool: one text, the redaction of what the browser said. */
  function Owed(tool: string, out: Result<ToolOutput, ExecutorError>, generic: R.Generic): PageAnswer {
    PageAnswer(tool, [Text(R.Redacted(Spoken(out), generic))], Failed(out))
  }

  /** The answers owed for the page tools among the browser calls from `from` to `n`, in order. */
  function AllOwed(w: World, generic: R.Generic, calls: seq<(string, Arguments)>, from: nat, n: nat): seq<PageAnswer>
    requires from <= n <= |calls|
  {
    if n == from then []
    else
      AllOwed(w, generic, calls, from, n - 1)
      + if IsPageTool(calls[n - 1].0) then [Owed(calls[n - 1].0, w.executor(n - 1), generic)] else []
  }

  /** The answers given to page tools, in order. */
  function Given(results: seq<ToolResult>): seq<PageAnswer> {
    if results == [] then []
    else
      var r := results[|results| - 1];
      Given(results[..|results| - 1]) + if IsPageTool(r.name) then [PageAnswer(r.name, r.content, r.isError)] else []
  }

  function AllGiven(ms: seq<Message>): seq<PageAnswer> {
    if ms == [] then [] else AllGiven(ms[..|ms| - 1]) + Given(ms[|ms| - 1].toolResults)
  }

  // ------------------------------------------------------------------ one call

  lemma PageToolsAre(name: string)
    ensures ToolNamed(name).BrowserTool? <==> IsPageTool(name)
    ensures ToolNamed(name).CaptureTool? <==> name == "capture_secret"
    ensures ToolNamed(name).DoneTool? <==> name == "done"
    ensures ToolNamed(name).FailTool? <==> name == "fail"
    ensures ToolNamed(name).NeedUserTool? <==> name == "need_user"
  {
  }

  ghost predicate CallsMade(s: St, tc: ToolCall, t: St) {
    t.calls == s.calls || t.calls == s.calls + [(tc.name, tc.arguments)]
  }

  /** If the call was answered, the answer is the one owed for the browser calls made for it. */
  ghost predicate Paid(w: World, generic: R.Generic, s: St, r: (St, CallEnd)) {
    && s.calls <= r.0.calls
    && (r.1.Answered? ==> Given([r.1.result]) == AllOwed(w, generic, r.0.calls, |s.calls|, |r.0.calls|))
  }

  lemma GivenOne(r: ToolResult)
    ensures Given([r]) == if IsPageTool(r.name) then [PageAnswer(r.name, r.content, r.isError)] else []
  {
    hide IsPageTool, Owed;
    assert [r][..0] == [];
  }

  lemma OwedOne(w: World, generic: R.Generic, calls: seq<(string, Arguments)>, call: (string, Arguments))
    ensures AllOwed(w, generic, calls + [call], |calls|, |calls| + 1)
            == if IsPageTool(call.0) then [Owed(call.0, w.executor(|calls|), generic)] else []
    ensures AllOwed(w, generic, calls, |calls|, |calls|) == []
  {
    hide IsPageTool, Owed;
  }

  lemma NoPage(w: World, j: Job, s: St, tc: ToolCall, r: (St, CallEnd))
    requires !IsPageTool(tc.name) && CallsMade(s, tc, r.0)
    requires r.1.Answered? ==> r.1.result.name == tc.name
    ensures Paid(w, j.generic, s, r)
  {
    hide IsPageTool, Owed, Given, AllOwed;
    if r.1.Answered? {
      GivenOne(r.1.result);
      OwedOne(w, j.generic, s.calls, (tc.name, tc.arguments));
    }
  }

  lemma CaptureCalls(w: World, j: Job, s: St, tc: ToolCall)
    ensures CallsMade(s, tc, CaptureCall(w, j, s, tc).0)
  {
    hide Say, CaptureAnswered, OrEmpty, CallWentWell;
    var asked := OrEmpty(tc.arguments.keyType) in j.wanted;
    var out := if asked then w.executor(|s.calls|) else Ok(ToolOutput(Say(NotRequested), None, None, None, true));
    CaptureAnsweredWentWell(w, j, Polled(if asked then Executed(s, tc.name, tc.arguments) else s), tc, out);
  }

  lemma NeedUserCalls(w: World, j: Job, s: St, tc: ToolCall)
    ensures NeedUserCall(w, j, s, tc).0.calls == s.calls
  {
    hide Say, Clean, StepEvent, OrEmpty;
  }

  lemma StateIsSpoken(o: ToolOutput)
    ensures StateText(o) == Spoken(Ok(o))
  {
    if o.browserState.Some? {
      var b := o.browserState.value;
      TailIs(o.text, b.tabId, b.title, b.url);
    } else {
      assert o.text + "" == o.text;
    }
  }

  lemma TailIs(text: string, tab: string, title: string, url: string)
    ensures text + "\n[tab " + tab + " \U{b7} " + title + " \U{b7} " + url + "]"
            == text + ("\n[tab " + tab + " \U{b7} " + title + " \U{b7} " + url + "]")
  {
  }

  lemma ErrorIsSpoken(e: ExecutorError)
    ensures ShowExecutorError(e) == Spoken(Err(e))
  {
  }

  lemma BrowserPaid(w: World, j: Job, s: St, tc: ToolCall)
    requires IsPageTool(tc.name)
    ensures Paid(w, j.generic, s, BrowserCall(w, j, s, tc))
  {
    hide IsPageTool, R.Redacted, StepEvent, Truncated, Given, AllOwed, StateText, ShowExecutorError, Spoken;
    var r := BrowserCall(w, j, s, tc);
    OwedOne(w, j.generic, s.calls, (tc.name, tc.arguments));
    match w.executor(|s.calls|)
    case Ok(o) =>
      StateIsSpoken(o);
      GivenOne(r.1.result);
    case Err(e) =>
      ErrorIsSpoken(e);
      if r.1.Answered? {
        GivenOne(r.1.result);
      }
  }

  /** The first `n` characters of a text, and a mark if there were more. */
  predicate IsCut(text: string, n: nat, cut: string) {
    if |text| <= n then cut == text else |cut| == n + 1 && cut[..n] == text[..n] && cut[n] == '\U{2026}'
  }

  lemma TruncatedIsCut(text: string, n: nat)
    ensures IsCut(text, n, Truncated(text, n))
  {
  }

  /** Each page tool is reported once, under its step and name, by what its answer and its arguments start with, masked. */
  lemma PageStepIsReported(w: World, j: Job, s: St, tc: ToolCall)
    requires w.executor(|s.calls|) != Err(AbortedByUser)
    ensures var t, out := BrowserCall(w, j, s, tc).0, w.executor(|s.calls|);
            && |t.events| == |s.events| + 1 && t.events[..|s.events|] == s.events
            && var e := t.events[|s.events|];
            && e.Step? && e.step == s.step && e.tool == tc.name && e.isError == Failed(out)
            && IsCut(R.Redacted(tc.arguments.printed, j.generic), 200, e.args)
            && IsCut(R.Redacted(Spoken(out), j.generic), 400, e.result)
  {
    hide R.Redacted, StateText, ShowExecutorError, Spoken, Truncated, IsCut;
    var out := w.executor(|s.calls|);
    TruncatedIsCut(R.Redacted(tc.arguments.printed, j.generic), 200);
    TruncatedIsCut(R.Redacted(Spoken(out), j.generic), 400);
    match out
    case Ok(o) => StateIsSpoken(o);
    case Err(e) => ErrorIsSpoken(e);
  }

  lemma DispatchedPaid(w: World, j: Job, s: St, tc: ToolCall)
    ensures Paid(w, j.generic, s, Dispatched(w, j, s, tc))
  {
    hide Say, ToolNamed, Clean, OrEmpty, NeedUserCall, CaptureCall, BrowserCall, PartialOutcome, DoneCall, Paid;
    PageToolsAre(tc.name);
    DispatchedWentWell(w, j, s, tc);
    match ToolNamed(tc.name)
    case BrowserTool => BrowserPaid(w, j, s, tc);
    case CaptureTool =>
      CaptureCalls(w, j, s, tc);
      NoPage(w, j, s, tc, Dispatched(w, j, s, tc));
    case NeedUserTool =>
      NeedUserCalls(w, j, s, tc);
      NoPage(w, j, s, tc, Dispatched(w, j, s, tc));
    case _ => NoPage(w, j, s, tc, Dispatched(w, j, s, tc));
  }

  lemma CallStepPaid(w: World, j: Job, s: St, tc: ToolCall)
    ensures Paid(w, j.generic, s, CallStep(w, j, s, tc))
  {
    hide IsPageTool, Owed, Say, Dispatched, PartialOutcome, Given, AllOwed;
    if s.step < j.maxSteps && !w.aborted(s.polls) {
      DispatchedPaid(w, j, Stepped(s), tc);
    }
  }

  // ------------------------------------------------------------------ the calls of one reply

  lemma {:induction false} OwedSplit(w: World, generic: R.Generic, calls: seq<(string, Arguments)>, calls': seq<(string, Arguments)>,
      from: nat, n: nat)
    requires calls <= calls' && from <= |calls| <= n <= |calls'|
    ensures AllOwed(w, generic, calls', from, n) == AllOwed(w, generic, calls, from, |calls|) + AllOwed(w, generic, calls', |calls|, n)
    decreases n
  {
    hide IsPageTool, Owed;
    if n > |calls| {
      OwedSplit(w, generic, calls, calls', from, n - 1);
    } else {
      OwedSame(w, generic, calls, calls', from, n);
    }
  }

  lemma {:induction false} OwedSame(w: World, generic: R.Generic, calls: seq<(string, Arguments)>, calls': seq<(string, Arguments)>,
      from: nat, n: nat)
    requires calls <= calls' && from <= n <= |calls|
    ensures AllOwed(w, generic, calls', from, n) == AllOwed(w, generic, calls, from, n)
  {
    hide IsPageTool, Owed;
    if n > from {
      OwedSame(w, generic, calls, calls', from, n - 1);
    }
  }

  lemma GivenMore(results: seq<ToolResult>, r: ToolResult)
    ensures Given(results + [r]) == Given(results) + Given([r])
  {
    hide IsPageTool, Owed;
    GivenOne(r);
    assert (results + [r])[..|results|] == results;
  }

  lemma {:induction false} CallsPaid(w: World, j: Job, s: St, calls: seq<ToolCall>)
    ensures var (t, end) := CallsFrom(w, j, s, calls);
            && s.calls <= t.calls
            && (end.AllAnswered? ==> Given(end.results) == AllOwed(w, j.generic, t.calls, |s.calls|, |t.calls|))
  {
    hide IsPageTool, Owed, CallStep, Given, AllOwed;
    if calls == [] {
      NothingOwed(w, j.generic, s.calls);
    } else {
      var n := |calls| - 1;
      CallsPaid(w, j, s, calls[..n]);
      var (s1, before) := CallsFrom(w, j, s, calls[..n]);
      if before.AllAnswered? {
        var (t, last) := CallStep(w, j, s1, calls[n]);
        CallStepPaid(w, j, s1, calls[n]);
        if last.Answered? {
          GivenMore(before.results, last.result);
          OwedSplit(w, j.generic, s1.calls, t.calls, |s.calls|, |t.calls|);
        }
      }
    }
  }

  lemma NothingOwed(w: World, generic: R.Generic, calls: seq<(string, Arguments)>)
    ensures Given([]) == [] && AllOwed(w, generic, calls, |calls|, |calls|) == []
  {
    hide IsPageTool, Owed;
  }

  // ------------------------------------------------------------------ whole runs

  /** The conversation's page answers are those owed for the browser calls made before it. */
  ghost predicate Tells(w: World, j: Job, ms: seq<Message>, calls: seq<(string, Arguments)>, made: nat) {
    made <= |calls| && AllGiven(ms) == AllOwed(w, j.generic, calls, 0, made)
  }

  ghost predicate AllTell(w: World, j: Job, requests: seq<Request>, calls: seq<(string, Arguments)>) {
    forall k :: 0 <= k < |requests| ==> Tells(w, j, requests[k].messages, calls, requests[k].made)
  }

  ghost predicate Telling(w: World, j: Job, s: St) {
    AllTell(w, j, s.requests, s.calls) && Tells(w, j, s.messages, s.calls, |s.calls|)
  }

  lemma StillTell(w: World, j: Job, requests: seq<Request>, calls: seq<(string, Arguments)>, calls': seq<(string, Arguments)>)
    requires AllTell(w, j, requests, calls) && calls <= calls'
    ensures AllTell(w, j, requests, calls')
  {
    hide IsPageTool, Owed, AllGiven, AllOwed;
    forall k | 0 <= k < |requests| ensures Tells(w, j, requests[k].messages, calls', requests[k].made) {
      OwedSame(w, j.generic, calls, calls', 0, requests[k].made);
    }
  }

  lemma {:induction false} GivenExchange(ms: seq<Message>, a: Message, u: Message)
    requires a.toolResults == []
    ensures AllGiven(ms + [a, u]) == AllGiven(ms) + Given(u.toolResults)
  {
    hide IsPageTool, Owed;
    var all, n := ms + [a, u], |ms|;
    assert all[..n + 1] == ms + [a] && (ms + [a])[..n] == ms;
    assert all[n] == a && all[n + 1] == u;
  }

  ghost predicate RoundTells(w: World, j: Job, r: (St, Option<Outcome>)) {
    AllTell(w, j, r.0.requests, r.0.calls) && (r.1.None? ==> Telling(w, j, r.0))
  }

  lemma CallsReplyTells(w: World, j: Job, s: St, text: Option<string>, calls: seq<ToolCall>)
    requires Telling(w, j, s) && D.Proper(s.messages) && s.ladder.Valid() && s.step <= j.maxSteps && calls != []
    ensures RoundTells(w, j, CallsReply(w, j, s, text, calls))
  {
    hide IsPageTool, Owed, CallsReply, CallsFrom, D.Proper, AllTell, AllGiven, Given, AllOwed;
    var s1 := s.(idle := 0, messages := s.messages + [AssistantTurn(text, calls)]);
    var (t, end) := CallsReply(w, j, s, text, calls);
    C.CallsReplyAppends(w, j, s, text, calls);
    CallsPaid(w, j, s1, calls);
    StillTell(w, j, s.requests, s.calls, t.calls);
    if end.None? {
      var results := CallsFrom(w, j, s1, calls).1.results;
      GivenExchange(s.messages, AssistantTurn(text, calls), ToolResults(results));
      OwedSplit(w, j.generic, s.calls, t.calls, 0, |t.calls|);
    }
  }

  lemma IdleReplyTells(w: World, j: Job, s: St, text: Option<string>)
    requires Telling(w, j, s)
    ensures RoundTells(w, j, IdleReply(j, s, text))
  {
    hide IsPageTool, Owed, Say, PartialOutcome, AllTell, AllGiven, AllOwed;
    var a, u := AssistantTurn(text, []), UserText(Say(GoOn));
    GivenExchange(s.messages, a, u);
    assert s.messages + [a] + [u] == s.messages + [a, u];
    NothingOwed(w, j.generic, s.calls);
  }

  lemma ProviderFailedTells(w: World, j: Job, s: St, e: ProviderError)
    requires Telling(w, j, s) && s.ladder.Valid()
    ensures RoundTells(w, j, ProviderFailed(j, s, e))
  {
    hide IsPageTool, Owed, Say, PartialOutcome, AllTell, AllGiven, AllOwed, Climb;
    if !s.ladder.IsTop() {
      D.ClimbKeeps(s, L.AfterProviderError(s.ladder));
      C.ClimbCalls(s, L.AfterProviderError(s.ladder));
    }
  }

  lemma RepliedTells(w: World, j: Job, s: St, answer: Answer)
    requires Telling(w, j, s) && D.Proper(s.messages) && s.ladder.Valid() && s.step <= j.maxSteps
    ensures RoundTells(w, j, Replied(w, j, s, answer))
  {
    hide IsPageTool, Owed, CallsReply, IdleReply, ProviderFailed, Clean, D.Proper, AllTell, AllGiven, AllOwed;
    match answer
    case Cancelled =>
    case Failure(e) => ProviderFailedTells(w, j, s, e);
    case Reply(text, calls) =>
      var s2 := Thinking(j, s, text);
      assert Telling(w, j, s2);
      if calls == [] {
        IdleReplyTells(w, j, s2, text);
      } else {
        CallsReplyTells(w, j, s2, text, calls);
      }
  }

  lemma AskedTells(w: World, j: Job, s: St)
    requires Telling(w, j, s) && s.ladder.Valid()
    ensures Telling(w, j, Asked(Polled(s)))
  {
    hide IsPageTool, Owed, AllGiven, AllOwed;
  }

  lemma RoundIsTold(w: World, j: Job, s: St)
    requires Telling(w, j, s) && D.Proper(s.messages) && s.ladder.Valid() && s.step <= j.maxSteps
    ensures RoundTells(w, j, Round(w, j, s))
  {
    hide Replied, Say, PartialOutcome, D.Proper, AllTell, Tells;
    if s.step < j.maxSteps {
      AskedTells(w, j, s);
      RepliedTells(w, j, Asked(Polled(s)), w.provider(|s.requests|));
    }
  }

  lemma {:induction false} RunFromTells(w: World, j: Job, s: St)
    requires Telling(w, j, s) && D.Proper(s.messages) && D.AllProper(j, s.requests)
    requires s.ladder.Valid() && s.ladder.models == j.models && s.step <= j.maxSteps
    ensures var t := RunFrom(w, j, s).0;
            AllTell(w, j, t.requests, t.calls)
    decreases j.maxSteps - s.step, |s.ladder.models| - s.ladder.index
  {
    hide Round, D.Proper, D.AllProper, AllTell, Tells;
    RoundIsTold(w, j, s);
    D.RoundIsProper(w, j, s);
    RoundUses(w, j, s);
    if Round(w, j, s).1.None? {
      RunFromTells(w, j, Round(w, j, s).0);
    }
  }

  /**
   * The page answers that a request carries are, in order, exactly those owed for the browser calls made before it: for
   * each, one text, the redaction of what the browser said, with the page's text first and then its tab, title and
   * address; or the redaction of its error.
   */
  lemma RequestsTellPages(w: World, j: Job)
    requires j.models != []
    ensures var s := RunInner(w, j).0;
            AllTell(w, j, s.requests, s.calls)
  {
    hide RunFrom, D.Proper, D.AllProper, UserText, Say, Clean, AllTell, Tells;
    D.NoRequestYet(j);
    NothingTold(w, j);
    if w.begin.Ok? {
      var t := Say(Opening(w.begin.value, j.startUrl));
      D.StartIsProper(t);
      StartTells(w, j, t);
      RunFromTells(w, j, Opened(j, w.begin.value));
    }
  }

  lemma NothingTold(w: World, j: Job)
    ensures AllTell(w, j, [], [])
  {
  }

  lemma StartTells(w: World, j: Job, t: string)
    ensures Tells(w, j, [UserText(t)], [], 0)
  {
    hide IsPageTool, Owed;
    assert [UserText(t)][..0] == [];
    NothingOwed(w, j.generic, []);
    assert AllGiven([UserText(t)]) == AllGiven([]) + Given([]);
  }
}
