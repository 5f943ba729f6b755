/** Exactly which requests of a run each API accepts, in terms of what the provider and the browser answered before. */
module AgentAcceptance {
  import opened Prelude
  import opened Conversation
  import opened AgentLoop
  import opened AgentTexts
  import opened AgentReplies
  import D = AgentDialogue
  import L = Ladder
  import Anthropic
  import OpenAi

  /** A reply without calls and without text, or with the empty text. */
  predicate SilentReply(a: Answer) {
    a.Reply? && a.calls == [] && (a.text == None || a.text == Some(""))
  }

  predicate BlankReply(a: Answer) {
    a.Reply? && a.text == Some("")
  }

  ghost predicate AnyReply(w: World, k: nat, p: Answer -> bool) {
    exists i: nat :: i < k && p(w.provider(i))
  }

  lemma {:induction false} InTurns(ms: seq<Message>, m: Message)
    ensures m in TurnsIn(ms) <==> m in ms && m.role.Assistant?
  {
    if ms != [] {
      var n := |ms| - 1;
      InTurns(ms[..n], m);
      assert ms == ms[..n] + [ms[n]];
    }
  }

  ghost predicate IsReply(w: World, i: nat, m: Message) {
    w.provider(i).Reply? && m == AssistantTurn(w.provider(i).text, w.provider(i).calls)
  }

  lemma {:induction false} InReplies(w: World, k: nat, m: Message)
    ensures m in RepliesTo(w, k) <==> exists i: nat :: i < k && IsReply(w, i, m)
  {
    if k > 0 {
      InReplies(w, k - 1, m);
      assert m in TurnFor(w.provider(k - 1)) <==> IsReply(w, k - 1, m);
    }
  }

  /** What holds of some assistant turn of a conversation holds of the turn of some reply it carries. */
  lemma TurnsAreReplies(w: World, ms: seq<Message>, k: nat, p: Message -> bool)
    requires TurnsIn(ms) == RepliesTo(w, k)
    ensures (exists i :: 0 <= i < |ms| && ms[i].role.Assistant? && p(ms[i]))
       <==> exists i: nat :: i < k && w.provider(i).Reply? && p(AssistantTurn(w.provider(i).text, w.provider(i).calls))
  {
    hide AssistantTurn, TurnsIn, RepliesTo;
    forall m ensures m in ms && m.role.Assistant? <==> exists i: nat :: i < k && IsReply(w, i, m) {
      InTurns(ms, m);
      InReplies(w, k, m);
    }
    if i :| 0 <= i < |ms| && ms[i].role.Assistant? && p(ms[i]) {
      assert ms[i] in ms;
      var n: nat :| n < k && IsReply(w, n, ms[i]);
    }
    if i: nat :| i < k && w.provider(i).Reply? && p(AssistantTurn(w.provider(i).text, w.provider(i).calls)) {
      var m := AssistantTurn(w.provider(i).text, w.provider(i).calls);
      assert IsReply(w, i, m);
      assert m in ms;
    }
  }

  // ------------------------------------------------------------------ Chat Completions

  lemma SilentTurnOf(text: Option<string>, calls: seq<ToolCall>)
    ensures OpenAi.Silent(AssistantTurn(text, calls)) <==> SilentReply(Reply(text, calls))
  {
    if text.Some? {
      assert [Text(text.value)][..0] == [];
      assert OpenAi.TextsOf([Text(text.value)]) == [text.value];
    }
  }

  lemma SilentCarried(w: World, ms: seq<Message>, k: nat)
    requires TurnsIn(ms) == RepliesTo(w, k)
    ensures OpenAi.AnySilent(ms) <==> AnyReply(w, k, SilentReply)
  {
    hide TurnsIn, RepliesTo, AssistantTurn;
    TurnsAreReplies(w, ms, k, OpenAi.Silent);
    forall text, calls ensures OpenAi.Silent(AssistantTurn(text, calls)) <==> SilentReply(Reply(text, calls)) {
      SilentTurnOf(text, calls);
    }
    OnlyTurnsAreSilent(ms);
  }

  lemma OnlyTurnsAreSilent(ms: seq<Message>)
    ensures OpenAi.AnySilent(ms) <==> exists i :: 0 <= i < |ms| && ms[i].role.Assistant? && OpenAi.Silent(ms[i])
  {
  }

  /** Request `k` is accepted in the Chat Completions format exactly if no reply to an earlier request was silent. */
  lemma OpenAiAccepts(w: World, j: Job, system: string, k: nat)
    requires j.models != [] && k < |RunInner(w, j).0.requests|
    ensures OpenAi.Acceptable(OpenAi.Converted(system, RunInner(w, j).0.requests[k].messages)) <==> !AnyReply(w, k, SilentReply)
  {
    hide RunInner, WellFormed, OpenAi.Acceptable, OpenAi.AnySilent, AnyReply, TurnsIn, RepliesTo, UsersSpeak;
    D.RequestsAreProper(w, j);
    RequestsCarryReplies(w, j);
    var s := RunInner(w, j).0;
    var ms := s.requests[k].messages;
    assert D.Proper(ms) && Carries(w, ms, k, s.calls, s.requests[k].made);
    OpenAi.AcceptableUnlessSilent(system, ms);
    SilentCarried(w, ms, k);
  }

  // ------------------------------------------------------------------ Messages

  lemma BlankTurnOf(text: Option<string>, calls: seq<ToolCall>)
    ensures Anthropic.HasBlank(AssistantTurn(text, calls).content) <==> BlankReply(Reply(text, calls))
  {
    if text.Some? {
      BlankText(text.value);
    }
  }

  ghost predicate BlankContent(m: Message) {
    Anthropic.HasBlank(m.content)
  }

  ghost predicate AnyHollow(ms: seq<Message>) {
    exists i :: 0 <= i < |ms| && Anthropic.Hollow(ms[i])
  }

  lemma HollowSplit(ms: seq<Message>)
    requires UsersSpeak(ms)
    ensures AnyHollow(ms)
       <==> AnyBlankAnswer(ms) || exists i :: 0 <= i < |ms| && ms[i].role.Assistant? && BlankContent(ms[i])
  {
    hide Anthropic.HasBlank;
    forall i | 0 <= i < |ms| ensures Anthropic.Hollow(ms[i]) <==> AnyBlankResult(ms[i].toolResults) || BlankContent(ms[i]) {
    }
  }

  lemma HollowCarried(w: World, ms: seq<Message>, k: nat)
    requires TurnsIn(ms) == RepliesTo(w, k) && UsersSpeak(ms)
    ensures AnyHollow(ms) <==> AnyBlankAnswer(ms) || AnyReply(w, k, BlankReply)
  {
    hide TurnsIn, RepliesTo, AssistantTurn, AnyHollow, AnyBlankAnswer, Anthropic.HasBlank, UsersSpeak;
    HollowSplit(ms);
    TurnsAreReplies(w, ms, k, BlankContent);
    forall text, calls ensures BlankContent(AssistantTurn(text, calls)) <==> BlankReply(Reply(text, calls)) {
      BlankTurnOf(text, calls);
    }
  }

  /**
   * Request `k` is accepted in the Messages format exactly if no reply to an earlier request had the empty text and
   * no browser call made before it came back blank.
   */
  lemma AnthropicAccepts(w: World, j: Job, k: nat)
    requires j.models != [] && k < |RunInner(w, j).0.requests|
    ensures var s := RunInner(w, j).0;
            (Anthropic.Acceptable(Anthropic.Converted(s.requests[k].messages))
             <==> !AnyReply(w, k, BlankReply) && !AnyBlankCall(w, s.calls, 0, s.requests[k].made))
  {
    hide RunInner, WellFormed, Anthropic.Acceptable, Anthropic.Hollow, AnyReply, TurnsIn, RepliesTo, UsersSpeak, AnyBlankAnswer, AnyBlankCall;
    D.RequestsAreProper(w, j);
    RequestsCarryReplies(w, j);
    var s := RunInner(w, j).0;
    var ms := s.requests[k].messages;
    assert D.Proper(ms) && Carries(w, ms, k, s.calls, s.requests[k].made);
    Anthropic.AcceptableUnlessHollow(ms);
    HollowCarried(w, ms, k);
  }

  // ------------------------------------------------------------------ runs whose requests are refused

  function Example(maxSteps: nat): Job {
    Job("service", [], maxSteps, "https://example.com", ["model"], _ => [])
  }

  /** Every reply is the same, the browser never has anything to say, and nobody aborts. */
  function Monotonous(text: Option<string>, calls: seq<ToolCall>): World {
    var blank: Result<ToolOutput, ExecutorError> := Ok(ToolOutput("", None, None, None, false));
    World(Ok("tab"), k => Reply(text, calls), k => blank, k => Ok(true), k => false)
  }

  /** What has been sent stays on record. */
  ghost predicate Grows(s: St, t: St) {
    s.requests <= t.requests && s.calls <= t.calls
  }

  lemma {:induction false} RunGrows(w: World, j: Job, s: St)
    requires s.ladder.Valid() && s.step <= j.maxSteps
    ensures Grows(s, RunFrom(w, j, s).0) && Grows(Round(w, j, s).0, RunFrom(w, j, s).0)
    decreases j.maxSteps - s.step, |s.ladder.models| - s.ladder.index
  {
    hide Round;
    RoundGrows(w, j, s);
    RoundUses(w, j, s);
    if Round(w, j, s).1.None? {
      RunGrows(w, j, Round(w, j, s).0);
    }
  }

  lemma RoundGrows(w: World, j: Job, s: St)
    requires s.ladder.Valid() && s.step <= j.maxSteps
    ensures var t := Round(w, j, s).0;
            && Grows(s, t)
            && (!w.aborted(s.polls) && s.step < j.maxSteps ==>
                  t.requests == s.requests + [Request(s.ladder.Current(), s.messages, |s.calls|)])
  {
    hide Replied, Say, PartialOutcome;
    if s.step < j.maxSteps {
      RepliedGrows(w, j, Asked(Polled(s)), w.provider(|s.requests|));
    }
  }

  lemma RepliedGrows(w: World, j: Job, s: St, answer: Answer)
    requires s.ladder.Valid() && s.step <= j.maxSteps
    ensures var t := Replied(w, j, s, answer).0;
            t.requests == s.requests && s.calls <= t.calls
  {
    hide CallsReply, Clean, Climb, PartialOutcome, Say, UserText, AssistantTurn;
    match answer
    case Cancelled =>
    case Failure(e) =>
      D.ClimbKeeps(s, if s.ladder.IsTop() then s.ladder else L.AfterProviderError(s.ladder));
      ClimbCalls(s, if s.ladder.IsTop() then s.ladder else L.AfterProviderError(s.ladder));
    case Reply(text, calls) =>
      if calls != [] {
        CallsReplyGrows(w, j, Thinking(j, s, text), text, calls);
      }
  }

  lemma CallsReplyGrows(w: World, j: Job, s: St, text: Option<string>, calls: seq<ToolCall>)
    requires s.ladder.Valid() && s.step <= j.maxSteps
    ensures var t := CallsReply(w, j, s, text, calls).0;
            t.requests == s.requests && s.calls <= t.calls
  {
    hide CallsFrom, AnsweredInText, Pruned, AssistantTurn, Climb, AnyBlankCall, AnyBlankResult;
    var s1 := s.(idle := 0, messages := s.messages + [AssistantTurn(text, calls)]);
    CallsProgress(w, j, s1, calls);
    CallsTrue(w, j, s1, calls);
    var s2 := CallsFrom(w, j, s1, calls).0;
    D.ClimbKeeps(s2, L.AfterFailure(s2.ladder));
    ClimbCalls(s2, L.AfterFailure(s2.ladder));
  }

  /** If the first round goes on, a second request is sent, after the browser calls of that round. */
  lemma SecondRequest(w: World, j: Job, tab: string)
    requires j.models != [] && w.begin == Ok(tab)
    requires var (t, end) := Round(w, j, Opened(j, tab)); end.None? && t.step < j.maxSteps && !w.aborted(t.polls)
    requires !w.aborted(0) && j.maxSteps > 0
    ensures var (s, t) := (RunInner(w, j).0, Round(w, j, Opened(j, tab)).0);
            |s.requests| >= 2 && s.requests[1].made == |t.calls| && t.calls <= s.calls
  {
    hide Round, Say, UserText;
    var s := Opened(j, tab);
    var t := Round(w, j, s).0;
    RoundUses(w, j, s);
    RoundGrows(w, j, s);
    RoundGrows(w, j, t);
    RunGrows(w, j, t);
    assert RunFrom(w, j, s) == RunFrom(w, j, t);
    assert Round(w, j, t).0.requests == t.requests + [Request(t.ladder.Current(), t.messages, |t.calls|)];
    assert Round(w, j, t).0.requests[1].made == |t.calls|;
  }

  lemma IdleGoesOn(text: Option<string>)
    ensures |RunInner(Monotonous(text, []), Example(2)).0.requests| >= 2
  {
    hide Say, UserText, Round, RunInner;
    var w, j := Monotonous(text, []), Example(2);
    IdleRound(w, j, Opened(j, "tab"), text);
    SecondRequest(w, j, "tab");
  }

  lemma IdleRound(w: World, j: Job, s: St, text: Option<string>)
    requires s.ladder.Valid() && s.step < j.maxSteps && s.idle == 0 && !w.aborted(s.polls)
    requires w.provider(|s.requests|) == Reply(text, [])
    ensures var (t, end) := Round(w, j, s);
            end.None? && t.step == s.step + 1
  {
    hide Say, Clean, UserText, AssistantTurn, CallsReply, ProviderFailed, PartialOutcome;
  }

  /** A reply that says and calls nothing makes the next Chat Completions request one that is refused. */
  lemma SilenceIsRefused(system: string)
    ensures var s := RunInner(Monotonous(None, []), Example(2)).0;
            |s.requests| >= 2 && !OpenAi.Acceptable(OpenAi.Converted(system, s.requests[1].messages))
  {
    hide RunInner, OpenAi.Acceptable;
    var w := Monotonous(None, []);
    IdleGoesOn(None);
    assert SilentReply(w.provider(0));
    OpenAiAccepts(w, Example(2), system, 1);
  }

  /** A reply with the empty text makes the next Messages request one that is refused. */
  lemma EmptyTextIsRefused()
    ensures var s := RunInner(Monotonous(Some(""), []), Example(2)).0;
            |s.requests| >= 2 && !Anthropic.Acceptable(Anthropic.Converted(s.requests[1].messages))
  {
    hide RunInner, Anthropic.Acceptable, AnyBlankCall;
    var w := Monotonous(Some(""), []);
    IdleGoesOn(Some(""));
    assert BlankReply(w.provider(0));
    AnthropicAccepts(w, Example(2), 1);
  }

  function ReadThePage(): ToolCall {
    ToolCall("call", "read_page", Arguments("{}", None, None, None, None, None))
  }

  lemma ReadThePageIsBrowserCall()
    ensures ToolNamed(ReadThePage().name).BrowserTool?
  {
    assert BROWSER_TOOLS[1] == ReadThePage().name;
  }

  lemma BlankCallStep(w: World, j: Job, s: St)
    requires s.step < j.maxSteps && !w.aborted(s.polls) && BlankOutput(w.executor(|s.calls|))
    ensures var (t, end) := CallStep(w, j, s, ReadThePage());
            end.Answered? && t.calls == s.calls + [(ReadThePage().name, ReadThePage().arguments)]
  {
    hide Say, Clean, ToolNamed, StepEvent, StateText, Truncated, ReadThePage, NeedUserCall, CaptureCall, DoneCall, PartialOutcome;
    ReadThePageIsBrowserCall();
  }

  lemma BlankCalls(w: World, j: Job, s: St)
    requires s.step < j.maxSteps && !w.aborted(s.polls) && BlankOutput(w.executor(|s.calls|))
    ensures var (t, end) := CallsFrom(w, j, s, [ReadThePage()]);
            end.AllAnswered? && t.calls == s.calls + [(ReadThePage().name, ReadThePage().arguments)]
  {
    hide CallStep, ReadThePage, BlankOutput;
    BlankCallStep(w, j, s);
    assert [ReadThePage()][..0] == [];
  }

  lemma BlankReplied(w: World, j: Job, s: St)
    requires s.ladder.Valid() && s.step < j.maxSteps && !w.aborted(s.polls) && BlankOutput(w.executor(|s.calls|))
    ensures var (t, end) := CallsReply(w, j, s, None, [ReadThePage()]);
            end.None? && t.step == s.step + 1 && t.calls == s.calls + [(ReadThePage().name, ReadThePage().arguments)]
  {
    hide CallsFrom, AnsweredInText, Pruned, AssistantTurn, ToolResults, Climb, ReadThePage, BlankOutput;
    var s1 := s.(idle := 0, messages := s.messages + [AssistantTurn(None, [ReadThePage()])]);
    BlankCalls(w, j, s1);
    CallsProgress(w, j, s1, [ReadThePage()]);
    var s2 := CallsFrom(w, j, s1, [ReadThePage()]).0;
    ClimbCalls(s2, L.AfterFailure(s2.ladder));
    ClimbSteps(s2, L.AfterFailure(s2.ladder));
  }

  lemma ClimbSteps(s: St, ladder: L.State)
    requires s.ladder.Valid() && ladder.Valid()
    ensures Climb(s, ladder).step == s.step
  {
  }

  lemma BlankRound(w: World, j: Job, s: St)
    requires s.ladder.Valid() && s.step < j.maxSteps && !w.aborted(s.polls) && !w.aborted(s.polls + 1)
    requires w.provider(|s.requests|) == Reply(None, [ReadThePage()]) && BlankOutput(w.executor(|s.calls|))
    ensures var (t, end) := Round(w, j, s);
            end.None? && t.step == s.step + 1 && t.calls == s.calls + [(ReadThePage().name, ReadThePage().arguments)]
  {
    hide Say, Clean, CallsReply, IdleReply, ProviderFailed, PartialOutcome, ReadThePage, BlankOutput;
    BlankReplied(w, j, Asked(Polled(s)));
  }

  /** A browser call that comes back blank makes the next Messages request one that is refused. */
  lemma BlankPageIsRefused()
    ensures var s := RunInner(Monotonous(None, [ReadThePage()]), Example(2)).0;
            |s.requests| >= 2 && !Anthropic.Acceptable(Anthropic.Converted(s.requests[1].messages))
  {
    hide RunInner, Round, Anthropic.Acceptable, Say, UserText, ReadThePage, ToolNamed;
    var w, j := Monotonous(None, [ReadThePage()]), Example(2);
    BlankRound(w, j, Opened(j, "tab"));
    SecondRequest(w, j, "tab");
    ReadThePageIsBrowserCall();
    assert BlankCall(w, RunInner(w, j).0.calls, 0);
    AnthropicAccepts(w, j, 1);
  }
}
