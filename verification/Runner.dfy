/** The collection agent's loop as the program runs it, with its variables, queues and counters. */
module Runner {
  import opened Prelude
  import opened Conversation
  import opened AgentLoop
  import opened AgentTexts
  import L = Ladder
  import R = Redact
  import T = Text

  class Runner {
    const world: World
    const job: Job
    const ladder: L.ModelLadder

    // What has gone out: reads of the abort flag, requests, browser calls, stores and events.
    var polls: nat
    var requests: seq<Request>
    var calls: seq<(string, Arguments)>
    var stores: seq<Store>
    var values: seq<string>
    var events: seq<Event>

    constructor (world: World, job: Job)
      requires job.models != []
      ensures this.world == world && this.job == job && fresh(ladder) && ladder.Valid() && ladder.View() == L.Start(job.models)
      ensures polls == 0 && requests == [] && calls == [] && stores == [] && values == [] && events == []
    {
      this.world, this.job := world, job;
      ladder := new L.ModelLadder(job.models);
      polls, requests, calls, stores, values, events := 0, [], [], [], [], [];
    }

    /** The state of the loop, given its local variables. */
    ghost function View(step: nat, idle: nat, captured: seq<string>, messages: seq<Message>): St
      reads this, ladder
    {
      St(step, idle, captured, messages, ladder.View(), polls, requests, calls, stores, values, events)
    }

    method Publish(e: Event)
      modifies this`events
      ensures events == old(events) + [e]
    {
      events := events + [e];
    }

    method IsAborted() returns (aborted: bool)
      modifies this`polls
      ensures polls == old(polls) + 1 && aborted == world.aborted(old(polls))
    {
      aborted := world.aborted(polls);
      polls := polls + 1;
    }

    method Complete(messages: seq<Message>) returns (answer: Answer)
      requires ladder.Valid()
      modifies this`requests
      ensures requests == old(requests) + [Request(ladder.View().Current(), messages, |calls|)]
      ensures answer == world.provider(|old(requests)|)
    {
      answer := world.provider(|requests|);
      requests := requests + [Request(ladder.Current(), messages, |calls|)];
    }

    method Execute(name: string, args: Arguments) returns (out: Result<ToolOutput, ExecutorError>)
      modifies this`calls
      ensures calls == old(calls) + [(name, args)] && out == world.executor(|old(calls)|)
    {
      out := world.executor(|calls|);
      calls := calls + [(name, args)];
    }

    method StoreValue(keyType: string, label_: Option<string>, value: string) returns (verdict: Result<bool, string>)
      modifies this`stores, this`values
      ensures verdict == world.sink(|old(stores)|)
      ensures stores == old(stores) + [Store(keyType, label_, verdict)] && values == old(values) + [value]
    {
      verdict := world.sink(|stores|);
      stores, values := stores + [Store(keyType, label_, verdict)], values + [value];
    }

    // ---------------------------------------------------------------- one tool call

    method Pause(step: nat, ghost idle: nat, ghost captured: seq<string>, ghost messages: seq<Message>, tc: ToolCall) returns (end: CallEnd)
      modifies this
      ensures (View(step, idle, captured, messages), end) == NeedUserCall(world, job, old(View(step, idle, captured, messages)), tc)
    {
      hide Say, Clean, ArgsSummary, OrEmpty;
      Publish(NeedUser(Clean(job, OrEmpty(tc.arguments.message))));
      Publish(Step(step, tc.name, ArgsSummary(job, tc.arguments), Say(WaitingForUser), false));
      var aborted := IsAborted();
      if aborted {
        return Stopped(Aborted);
      }
      aborted := IsAborted();
      if aborted {
        return Stopped(Aborted);
      }
      end := Answering(tc, Say(UserIsBack), false);
    }

    /** `filter`: the wanted keys that are not captured. */
    method StillMissing(captured: seq<string>) returns (missing: seq<string>)
      ensures missing == Missing(job.wanted, captured)
    {
      hide Missing;
      missing := [];
      var wanted := job.wanted;
      NoneMissingYet(wanted, captured);
      for i := 0 to |wanted|
        invariant Missing(wanted, captured) == missing + Missing(wanted[i..], captured)
      {
        MissingStep(wanted, captured, i, missing);
        if wanted[i] !in captured {
          missing := missing + [wanted[i]];
        }
      }
      MissingEnd(wanted, captured, missing);
    }

    /** `partial`: what a run that gives up has to show for itself. */
    method GiveUp(captured: seq<string>, reason: string) returns (outcome: Outcome)
      ensures outcome == PartialOutcome(job, captured, reason)
    {
      var missing := StillMissing(captured);
      if captured == [] {
        outcome := Failed(reason);
      } else {
        outcome := Partial(captured, missing, reason);
      }
    }

    method Report(step: nat, ghost idle: nat, ghost captured: seq<string>, ghost messages: seq<Message>,
                  tc: ToolCall, raw: string, isError: bool) returns (end: CallEnd)
      modifies this
      ensures (View(step, idle, captured, messages), end) == Reported(job, old(View(step, idle, captured, messages)), tc, raw, isError)
    {
      hide Clean, ArgsSummary;
      var text := Clean(job, raw);
      Publish(Step(step, tc.name, ArgsSummary(job, tc.arguments), text, isError));
      end := Answering(tc, text, isError);
    }

    method Keep(step: nat, ghost idle: nat, captured: seq<string>, ghost messages: seq<Message>, tc: ToolCall,
                keyType: string, value: string) returns (captured': seq<string>, end: CallEnd)
      modifies this
      ensures (View(step, idle, captured', messages), end)
           == StoreCall(world, job, old(View(step, idle, captured, messages)), tc, keyType, value)
    {
      hide Say, Missing, R.Fingerprint, Reported;
      ghost var was := View(step, idle, captured, messages);
      captured' := captured;
      var verdict := StoreValue(keyType, tc.arguments.labelText, value);
      if verdict == Ok(true) {
        if keyType !in captured {
          captured' := captured' + [keyType];
        }
        Publish(Captured(keyType, R.Fingerprint(value), true));
      }
      assert View(step, idle, captured', messages) == Stored(was, keyType, tc.arguments.labelText, value, verdict);
      var raw;
      match verdict {
        case Ok(valid) =>
          raw := if valid then Say(CapturedIt(keyType, |value|, R.Fingerprint(value), Missing(job.wanted, captured')))
                 else Say(Rejected);
        case Err(e) =>
          raw := Say(VaultRefused(e));
      }
      end := Report(step, idle, captured', messages, tc, raw, verdict != Ok(true));
    }

    method TakeCapture(step: nat, ghost idle: nat, captured: seq<string>, ghost messages: seq<Message>, tc: ToolCall,
                       out: Result<ToolOutput, ExecutorError>) returns (captured': seq<string>, end: CallEnd)
      modifies this
      ensures (View(step, idle, captured', messages), end)
           == CaptureAnswered(world, job, old(View(step, idle, captured, messages)), tc, out)
    {
      hide Say, Clean, OrEmpty, T.Trim, Reported, StoreCall;
      captured' := captured;
      match out {
        case Ok(o) =>
          if o.secret.Some? && T.Trim(o.secret.value) != "" {
            captured', end := Keep(step, idle, captured, messages, tc, OrEmpty(tc.arguments.keyType), T.Trim(o.secret.value));
          } else {
            end := Report(step, idle, captured, messages, tc, if o.text == "" then Say(NoValue) else Clean(job, o.text), true);
          }
        case Err(e) =>
          if e.AbortedByUser? {
            end := Stopped(Aborted);
          } else {
            end := Report(step, idle, captured, messages, tc, Say(CaptureFailed(e)), true);
          }
      }
    }

    /** Only a key that was asked for is taken to the browser. */
    method AskBrowser(tc: ToolCall) returns (out: Result<ToolOutput, ExecutorError>)
      modifies this`calls
      ensures if OrEmpty(tc.arguments.keyType) in job.wanted
              then calls == old(calls) + [(tc.name, tc.arguments)] && out == world.executor(|old(calls)|)
              else calls == old(calls) && out == Ok(ToolOutput(Say(NotRequested), None, None, None, true))
    {
      hide Say, OrEmpty;
      if OrEmpty(tc.arguments.keyType) in job.wanted {
        out := Execute(tc.name, tc.arguments);
      } else {
        out := Ok(ToolOutput(Say(NotRequested), None, None, None, true));
      }
    }

    method CaptureSecret(step: nat, ghost idle: nat, captured: seq<string>, ghost messages: seq<Message>, tc: ToolCall)
      returns (captured': seq<string>, end: CallEnd)
      modifies this
      ensures (View(step, idle, captured', messages), end)
           == CaptureCall(world, job, old(View(step, idle, captured, messages)), tc)
    {
      hide Say, OrEmpty, CaptureAnswered;
      captured' := captured;
      ghost var was := View(step, idle, captured, messages);
      var out := AskBrowser(tc);
      ghost var asked := View(step, idle, captured, messages);
      assert asked == if OrEmpty(tc.arguments.keyType) in job.wanted then Executed(was, tc.name, tc.arguments) else was;
      var aborted := IsAborted();
      assert View(step, idle, captured, messages) == Polled(asked);
      if aborted {
        return captured', Stopped(Aborted);
      }
      hide Executed, Polled, View;
      captured', end := TakeCapture(step, idle, captured, messages, tc, out);
    }

    method UseBrowser(step: nat, ghost idle: nat, ghost captured: seq<string>, ghost messages: seq<Message>, tc: ToolCall)
      returns (end: CallEnd)
      modifies this
      ensures (View(step, idle, captured, messages), end) == BrowserCall(world, job, old(View(step, idle, captured, messages)), tc)
    {
      hide Say, Clean, ArgsSummary, ShowExecutorError, StateText, Truncated;
      var out := Execute(tc.name, tc.arguments);
      match out {
        case Ok(o) =>
          var text := Clean(job, StateText(o));
          Publish(Step(step, tc.name, ArgsSummary(job, tc.arguments), Truncated(text, 400), o.isError));
          end := Answering(tc, text, o.isError);
        case Err(e) =>
          if e.AbortedByUser? {
            return Stopped(Aborted);
          }
          var text := Clean(job, ShowExecutorError(e));
          Publish(Step(step, tc.name, ArgsSummary(job, tc.arguments), Truncated(text, 400), true));
          end := Answering(tc, text, true);
      }
    }

    method Dispatch(step: nat, ghost idle: nat, captured: seq<string>, ghost messages: seq<Message>, tc: ToolCall)
      returns (captured': seq<string>, end: CallEnd)
      modifies this
      ensures (View(step, idle, captured', messages), end)
           == Dispatched(world, job, old(View(step, idle, captured, messages)), tc)
    {
      hide Say, Clean, OrEmpty, ToolNamed, NeedUserCall, CaptureCall, BrowserCall, PartialOutcome, Missing;
      captured' := captured;
      match ToolNamed(tc.name) {
        case DoneTool =>
          var summary := Clean(job, OrEmpty(tc.arguments.summary));
          var missing := StillMissing(captured);
          end := Stopped(if missing == [] then Success(captured, summary) else Partial(captured, missing, summary));
        case FailTool =>
          var outcome := GiveUp(captured, Clean(job, OrEmpty(tc.arguments.reason)));
          end := Stopped(outcome);
        case NeedUserTool =>
          end := Pause(step, idle, captured, messages, tc);
        case CaptureTool =>
          captured', end := CaptureSecret(step, idle, captured, messages, tc);
        case BrowserTool =>
          end := UseBrowser(step, idle, captured, messages, tc);
        case NoTool =>
          end := Answering(tc, Say(UnknownTool(tc.name)), true);
      }
    }

    method MakeCall(step: nat, ghost idle: nat, captured: seq<string>, ghost messages: seq<Message>, tc: ToolCall)
      returns (step': nat, captured': seq<string>, end: CallEnd)
      modifies this
      ensures (View(step', idle, captured', messages), end)
           == CallStep(world, job, old(View(step, idle, captured, messages)), tc)
    {
      hide Say, Dispatched, PartialOutcome, Missing;
      step', captured' := step, captured;
      ghost var was := View(step, idle, captured, messages);
      if step >= job.maxSteps {
        var outcome := GiveUp(captured, Say(Exhausted(job.maxSteps)));
        assert View(step', idle, captured', messages) == was;
        return step', captured', Stopped(outcome);
      }
      step' := step' + 1;
      var aborted := IsAborted();
      if aborted {
        return step', captured', Stopped(Aborted);
      }
      captured', end := Dispatch(step', idle, captured', messages, tc);
    }

    // ---------------------------------------------------------------- the calls of one reply

    method MakeCalls(step: nat, ghost idle: nat, captured: seq<string>, ghost messages: seq<Message>, toolCalls: seq<ToolCall>)
      returns (step': nat, captured': seq<string>, end: CallsEnd)
      modifies this
      ensures (View(step', idle, captured', messages), end)
           == CallsFrom(world, job, old(View(step, idle, captured, messages)), toolCalls)
    {
      hide CallStep;
      ghost var was := View(step, idle, captured, messages);
      step', captured' := step, captured;
      var results: seq<ToolResult> := [];
      var hadError := false;
      for i := 0 to |toolCalls|
        invariant (View(step', idle, captured', messages), AllAnswered(results, hadError))
               == CallsFrom(world, job, was, toolCalls[..i])
      {
        hide View;
        assert toolCalls[..i + 1][..i] == toolCalls[..i];
        var last;
        step', captured', last := MakeCall(step', idle, captured', messages, toolCalls[i]);
        match last {
          case Stopped(outcome) =>
            StopsTheRest(world, job, was, toolCalls, i + 1);
            return step', captured', CallsStopped(outcome);
          case Answered(result, error) =>
            results, hadError := results + [result], hadError || error;
        }
      }
      assert toolCalls[..|toolCalls|] == toolCalls;
      end := AllAnswered(results, hadError);
    }

    // ---------------------------------------------------------------- one turn of the loop

    method Announce(from: string, next: Option<string>)
      modifies this`events
      ensures events == old(events) + (if next.Some? then [Escalated(from, next.value)] else [])
    {
      if next.Some? {
        Publish(Escalated(from, next.value));
      }
    }

    method ClimbAfterFailure(ghost step: nat, ghost idle: nat, ghost captured: seq<string>, ghost messages: seq<Message>)
      requires ladder.Valid()
      modifies this`events, ladder
      ensures ladder.Valid()
      ensures View(step, idle, captured, messages)
           == Climb(old(View(step, idle, captured, messages)), L.AfterFailure(old(ladder.View())))
    {
      var from := ladder.Current();
      var next := ladder.NoteFailure();
      hide L.AfterFailure;
      Announce(from, next);
    }

    method ClimbAfterProviderError(ghost step: nat, ghost idle: nat, ghost captured: seq<string>, ghost messages: seq<Message>)
      requires ladder.Valid()
      modifies this`events, ladder
      ensures ladder.Valid()
      ensures View(step, idle, captured, messages)
           == Climb(old(View(step, idle, captured, messages)), L.AfterProviderError(old(ladder.View())))
    {
      var from := ladder.Current();
      var next := ladder.ForceEscalate();
      hide L.AfterProviderError;
      Announce(from, next);
    }

    method ProviderError(step: nat, ghost idle: nat, captured: seq<string>, ghost messages: seq<Message>, e: ProviderError)
      returns (step': nat, end: Option<Outcome>)
      requires ladder.Valid()
      modifies this, ladder
      ensures ladder.Valid()
      ensures (View(step', idle, captured, messages), end) == ProviderFailed(job, old(View(step, idle, captured, messages)), e)
    {
      hide Say, PartialOutcome, Climb;
      step' := step;
      if !e.IsRetryable() {
        var outcome := GiveUp(captured, Say(ModelError(e)));
        return step', Some(outcome);
      }
      if ladder.IsTop() {
        return step + 1, None;
      }
      ClimbAfterProviderError(step, idle, captured, messages);
      end := None;
    }

    method Idle(step: nat, idle: nat, captured: seq<string>, messages: seq<Message>, text: Option<string>)
      returns (step': nat, idle': nat, messages': seq<Message>, end: Option<Outcome>)
      ensures (View(step', idle', captured, messages'), end) == IdleReply(job, View(step, idle, captured, messages), text)
    {
      hide Say, PartialOutcome;
      idle' := idle + 1;
      messages' := messages + [AssistantTurn(text, [])];
      if idle' >= 3 {
        var outcome := GiveUp(captured, Say(StoppedCalling));
        return step, idle', messages', Some(outcome);
      }
      messages' := messages' + [UserText(Say(GoOn))];
      step', end := step + 1, None;
    }

    /** After the calls of a reply: tell the ladder, then append the answers and drop old screenshots. */
    method Settle(ghost step: nat, ghost idle: nat, ghost captured: seq<string>, messages: seq<Message>,
                  results: seq<ToolResult>, hadError: bool) returns (messages': seq<Message>)
      requires ladder.Valid()
      modifies this, ladder
      ensures ladder.Valid()
      ensures View(step, idle, captured, messages') == AfterAnswers(old(View(step, idle, captured, messages)), results, hadError)
    {
      hide Pruned, ToolResults, Climb;
      ClimbKeepsMessages(View(step, idle, captured, messages), L.AfterFailure(ladder.View()));
      if hadError {
        ClimbAfterFailure(step, idle, captured, messages);
      } else {
        ladder.NoteSuccess();
      }
      messages' := if results == [] then messages else messages + [ToolResults(results)];
      messages' := PruneImages(messages', 2);
    }

    method Act(step: nat, idle: nat, captured: seq<string>, messages: seq<Message>, text: Option<string>, toolCalls: seq<ToolCall>)
      returns (step': nat, idle': nat, captured': seq<string>, messages': seq<Message>, end: Option<Outcome>)
      requires ladder.Valid() && step <= job.maxSteps
      modifies this, ladder
      ensures ladder.Valid()
      ensures (View(step', idle', captured', messages'), end)
           == CallsReply(world, job, old(View(step, idle, captured, messages)), text, toolCalls)
    {
      hide CallsFrom, Pruned, AssistantTurn, ToolResults, Climb, CallsWentWell;
      idle' := 0;
      messages' := messages + [AssistantTurn(text, toolCalls)];
      ghost var was := View(step, idle', captured, messages');
      CallsProgress(world, job, was, toolCalls);
      var made;
      step', captured', made := MakeCalls(step, idle', captured, messages', toolCalls);
      match made {
        case CallsStopped(outcome) =>
          end := Some(outcome);
        case AllAnswered(results, hadError) =>
          messages' := Settle(step', idle', captured', messages', results, hadError);
          end := None;
      }
    }

    method Turn(step: nat, idle: nat, captured: seq<string>, messages: seq<Message>)
      returns (step': nat, idle': nat, captured': seq<string>, messages': seq<Message>, end: Option<Outcome>)
      requires ladder.Valid() && step <= job.maxSteps
      modifies this, ladder
      ensures ladder.Valid()
      ensures (View(step', idle', captured', messages'), end) == Round(world, job, old(View(step, idle, captured, messages)))
    {
      hide Say, PartialOutcome, Replied, Clean, Missing;
      step', idle', captured', messages', end := step, idle, captured, messages, None;
      ghost var was := View(step, idle, captured, messages);
      var aborted := IsAborted();
      assert View(step, idle, captured, messages) == Polled(was);
      if aborted {
        end := Some(Aborted);
        return;
      }
      if step >= job.maxSteps {
        var outcome := GiveUp(captured, Say(Exhausted(job.maxSteps)));
        assert View(step, idle, captured, messages) == Polled(was);
        end := Some(outcome);
        return;
      }
      var answer := Complete(messages);
      step', idle', captured', messages', end := React(step, idle, captured, messages, answer);
    }

    method React(step: nat, idle: nat, captured: seq<string>, messages: seq<Message>, answer: Answer)
      returns (step': nat, idle': nat, captured': seq<string>, messages': seq<Message>, end: Option<Outcome>)
      requires ladder.Valid() && step <= job.maxSteps
      modifies this, ladder
      ensures ladder.Valid()
      ensures (View(step', idle', captured', messages'), end) == Replied(world, job, old(View(step, idle, captured, messages)), answer)
    {
      hide CallsReply, ProviderFailed, IdleReply, Clean;
      step', idle', captured', messages', end := step, idle, captured, messages, None;
      match answer {
        case Cancelled =>
          end := Some(Aborted);
        case Failure(e) =>
          step', end := ProviderError(step, idle, captured, messages, e);
        case Reply(text, toolCalls) =>
          if text.Some? {
            Publish(Thought(Clean(job, text.value)));
          }
          if toolCalls == [] {
            step', idle', messages', end := Idle(step, idle, captured, messages, text);
          } else {
            step', idle', captured', messages', end := Act(step, idle, captured, messages, text, toolCalls);
          }
      }
    }

    // ---------------------------------------------------------------- the run

    ghost predicate Untouched()
      reads this, ladder
    {
      && ladder.Valid() && ladder.View() == L.Start(job.models)
      && polls == 0 && requests == [] && calls == [] && stores == [] && values == [] && events == []
    }

    method RunInner() returns (outcome: Outcome, ghost last: St)
      requires job.models != [] && Untouched()
      modifies this, ladder
      ensures (last, outcome) == AgentLoop.RunInner(world, job)
      ensures events == last.events && requests == last.requests && calls == last.calls
      ensures stores == last.stores && values == last.values
    {
      hide Say, Clean, Round, UserText, RunFrom;
      Publish(Started(job.service, ladder.Current()));
      assert View(0, 0, [], []) == Began(job);
      var messages: seq<Message> := [];
      match world.begin {
        case Ok(tab) =>
          messages := [UserText(Say(Opening(tab, job.startUrl)))];
        case Err(e) =>
          last := View(0, 0, [], []);
          outcome := if e.AbortedByUser? then Aborted else Failed(Clean(job, Say(CannotOpen(e))));
          return;
      }
      var step, idle, captured := 0, 0, [];
      ghost var was := View(step, idle, captured, messages);
      assert was == Opened(job, world.begin.value);
      outcome, last := Loop(messages);
    }

    method Loop(messages0: seq<Message>) returns (outcome: Outcome, ghost last: St)
      requires ladder.Valid() && ladder.models == job.models
      modifies this, ladder
      ensures (last, outcome) == RunFrom(world, job, old(View(0, 0, [], messages0)))
      ensures events == last.events && requests == last.requests && calls == last.calls
      ensures stores == last.stores && values == last.values
    {
      hide Round;
      var step, idle, captured, messages := 0, 0, [], messages0;
      ghost var was := View(step, idle, captured, messages);
      while true
        invariant ladder.Valid() && ladder.models == job.models && step <= job.maxSteps
        invariant RunFrom(world, job, View(step, idle, captured, messages)) == RunFrom(world, job, was)
        decreases job.maxSteps - step, |ladder.models| - ladder.index
      {
        ghost var s := View(step, idle, captured, messages);
        RoundUses(world, job, s);
        var end;
        step, idle, captured, messages, end := Turn(step, idle, captured, messages);
        if end.Some? {
          last := View(step, idle, captured, messages);
          return end.value, last;
        }
      }
    }
  }

  lemma NoneMissingYet(wanted: seq<string>, captured: seq<string>)
    ensures [] + Missing(wanted[0..], captured) == Missing(wanted, captured)
  {
    assert wanted[0..] == wanted;
  }

  lemma MissingStep(wanted: seq<string>, captured: seq<string>, i: nat, missing: seq<string>)
    requires i < |wanted|
    ensures missing + Missing(wanted[i..], captured)
            == (if wanted[i] in captured then missing else missing + [wanted[i]]) + Missing(wanted[i + 1..], captured)
  {
    var rest := Missing(wanted[i + 1..], captured);
    assert wanted[i..][1..] == wanted[i + 1..];
    Regroup(missing, [wanted[i]], rest);
    Regroup(missing, [], rest);
  }

  lemma MissingEnd(wanted: seq<string>, captured: seq<string>, missing: seq<string>)
    ensures missing + Missing(wanted[|wanted|..], captured) == missing
  {
  }

  lemma ClimbKeepsMessages(s: St, ladder: L.State)
    requires s.ladder.Valid() && ladder.Valid()
    ensures Climb(s, ladder).messages == s.messages
  {
  }

  class Session {
    var events: seq<Event>
    var sessionEnds: seq<bool>

    constructor ()
      ensures events == [] && sessionEnds == []
    {
      events, sessionEnds := [], [];
    }

    /** A rotation is refused before the browser is touched; a collection always ends its browser session. */
    method Run(world: World, kind: Kind) returns (outcome: Outcome)
      requires events == [] && sessionEnds == []
      requires kind.Collect? ==> kind.job.models != []
      modifies this
      ensures Trace(outcome, events, sessionEnds) == AgentLoop.Run(world, kind)
    {
      hide Say, AgentLoop.RunInner;
      match kind {
        case Rotate(_) =>
          outcome := Failed(Say(NoRotation));
          events := [Finished(outcome)];
        case Collect(job) =>
          var runner := new Runner(world, job);
          ghost var last;
          outcome, last := runner.RunInner();
          sessionEnds := [outcome.Failed? || outcome.Partial?];
          events := runner.events + [Finished(outcome)];
      }
    }
  }

  /** Once a call has ended the run, the calls after it change nothing. */
  lemma {:induction false} StopsTheRest(w: World, j: Job, s: St, calls: seq<ToolCall>, n: nat)
    requires n <= |calls| && CallsFrom(w, j, s, calls[..n]).1.CallsStopped?
    ensures CallsFrom(w, j, s, calls) == CallsFrom(w, j, s, calls[..n])
    decreases |calls|
  {
    hide CallStep;
    if n < |calls| {
      var m := |calls| - 1;
      assert calls[..m][..n] == calls[..n];
      StopsTheRest(w, j, s, calls[..m], n);
    } else {
      assert calls[..n] == calls;
    }
  }
}
