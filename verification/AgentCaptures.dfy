/** What a run reports is what the vault took. */
module AgentCaptures {
  import opened Prelude
  import opened Conversation
  import opened AgentLoop
  import opened AgentTexts
  import L = Ladder
  import R = Redact
  import T = Text

  /** The key types of the stores that the vault accepted, in order. */
  function Accepted(stores: seq<Store>): seq<string> {
    if stores == [] then []
    else
      var last := stores[|stores| - 1];
      Accepted(stores[..|stores| - 1]) + (if last.verdict == Ok(true) then [last.keyType] else [])
  }

  /** One announcement per accepted store: its key type and the preview of its value. */
  function Announcements(stores: seq<Store>, values: seq<string>): seq<Event>
    requires |values| == |stores|
  {
    if stores == [] then []
    else
      var n := |stores| - 1;
      Announcements(stores[..n], values[..n])
      + (if stores[n].verdict == Ok(true) then [Captured(stores[n].keyType, R.Fingerprint(values[n]), true)] else [])
  }

  function CapturedEvents(events: seq<Event>): seq<Event> {
    if events == [] then []
    else
      var last := events[|events| - 1];
      CapturedEvents(events[..|events| - 1]) + (if last.Captured? then [last] else [])
  }

  predicate NoDuplicates(keys: seq<string>) {
    forall i, k :: 0 <= i < k < |keys| ==> keys[i] != keys[k]
  }

  ghost predicate Balanced(wanted: seq<string>, captured: seq<string>, stores: seq<Store>, values: seq<string>, events: seq<Event>) {
    && |values| == |stores|
    && (forall i :: 0 <= i < |stores| ==> stores[i].keyType in wanted && values[i] != "")
    && NoDuplicates(captured)
    && (forall k :: k in captured <==> k in Accepted(stores))
    && CapturedEvents(events) == Announcements(stores, values)
    && (forall i :: 0 <= i < |events| ==> !events[i].Finished?)
  }

  ghost predicate Accounted(j: Job, s: St) {
    Balanced(j.wanted, s.captured, s.stores, s.values, s.events)
  }

  lemma EmitAccounted(j: Job, s: St, e: Event)
    requires Accounted(j, s) && !e.Captured? && !e.Finished?
    ensures Accounted(j, Emit(s, e))
  {
    hide Announcements, Accepted, NoDuplicates;
    assert (s.events + [e])[..|s.events|] == s.events;
  }

  lemma BalancedStore(wanted: seq<string>, captured: seq<string>, stores: seq<Store>, values: seq<string>, events: seq<Event>,
                      st: Store, value: string)
    requires Balanced(wanted, captured, stores, values, events) && st.keyType in wanted && value != ""
    ensures st.verdict != Ok(true) ==> Balanced(wanted, captured, stores + [st], values + [value], events)
    ensures st.verdict == Ok(true) ==>
              Balanced(wanted, if st.keyType in captured then captured else captured + [st.keyType], stores + [st], values + [value],
                       events + [Captured(st.keyType, R.Fingerprint(value), true)])
  {
  }

  lemma StoredAccounted(j: Job, s: St, keyType: string, label_: Option<string>, value: string, verdict: Result<bool, string>)
    requires Accounted(j, s) && keyType in j.wanted && value != ""
    ensures Accounted(j, Stored(s, keyType, label_, value, verdict))
  {
    hide R.Fingerprint, Balanced;
    BalancedStore(j.wanted, s.captured, s.stores, s.values, s.events, Store(keyType, label_, verdict), value);
  }

  /** What each outcome says about the vault. */
  ghost predicate Truthful(j: Job, s: St, o: Outcome) {
    match o
    case Success(captured, _) => captured == s.captured && forall k :: k in j.wanted ==> k in Accepted(s.stores)
    case Partial(captured, missing, _) =>
      captured == s.captured && forall k :: k in j.wanted ==> (k in missing <==> k !in Accepted(s.stores))
    case Failed(_) => Accepted(s.stores) == []
    case Aborted => true
  }

  lemma {:induction false} MissingAre(wanted: seq<string>, captured: seq<string>, k: string)
    ensures k in Missing(wanted, captured) <==> k in wanted && k !in captured
  {
    if wanted != [] {
      MissingAre(wanted[1..], captured, k);
      assert wanted == [wanted[0]] + wanted[1..];
    }
  }

  /** The books say the same of a key as the captured list does. */
  lemma Books(j: Job, s: St)
    requires Accounted(j, s)
    ensures forall k :: k in s.captured <==> k in Accepted(s.stores)
    ensures forall k :: k in Missing(j.wanted, s.captured) <==> k in j.wanted && k !in s.captured
    ensures s.captured == [] ==> Accepted(s.stores) == []
  {
    hide CapturedEvents, Announcements, Accepted, NoDuplicates, Missing;
    forall k ensures k in Missing(j.wanted, s.captured) <==> k in j.wanted && k !in s.captured {
      MissingAre(j.wanted, s.captured, k);
    }
    assert Accepted(s.stores) != [] ==> Accepted(s.stores)[0] in s.captured;
  }

  lemma PartialIsTruthful(j: Job, s: St, reason: string)
    requires Accounted(j, s)
    ensures Truthful(j, s, PartialOutcome(j, s.captured, reason))
  {
    hide Accounted, Accepted, Missing;
    Books(j, s);
  }

  lemma DoneIsTruthful(j: Job, s: St, tc: ToolCall)
    requires Accounted(j, s)
    ensures Truthful(j, s, DoneCall(j, s, tc))
  {
    hide Accounted, Accepted, Missing, Clean, OrEmpty;
    Books(j, s);
    var missing := Missing(j.wanted, s.captured);
    assert missing == [] ==> forall k :: k !in missing;
  }

  // ------------------------------------------------------------------ every tool keeps the books

  ghost predicate CallAccounted(j: Job, r: (St, CallEnd)) {
    Accounted(j, r.0) && (r.1.Stopped? ==> Truthful(j, r.0, r.1.outcome))
  }

  lemma NeedUserAccounted(w: World, j: Job, s: St, tc: ToolCall)
    requires Accounted(j, s)
    ensures CallAccounted(j, NeedUserCall(w, j, s, tc))
  {
    hide Say, Clean, ArgsSummary, OrEmpty, Balanced;
    var s1 := Emit(s, NeedUser(Clean(j, OrEmpty(tc.arguments.message))));
    EmitAccounted(j, s, NeedUser(Clean(j, OrEmpty(tc.arguments.message))));
    EmitAccounted(j, s1, StepEvent(j, s, tc, Say(WaitingForUser), false));
  }

  lemma ReportedAccounted(j: Job, s: St, tc: ToolCall, raw: string, isError: bool)
    requires Accounted(j, s)
    ensures CallAccounted(j, Reported(j, s, tc, raw, isError))
  {
    hide Clean, ArgsSummary, Balanced, Truthful;
    EmitAccounted(j, s, StepEvent(j, s, tc, Clean(j, raw), isError));
  }

  lemma StoreAccounted(w: World, j: Job, s: St, tc: ToolCall, keyType: string, value: string)
    requires Accounted(j, s) && keyType in j.wanted && value != ""
    ensures CallAccounted(j, StoreCall(w, j, s, tc, keyType, value))
  {
    hide Say, Reported, Missing, R.Fingerprint, Stored, Balanced;
    var verdict := w.sink(|s.stores|);
    var s' := Stored(s, keyType, tc.arguments.labelText, value, verdict);
    StoredAccounted(j, s, keyType, tc.arguments.labelText, value, verdict);
    forall raw, isError ensures CallAccounted(j, Reported(j, s', tc, raw, isError)) {
      ReportedAccounted(j, s', tc, raw, isError);
    }
  }

  lemma CaptureAnsweredAccounted(w: World, j: Job, s: St, tc: ToolCall, out: Result<ToolOutput, ExecutorError>)
    requires Accounted(j, s) && (out.Ok? && HasValue(out.value) ==> OrEmpty(tc.arguments.keyType) in j.wanted)
    ensures CallAccounted(j, CaptureAnswered(w, j, s, tc, out))
  {
    hide Say, Reported, StoreCall, HasValue, Clean, OrEmpty, T.Trim, CallAccounted, Accounted;
    match out
    case Ok(o) =>
      if HasValue(o) {
        WithValue(o);
        StoreAccounted(w, j, s, tc, OrEmpty(tc.arguments.keyType), T.Trim(o.secret.value));
      } else {
        ReportedAccounted(j, s, tc, if o.text == "" then Say(NoValue) else Clean(j, o.text), true);
      }
    case Err(e) =>
      if e.AbortedByUser? {
        AbortIsAccounted(j, s);
      } else {
        ReportedAccounted(j, s, tc, Say(CaptureFailed(e)), true);
      }
  }

  lemma CaptureAccounted(w: World, j: Job, s: St, tc: ToolCall)
    requires Accounted(j, s)
    ensures CallAccounted(j, CaptureCall(w, j, s, tc))
  {
    hide Say, CaptureAnswered, OrEmpty, Balanced, CallAccounted;
    var asked := OrEmpty(tc.arguments.keyType) in j.wanted;
    var out := if asked then w.executor(|s.calls|) else Ok(ToolOutput(Say(NotRequested), None, None, None, true));
    var s2 := Polled(if asked then Executed(s, tc.name, tc.arguments) else s);
    AbortIsAccounted(j, s2);
    CaptureAnsweredAccounted(w, j, s2, tc, out);
  }

  lemma AbortIsAccounted(j: Job, s: St)
    requires Accounted(j, s)
    ensures CallAccounted(j, (s, Stopped(Aborted)))
  {
    hide Balanced;
  }

  lemma BrowserAccounted(w: World, j: Job, s: St, tc: ToolCall)
    requires Accounted(j, s)
    ensures CallAccounted(j, BrowserCall(w, j, s, tc))
  {
    hide Say, Clean, ArgsSummary, StateText, ShowExecutorError, Truncated, Balanced;
    var s1 := Executed(s, tc.name, tc.arguments);
    forall text, isError ensures Accounted(j, Emit(s1, StepEvent(j, s1, tc, text, isError))) {
      EmitAccounted(j, s1, StepEvent(j, s1, tc, text, isError));
    }
  }

  lemma DispatchedAccounted(w: World, j: Job, s: St, tc: ToolCall)
    requires Accounted(j, s)
    ensures CallAccounted(j, Dispatched(w, j, s, tc))
  {
    hide Say, ToolNamed, Clean, OrEmpty, NeedUserCall, CaptureCall, BrowserCall, PartialOutcome, DoneCall, Accounted, Truthful;
    match ToolNamed(tc.name)
    case NeedUserTool => NeedUserAccounted(w, j, s, tc);
    case CaptureTool => CaptureAccounted(w, j, s, tc);
    case BrowserTool => BrowserAccounted(w, j, s, tc);
    case DoneTool => DoneIsTruthful(j, s, tc);
    case FailTool => PartialIsTruthful(j, s, Clean(j, OrEmpty(tc.arguments.reason)));
    case NoTool =>
  }

  lemma CallStepAccounted(w: World, j: Job, s: St, tc: ToolCall)
    requires Accounted(j, s)
    ensures CallAccounted(j, CallStep(w, j, s, tc))
  {
    hide Say, Dispatched, PartialOutcome, Balanced, Truthful;
    PartialIsTruthful(j, s, Say(Exhausted(j.maxSteps)));
    AbortIsTruthful(j, Stepped(s));
    DispatchedAccounted(w, j, Stepped(s), tc);
  }

  lemma {:induction false} CallsAccounted(w: World, j: Job, s: St, calls: seq<ToolCall>)
    requires Accounted(j, s)
    ensures var (t, end) := CallsFrom(w, j, s, calls);
            Accounted(j, t) && (end.CallsStopped? ==> Truthful(j, t, end.outcome))
  {
    hide CallStep, Balanced, Truthful;
    if calls != [] {
      var n := |calls| - 1;
      CallsAccounted(w, j, s, calls[..n]);
      CallStepAccounted(w, j, CallsFrom(w, j, s, calls[..n]).0, calls[n]);
    }
  }

  // ------------------------------------------------------------------ every round keeps the books

  ghost predicate RoundAccounted(j: Job, r: (St, Option<Outcome>)) {
    Accounted(j, r.0) && (r.1.Some? ==> Truthful(j, r.0, r.1.value))
  }

  lemma ClimbAccounted(j: Job, s: St, ladder: L.State)
    requires Accounted(j, s) && s.ladder.Valid() && ladder.Valid()
    ensures Accounted(j, Climb(s, ladder))
  {
    hide Balanced;
    EmitAccounted(j, s.(ladder := ladder), Escalated(s.ladder.Current(), ladder.Current()));
  }

  lemma ProviderFailedAccounted(j: Job, s: St, e: ProviderError)
    requires Accounted(j, s) && s.ladder.Valid()
    ensures RoundAccounted(j, ProviderFailed(j, s, e))
  {
    hide Say, PartialOutcome, Climb, Balanced, Truthful;
    PartialIsTruthful(j, s, Say(ModelError(e)));
    if !s.ladder.IsTop() {
      ClimbAccounted(j, s, L.AfterProviderError(s.ladder));
    }
  }

  lemma IdleReplyAccounted(j: Job, s: St, text: Option<string>)
    requires Accounted(j, s)
    ensures RoundAccounted(j, IdleReply(j, s, text))
  {
    hide Say, PartialOutcome, Balanced, Truthful, UserText, AssistantTurn;
    var s1 := s.(idle := s.idle + 1, messages := s.messages + [AssistantTurn(text, [])]);
    PartialIsTruthful(j, s1, Say(StoppedCalling));
  }

  lemma CallsReplyAccounted(w: World, j: Job, s: St, text: Option<string>, calls: seq<ToolCall>)
    requires Accounted(j, s) && s.ladder.Valid() && s.step <= j.maxSteps
    ensures RoundAccounted(j, CallsReply(w, j, s, text, calls))
  {
    hide CallsFrom, AnsweredInText, Pruned, AssistantTurn, Balanced, Truthful, Climb;
    var s1 := s.(idle := 0, messages := s.messages + [AssistantTurn(text, calls)]);
    CallsProgress(w, j, s1, calls);
    CallsAccounted(w, j, s1, calls);
    var s2 := CallsFrom(w, j, s1, calls).0;
    ClimbAccounted(j, s2, L.AfterFailure(s2.ladder));
  }

  lemma RepliedAccounted(w: World, j: Job, s: St, answer: Answer)
    requires Accounted(j, s) && s.ladder.Valid() && s.step <= j.maxSteps
    ensures RoundAccounted(j, Replied(w, j, s, answer))
  {
    hide CallsReply, ProviderFailed, IdleReply, Clean, Balanced, Truthful;
    match answer
    case Cancelled => AbortIsTruthful(j, s);
    case Failure(e) => ProviderFailedAccounted(j, s, e);
    case Reply(text, calls) =>
      if text.Some? {
        EmitAccounted(j, s, Thought(Clean(j, text.value)));
      }
      var s2 := Thinking(j, s, text);
      if calls == [] {
        IdleReplyAccounted(j, s2, text);
      } else {
        CallsReplyAccounted(w, j, s2, text, calls);
      }
  }

  lemma RoundKeepsBooks(w: World, j: Job, s: St)
    requires Accounted(j, s) && s.ladder.Valid() && s.step <= j.maxSteps
    ensures RoundAccounted(j, Round(w, j, s))
  {
    hide Replied, Say, PartialOutcome, Balanced, Truthful;
    AbortIsTruthful(j, Polled(s));
    PartialIsTruthful(j, Polled(s), Say(Exhausted(j.maxSteps)));
    if s.step < j.maxSteps {
      RepliedAccounted(w, j, Asked(Polled(s)), w.provider(|s.requests|));
    }
  }

  lemma AbortIsTruthful(j: Job, s: St)
    ensures Truthful(j, s, Aborted)
  {
  }

  lemma {:induction false} RunFromAccounted(w: World, j: Job, s: St)
    requires Accounted(j, s) && s.ladder.Valid() && s.step <= j.maxSteps
    ensures var (t, outcome) := RunFrom(w, j, s);
            Accounted(j, t) && Truthful(j, t, outcome)
    decreases j.maxSteps - s.step, |s.ladder.models| - s.ladder.index
  {
    hide Round, Balanced, Truthful;
    RoundKeepsBooks(w, j, s);
    RoundUses(w, j, s);
    if Round(w, j, s).1.None? {
      RunFromAccounted(w, j, Round(w, j, s).0);
    }
  }

  lemma BeganAccounted(j: Job)
    requires j.models != []
    ensures Accounted(j, Began(j))
  {
    assert Began(j).events[..0] == [];
  }

  /**
   * At the end of a collection: only wanted keys were stored, never an empty value; the captured list has no
   * duplicates and is exactly the keys the vault accepted, each announced with the preview of its value; and the
   * outcome is truthful: success means every wanted key was accepted, a partial outcome splits the wanted keys
   * into accepted and missing ones, and failure means the vault accepted nothing.
   */
  lemma OutcomeIsTruthful(w: World, j: Job)
    requires j.models != []
    ensures var (s, outcome) := RunInner(w, j);
            Accounted(j, s) && Truthful(j, s, outcome)
  {
    hide Say, RunFrom, Clean, Balanced;
    BeganAccounted(j);
    if w.begin.Ok? {
      RunFromAccounted(w, j, Opened(j, w.begin.value));
    }
  }

  /** A run publishes one `Finished` event, its last, with its outcome. A collection ends its browser session once,
      and leaves the tabs open exactly if it failed or got only a part; a rotation touches none. */
  lemma FinishedOnce(w: World, kind: Kind)
    requires kind.Collect? ==> kind.job.models != []
    ensures var t := Run(w, kind);
            && t.events != [] && t.events[|t.events| - 1] == Finished(t.outcome)
            && (forall i :: 0 <= i < |t.events| - 1 ==> !t.events[i].Finished?)
            && t.sessionEnds == (if kind.Collect? then [t.outcome.Failed? || t.outcome.Partial?] else [])
            && (kind.Rotate? ==> t.outcome.Failed? && |t.events| == 1)
  {
    hide Say, RunInner;
    if kind.Collect? {
      OutcomeIsTruthful(w, kind.job);
    }
  }
}
