/** Captured values stay between the browser and the vault: two runs that differ in nothing else look the same. */
module AgentSecrecy {
  import opened Prelude
  import opened Conversation
  import opened AgentLoop
  import opened AgentTexts
  import L = Ladder
  import R = Redact
  import T = Text

  /** Two values the loop may not tell apart: trimmed, they have the same length and the same preview. */
  ghost predicate Alike(a: string, b: string) {
    |T.Trim(a)| == |T.Trim(b)| && R.Fingerprint(T.Trim(a)) == R.Fingerprint(T.Trim(b))
  }

  lemma TrimsToItself(s: string)
    requires s != "" && !T.IsWhitespace(s[0]) && !T.IsWhitespace(s[|s| - 1])
    ensures T.Trim(s) == s
  {
  }

  lemma SamePreview(a: string, b: string)
    requires |a| == |b| > 8 && a[..4] == b[..4] && a[|a| - 4..] == b[|b| - 4..]
    ensures R.Fingerprint(a) == R.Fingerprint(b)
  {
  }

  lemma DifferentYetAlike()
    ensures exists a, b :: a != b && Alike(a, b)
  {
    hide T.Trim, R.Fingerprint;
    var a, b := "abcd-0-wxyz", "abcd-1-wxyz";
    assert a[5] != b[5];
    assert a[..4] == b[..4] && a[7..] == b[7..];
    assert !T.IsWhitespace(a[0]) && !T.IsWhitespace(a[10]);
    TrimsToItself(a);
    TrimsToItself(b);
    SamePreview(a, b);
    assert Alike(a, b);
  }

  ghost predicate SameButSecret(a: Result<ToolOutput, ExecutorError>, b: Result<ToolOutput, ExecutorError>) {
    || a == b
    || (a.Ok? && b.Ok? && a.value.secret.Some? && b.value.secret.Some?
        && b.value == a.value.(secret := b.value.secret) && Alike(a.value.secret.value, b.value.secret.value))
  }

  ghost predicate SameButSecrets(w1: World, w2: World) {
    && w2 == w1.(executor := w2.executor)
    && forall k :: SameButSecret(w1.executor(k), w2.executor(k))
  }

  /** All of a state but the stored values: the requests, the browser calls, the events, and the loop's own variables. */
  ghost function Public(s: St): St {
    s.(values := [])
  }

  ghost predicate SameCall(r1: (St, CallEnd), r2: (St, CallEnd)) {
    Public(r1.0) == Public(r2.0) && r1.1 == r2.1
  }

  lemma NeedUserAlike(w1: World, w2: World, j: Job, s1: St, s2: St, tc: ToolCall)
    requires SameButSecrets(w1, w2) && Public(s1) == Public(s2)
    ensures SameCall(NeedUserCall(w1, j, s1, tc), NeedUserCall(w2, j, s2, tc))
  {
    hide Say, Clean, ArgsSummary, OrEmpty, SameButSecrets, StepEvent, Emit, Polled, Answering;
    SameFlags(w1, w2);
    StepEventAlike(j, s1, s2, tc, Say(WaitingForUser), false);
    var e1, e2 := NeedUser(Clean(j, OrEmpty(tc.arguments.message))), StepEvent(j, s1, tc, Say(WaitingForUser), false);
    EmitAlike(s1, s2, e1);
    EmitAlike(Emit(s1, e1), Emit(s2, e1), e2);
    var t1, t2 := Emit(Emit(s1, e1), e2), Emit(Emit(s2, e1), e2);
    PolledAlike(t1, t2);
    PolledAlike(Polled(t1), Polled(t2));
  }

  lemma PolledAlike(s1: St, s2: St)
    requires Public(s1) == Public(s2)
    ensures s1.polls == s2.polls && Public(Polled(s1)) == Public(Polled(s2))
    ensures Polled(s1).ladder == s1.ladder && Polled(s2).ladder == s2.ladder && Polled(s1).step == s1.step && Polled(s2).step == s2.step
  {
  }

  lemma EmitAlike(s1: St, s2: St, e: Event)
    requires Public(s1) == Public(s2)
    ensures Public(Emit(s1, e)) == Public(Emit(s2, e))
  {
  }

  lemma StepEventAlike(j: Job, s1: St, s2: St, tc: ToolCall, result: string, isError: bool)
    requires Public(s1) == Public(s2)
    ensures StepEvent(j, s1, tc, result, isError) == StepEvent(j, s2, tc, result, isError)
  {
  }

  lemma ReportedAlike(j: Job, s1: St, s2: St, tc: ToolCall, raw: string, isError: bool)
    requires Public(s1) == Public(s2)
    ensures SameCall(Reported(j, s1, tc, raw, isError), Reported(j, s2, tc, raw, isError))
  {
    hide Clean, ArgsSummary;
  }

  lemma StoreAlike(w1: World, w2: World, j: Job, s1: St, s2: St, tc: ToolCall, keyType: string, a: string, b: string)
    requires SameButSecrets(w1, w2) && Public(s1) == Public(s2)
    requires |a| == |b| && R.Fingerprint(a) == R.Fingerprint(b)
    ensures SameCall(StoreCall(w1, j, s1, tc, keyType, a), StoreCall(w2, j, s2, tc, keyType, b))
  {
    hide Say, Reported, Missing, R.Fingerprint, SameButSecret, SameCall;
    var verdict := w1.sink(|s1.stores|);
    var t1 := Stored(s1, keyType, tc.arguments.labelText, a, verdict);
    var t2 := Stored(s2, keyType, tc.arguments.labelText, b, verdict);
    assert Public(t1) == Public(t2);
    forall raw, isError ensures SameCall(Reported(j, t1, tc, raw, isError), Reported(j, t2, tc, raw, isError)) {
      ReportedAlike(j, t1, t2, tc, raw, isError);
    }
  }

  lemma CaptureAnsweredAlike(w1: World, w2: World, j: Job, s1: St, s2: St, tc: ToolCall,
                             a: Result<ToolOutput, ExecutorError>, b: Result<ToolOutput, ExecutorError>)
    requires SameButSecrets(w1, w2) && Public(s1) == Public(s2) && SameButSecret(a, b)
    ensures SameCall(CaptureAnswered(w1, j, s1, tc, a), CaptureAnswered(w2, j, s2, tc, b))
  {
    hide Say, Reported, StoreCall, Clean, OrEmpty, T.Trim, R.Fingerprint, SameButSecrets;
    match a
    case Ok(o) =>
      if HasValue(o) {
        StoreAlike(w1, w2, j, s1, s2, tc, OrEmpty(tc.arguments.keyType), T.Trim(o.secret.value), T.Trim(b.value.secret.value));
      } else {
        ReportedAlike(j, s1, s2, tc, if o.text == "" then Say(NoValue) else Clean(j, o.text), true);
      }
    case Err(e) =>
      ReportedAlike(j, s1, s2, tc, Say(CaptureFailed(e)), true);
  }

  lemma CaptureAlike(w1: World, w2: World, j: Job, s1: St, s2: St, tc: ToolCall)
    requires SameButSecrets(w1, w2) && Public(s1) == Public(s2)
    ensures SameCall(CaptureCall(w1, j, s1, tc), CaptureCall(w2, j, s2, tc))
  {
    hide Say, CaptureAnswered, OrEmpty, Alike;
    assert SameButSecret(w1.executor(|s1.calls|), w2.executor(|s1.calls|));
    var asked := OrEmpty(tc.arguments.keyType) in j.wanted;
    var unasked: Result<ToolOutput, ExecutorError> := Ok(ToolOutput(Say(NotRequested), None, None, None, true));
    var t1, t2 := if asked then Executed(s1, tc.name, tc.arguments) else s1, if asked then Executed(s2, tc.name, tc.arguments) else s2;
    assert Public(t1) == Public(t2);
    PolledAlike(t1, t2);
    CaptureAnsweredAlike(w1, w2, j, Polled(t1), Polled(t2), tc,
      if asked then w1.executor(|s1.calls|) else unasked, if asked then w2.executor(|s2.calls|) else unasked);
  }

  lemma BrowserAlike(w1: World, w2: World, j: Job, s1: St, s2: St, tc: ToolCall)
    requires SameButSecrets(w1, w2) && Public(s1) == Public(s2)
    ensures SameCall(BrowserCall(w1, j, s1, tc), BrowserCall(w2, j, s2, tc))
  {
    hide Say, Clean, ArgsSummary, ShowExecutorError, Truncated, Alike, StateText;
    var a, b := w1.executor(|s1.calls|), w2.executor(|s1.calls|);
    assert SameButSecret(a, b);
    if a.Ok? {
      StateTextAlike(a.value, b.value);
    }
  }

  lemma StateTextAlike(a: ToolOutput, b: ToolOutput)
    requires b == a.(secret := b.secret)
    ensures StateText(a) == StateText(b)
  {
  }

  lemma DispatchedAlike(w1: World, w2: World, j: Job, s1: St, s2: St, tc: ToolCall)
    requires SameButSecrets(w1, w2) && Public(s1) == Public(s2)
    ensures SameCall(Dispatched(w1, j, s1, tc), Dispatched(w2, j, s2, tc))
  {
    hide Say, ToolNamed, Clean, OrEmpty, NeedUserCall, CaptureCall, BrowserCall, PartialOutcome, DoneCall, SameButSecrets, Answering;
    match ToolNamed(tc.name)
    case NeedUserTool => NeedUserAlike(w1, w2, j, s1, s2, tc);
    case CaptureTool => CaptureAlike(w1, w2, j, s1, s2, tc);
    case BrowserTool => BrowserAlike(w1, w2, j, s1, s2, tc);
    case DoneTool => DoneAlike(j, s1, s2, tc);
    case _ =>
  }

  lemma CallStepAlike(w1: World, w2: World, j: Job, s1: St, s2: St, tc: ToolCall)
    requires SameButSecrets(w1, w2) && Public(s1) == Public(s2)
    ensures SameCall(CallStep(w1, j, s1, tc), CallStep(w2, j, s2, tc))
  {
    hide Say, Dispatched, PartialOutcome, SameButSecrets;
    SameFlags(w1, w2);
    assert Public(Stepped(s1)) == Public(Stepped(s2));
    DispatchedAlike(w1, w2, j, Stepped(s1), Stepped(s2), tc);
  }

  lemma SameFlags(w1: World, w2: World)
    requires SameButSecrets(w1, w2)
    ensures w1.aborted == w2.aborted && w1.provider == w2.provider
  {
  }

  lemma DoneAlike(j: Job, s1: St, s2: St, tc: ToolCall)
    requires Public(s1) == Public(s2)
    ensures DoneCall(j, s1, tc) == DoneCall(j, s2, tc)
  {
    hide Clean, OrEmpty, Missing;
  }

  lemma {:induction false} CallsAlike(w1: World, w2: World, j: Job, s1: St, s2: St, calls: seq<ToolCall>)
    requires SameButSecrets(w1, w2) && Public(s1) == Public(s2)
    ensures var (r1, r2) := (CallsFrom(w1, j, s1, calls), CallsFrom(w2, j, s2, calls));
            Public(r1.0) == Public(r2.0) && r1.1 == r2.1
  {
    hide CallStep, SameButSecrets;
    if calls != [] {
      var n := |calls| - 1;
      CallsAlike(w1, w2, j, s1, s2, calls[..n]);
      CallStepAlike(w1, w2, j, CallsFrom(w1, j, s1, calls[..n]).0, CallsFrom(w2, j, s2, calls[..n]).0, calls[n]);
    }
  }

  ghost predicate SameRound(r1: (St, Option<Outcome>), r2: (St, Option<Outcome>)) {
    Public(r1.0) == Public(r2.0) && r1.1 == r2.1
  }

  lemma ClimbAlike(s1: St, s2: St, ladder: L.State)
    requires Public(s1) == Public(s2) && s1.ladder.Valid() && s2.ladder.Valid() && ladder.Valid()
    ensures Public(Climb(s1, ladder)) == Public(Climb(s2, ladder))
  {
  }

  lemma CallsReplyAlike(w1: World, w2: World, j: Job, s1: St, s2: St, text: Option<string>, calls: seq<ToolCall>)
    requires SameButSecrets(w1, w2) && Public(s1) == Public(s2)
    requires s1.ladder.Valid() && s2.ladder.Valid() && s1.step <= j.maxSteps && s2.step <= j.maxSteps
    ensures SameRound(CallsReply(w1, j, s1, text, calls), CallsReply(w2, j, s2, text, calls))
  {
    hide CallsFrom, AnsweredInText, Pruned, AssistantTurn, ToolResults, SameButSecrets, Climb;
    var t1 := s1.(idle := 0, messages := s1.messages + [AssistantTurn(text, calls)]);
    var t2 := s2.(idle := 0, messages := s2.messages + [AssistantTurn(text, calls)]);
    assert Public(t1) == Public(t2);
    CallsProgress(w1, j, t1, calls);
    CallsProgress(w2, j, t2, calls);
    CallsAlike(w1, w2, j, t1, t2, calls);
    var u1, u2 := CallsFrom(w1, j, t1, calls).0, CallsFrom(w2, j, t2, calls).0;
    ClimbAlike(u1, u2, L.AfterFailure(u1.ladder));
    ClimbIsPublic(u1, L.AfterFailure(u1.ladder));
    ClimbIsPublic(u2, L.AfterFailure(u2.ladder));
  }

  lemma ClimbIsPublic(s: St, ladder: L.State)
    requires s.ladder.Valid() && ladder.Valid()
    ensures Climb(s, ladder).messages == s.messages && Climb(s, ladder).values == s.values
  {
  }

  lemma RepliedAlike(w1: World, w2: World, j: Job, s1: St, s2: St, answer: Answer)
    requires SameButSecrets(w1, w2) && Public(s1) == Public(s2)
    requires s1.ladder.Valid() && s2.ladder.Valid() && s1.step <= j.maxSteps && s2.step <= j.maxSteps
    ensures SameRound(Replied(w1, j, s1, answer), Replied(w2, j, s2, answer))
  {
    hide CallsReply, Clean, PartialOutcome, Say, SameButSecrets, UserText, AssistantTurn, Climb;
    match answer
    case Cancelled =>
    case Failure(e) =>
      ClimbAlike(s1, s2, if s1.ladder.IsTop() then s1.ladder else L.AfterProviderError(s1.ladder));
    case Reply(text, calls) =>
      var t1, t2 := Thinking(j, s1, text), Thinking(j, s2, text);
      assert Public(t1) == Public(t2);
      if calls != [] {
        CallsReplyAlike(w1, w2, j, t1, t2, text, calls);
      }
  }

  lemma RoundAlike(w1: World, w2: World, j: Job, s1: St, s2: St)
    requires SameButSecrets(w1, w2) && Public(s1) == Public(s2)
    requires s1.ladder.Valid() && s2.ladder.Valid() && s1.step <= j.maxSteps && s2.step <= j.maxSteps
    ensures SameRound(Round(w1, j, s1), Round(w2, j, s2))
  {
    hide Replied, Say, PartialOutcome, SameButSecrets, Polled;
    SameFlags(w1, w2);
    PolledAlike(s1, s2);
    if s1.step < j.maxSteps && !w1.aborted(s1.polls) {
      AskedAlike(Polled(s1), Polled(s2));
      RepliedAlike(w1, w2, j, Asked(Polled(s1)), Asked(Polled(s2)), w1.provider(|s1.requests|));
    }
  }

  lemma AskedAlike(s1: St, s2: St)
    requires Public(s1) == Public(s2) && s1.ladder.Valid() && s2.ladder.Valid()
    ensures Public(Asked(s1)) == Public(Asked(s2))
  {
  }

  lemma {:induction false} RunFromAlike(w1: World, w2: World, j: Job, s1: St, s2: St)
    requires SameButSecrets(w1, w2) && Public(s1) == Public(s2)
    requires s1.ladder.Valid() && s2.ladder.Valid() && s1.step <= j.maxSteps && s2.step <= j.maxSteps
    ensures var (r1, r2) := (RunFrom(w1, j, s1), RunFrom(w2, j, s2));
            Public(r1.0) == Public(r2.0) && r1.1 == r2.1
    decreases j.maxSteps - s1.step, |s1.ladder.models| - s1.ladder.index
  {
    hide Round, SameButSecrets;
    RoundAlike(w1, w2, j, s1, s2);
    RoundUses(w1, j, s1);
    RoundUses(w2, j, s2);
    if Round(w1, j, s1).1.None? {
      RunFromAlike(w1, w2, j, Round(w1, j, s1).0, Round(w2, j, s2).0);
    }
  }

  /**
   * If two environments give the same answers but for captured values that are alike, the two runs send the
   * provider the same requests and the browser the same calls, publish the same events and end with the same outcome.
   */
  lemma RunsLookTheSame(w1: World, w2: World, j: Job)
    requires j.models != [] && SameButSecrets(w1, w2)
    ensures Public(RunInner(w1, j).0) == Public(RunInner(w2, j).0)
    ensures Run(w1, Collect(j)) == Run(w2, Collect(j))
  {
    hide Say, RunFrom, SameButSecret, Clean;
    if w1.begin.Ok? {
      var s := Opened(j, w1.begin.value);
      RunFromAlike(w1, w2, j, s, s);
    }
  }
}
