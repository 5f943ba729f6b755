/** A run succeeds if everyone it depends on cooperates. */
module AgentSuccess {
  import opened Prelude
  import opened Conversation
  import opened AgentLoop
  import opened AgentTexts
  import C = AgentCaptures
  import R = Redact
  import T = Text

  /** The provider asks for every wanted key in order and then says it is done. */
  ghost predicate AsksForAll(j: Job, calls: seq<ToolCall>) {
    && |calls| == |j.wanted| + 1
    && ToolNamed(calls[|j.wanted|].name).DoneTool?
    && forall i :: 0 <= i < |j.wanted| ==> ToolNamed(calls[i].name).CaptureTool? && calls[i].arguments.keyType == Some(j.wanted[i])
  }

  /** The browser finds a value each time, the vault takes it, and nobody aborts. */
  ghost predicate Cooperates(w: World) {
    && (forall k :: w.executor(k).Ok? && HasValue(w.executor(k).value))
    && (forall k :: w.sink(k) == Ok(true))
    && (forall k :: !w.aborted(k))
  }

  lemma Cooperation(w: World, k: nat)
    requires Cooperates(w)
    ensures w.executor(k).Ok? && HasValue(w.executor(k).value) && w.sink(k) == Ok(true) && !w.aborted(k)
  {
  }

  /** The call was answered and `key` was captured. */
  ghost predicate Took(s: St, r: (St, CallEnd), key: string) {
    r.1.Answered? && r.0.captured == s.captured + [key] && r.0.step == s.step
  }

  lemma StoreSucceeds(w: World, j: Job, s: St, tc: ToolCall, key: string, value: string)
    requires w.sink(|s.stores|) == Ok(true) && key !in s.captured
    ensures Took(s, StoreCall(w, j, s, tc, key, value), key)
  {
    hide Say, Clean, Missing, R.Fingerprint, StepEvent, Answering;
    var s' := Stored(s, key, tc.arguments.labelText, value, Ok(true));
    assert s'.captured == s.captured + [key] && s'.step == s.step;
    AnsweringAnswers(j, tc);
  }

  lemma AnsweringAnswers(j: Job, tc: ToolCall)
    ensures forall text, isError :: Answering(tc, text, isError).Answered?
  {
  }

  lemma CaptureAnsweredSucceeds(w: World, j: Job, s: St, tc: ToolCall, key: string, out: Result<ToolOutput, ExecutorError>)
    requires w.sink(|s.stores|) == Ok(true) && key !in s.captured && OrEmpty(tc.arguments.keyType) == key
    requires out.Ok? && HasValue(out.value)
    ensures Took(s, CaptureAnswered(w, j, s, tc, out), key)
  {
    hide Say, StoreCall, Reported, HasValue, Clean, OrEmpty, T.Trim, Took;
    WithValue(out.value);
    StoreSucceeds(w, j, s, tc, key, T.Trim(out.value.secret.value));
  }

  lemma CaptureCallSucceeds(w: World, j: Job, s: St, tc: ToolCall, key: string)
    requires Cooperates(w) && OrEmpty(tc.arguments.keyType) == key && key in j.wanted && key !in s.captured
    ensures Took(s, CaptureCall(w, j, s, tc), key)
  {
    hide Say, CaptureAnswered, OrEmpty, HasValue, Cooperates;
    var s1 := Executed(s, tc.name, tc.arguments);
    Cooperation(w, s1.polls);
    Cooperation(w, |s.calls|);
    Cooperation(w, |s.stores|);
    CaptureAnsweredSucceeds(w, j, Polled(s1), tc, key, w.executor(|s.calls|));
  }

  lemma Dispatches(w: World, j: Job, s: St, tc: ToolCall)
    requires Cooperates(w) && s.step < j.maxSteps
    ensures CallStep(w, j, s, tc) == Dispatched(w, j, Stepped(s), tc)
  {
    hide Say, Dispatched, PartialOutcome, Cooperates;
    Cooperation(w, s.polls);
  }

  lemma CaptureSucceeds(w: World, j: Job, s: St, tc: ToolCall, key: string)
    requires Cooperates(w) && s.step < j.maxSteps && ToolNamed(tc.name).CaptureTool?
    requires OrEmpty(tc.arguments.keyType) == key && key in j.wanted && key !in s.captured
    ensures Took(Stepped(s), CallStep(w, j, s, tc), key)
  {
    hide Say, Clean, ToolNamed, OrEmpty, NeedUserCall, BrowserCall, CaptureCall, CallStep, DoneCall, PartialOutcome, Cooperates, Took, Answering;
    Dispatches(w, j, s, tc);
    CaptureCallSucceeds(w, j, Stepped(s), tc, key);
  }

  lemma DoneSucceeds(w: World, j: Job, s: St, tc: ToolCall)
    requires Cooperates(w) && s.step < j.maxSteps && ToolNamed(tc.name).DoneTool? && s.captured == j.wanted
    ensures CallStep(w, j, s, tc).1 == Stopped(Success(j.wanted, Clean(j, OrEmpty(tc.arguments.summary))))
  {
    hide Say, Clean, ToolNamed, OrEmpty, Missing, NeedUserCall, CaptureCall, BrowserCall, CallStep, PartialOutcome, Cooperates, Answering;
    Dispatches(w, j, s, tc);
    NothingMissing(j.wanted);
  }

  lemma NothingMissing(wanted: seq<string>)
    ensures Missing(wanted, wanted) == []
  {
    hide Missing;
    var missing := Missing(wanted, wanted);
    assert missing != [] ==> missing[0] in missing;
    forall k ensures k !in missing {
      C.MissingAre(wanted, wanted, k);
    }
  }

  lemma OneMoreCall(w: World, j: Job, s: St, calls: seq<ToolCall>, n: nat)
    requires 0 < n <= |calls| && CallsFrom(w, j, s, calls[..n - 1]).1.AllAnswered?
    ensures var (t, before) := CallsFrom(w, j, s, calls[..n - 1]);
            CallsFrom(w, j, s, calls[..n]) == Extended(before.results, before.failed, CallStep(w, j, t, calls[n - 1]))
  {
    hide CallStep, Extended;
    assert calls[..n][..n - 1] == calls[..n - 1];
  }

  lemma NotBefore(keys: seq<string>, i: nat)
    requires C.NoDuplicates(keys) && i < |keys|
    ensures keys[i] !in keys[..i] && keys[..i + 1] == keys[..i] + [keys[i]]
  {
    assert forall k :: 0 <= k < i ==> keys[..i][k] == keys[k];
  }

  lemma AskedKey(j: Job, calls: seq<ToolCall>, i: nat)
    requires AsksForAll(j, calls) && i < |j.wanted|
    ensures i < |calls| && ToolNamed(calls[i].name).CaptureTool? && OrEmpty(calls[i].arguments.keyType) == j.wanted[i]
  {
    hide ToolNamed;
  }

  lemma {:induction false} CapturesSucceed(w: World, j: Job, s: St, calls: seq<ToolCall>, n: nat)
    requires Cooperates(w) && AsksForAll(j, calls) && C.NoDuplicates(j.wanted)
    requires s.captured == [] && s.step == 0 && n <= |j.wanted| < j.maxSteps
    ensures var (t, end) := CallsFrom(w, j, s, calls[..n]);
            end.AllAnswered? && t.captured == j.wanted[..n] && t.step == n
  {
    hide CallStep, CallsFrom, Cooperates, ToolNamed, OrEmpty, AsksForAll, C.NoDuplicates;
    if n == 0 {
      NoCalls(w, j, s, calls);
    } else {
      AskedKey(j, calls, n - 1);
      NotBefore(j.wanted, n - 1);
      CapturesSucceed(w, j, s, calls, n - 1);
      var t := CallsFrom(w, j, s, calls[..n - 1]).0;
      CaptureSucceeds(w, j, t, calls[n - 1], j.wanted[n - 1]);
      OneMoreCall(w, j, s, calls, n);
    }
  }

  lemma NoCalls(w: World, j: Job, s: St, calls: seq<ToolCall>)
    ensures CallsFrom(w, j, s, calls[..0]) == (s, AllAnswered([], false))
  {
  }

  lemma ReplySucceeds(w: World, j: Job, s: St, text: Option<string>, calls: seq<ToolCall>)
    requires Cooperates(w) && AsksForAll(j, calls) && C.NoDuplicates(j.wanted)
    requires s.captured == [] && s.step == 0 && |j.wanted| < j.maxSteps && s.ladder.Valid()
    ensures CallsReply(w, j, s, text, calls).1 == Some(Success(j.wanted, Clean(j, OrEmpty(calls[|j.wanted|].arguments.summary))))
  {
    hide CallStep, Cooperates, ToolNamed, Clean, OrEmpty, AssistantTurn, AfterAnswers;
    var s1 := s.(idle := 0, messages := s.messages + [AssistantTurn(text, calls)]);
    var n := |j.wanted|;
    CapturesSucceed(w, j, s1, calls, n);
    DoneSucceeds(w, j, CallsFrom(w, j, s1, calls[..n]).0, calls[n]);
    assert j.wanted[..n] == j.wanted;
  }

  /** If everyone cooperates, one reply that asks for every wanted key and then says it is done ends in success. */
  lemma CooperationSucceeds(w: World, j: Job, text: Option<string>, calls: seq<ToolCall>)
    requires j.models != [] && C.NoDuplicates(j.wanted) && |j.wanted| < j.maxSteps
    requires Cooperates(w) && w.begin.Ok? && w.provider(0) == Reply(text, calls) && AsksForAll(j, calls)
    ensures RunInner(w, j).1.Success? && RunInner(w, j).1.captured == j.wanted
  {
    hide Say, Clean, OrEmpty, ToolNamed, CallsReply, IdleReply, ProviderFailed, UserText, Cooperates;
    var s := Opened(j, w.begin.value);
    Cooperation(w, s.polls);
    var s1 := Thinking(j, Asked(Polled(s)), text);
    assert s1.captured == [] && s1.step == 0 && s1.ladder == s.ladder;
    ReplySucceeds(w, j, s1, text, calls);
  }

  function CallFor(key: Option<string>): ToolCall {
    ToolCall("", if key.Some? then "capture_secret" else "done", Arguments("", None, None, None, key, None))
  }

  function CallsFor(j: Job): seq<ToolCall> {
    seq(|j.wanted| + 1, i requires 0 <= i <= |j.wanted| => CallFor(if i < |j.wanted| then Some(j.wanted[i]) else None))
  }

  function Obliging(calls: seq<ToolCall>): World {
    var found: Result<ToolOutput, ExecutorError> := Ok(ToolOutput("", None, Some("v"), None, false));
    World(Ok(""), k => Reply(None, calls), k => found, k => Ok(true), k => false)
  }

  /** There is such a world for every job. */
  lemma CooperationIsPossible(j: Job)
    ensures var w := Obliging(CallsFor(j));
            Cooperates(w) && w.begin.Ok? && w.provider(0) == Reply(None, CallsFor(j)) && AsksForAll(j, CallsFor(j))
  {
    ObligingCooperates(CallsFor(j));
    CallsForAskForAll(j);
  }

  lemma ObligingCooperates(calls: seq<ToolCall>)
    ensures var w := Obliging(calls); Cooperates(w) && w.begin.Ok? && w.provider(0) == Reply(None, calls)
  {
    hide HasValue, ToolNamed;
    ValueFound();
  }

  lemma CallsForAskForAll(j: Job)
    ensures AsksForAll(j, CallsFor(j))
  {
    hide ToolNamed, CallFor, CallsFor;
    CallsForAt(j, |j.wanted|);
    forall i | 0 <= i < |j.wanted| ensures ToolNamed(CallsFor(j)[i].name).CaptureTool? && CallsFor(j)[i].arguments.keyType == Some(j.wanted[i]) {
      CallsForAt(j, i);
    }
  }

  lemma CallsForAt(j: Job, i: nat)
    requires i <= |j.wanted|
    ensures |CallsFor(j)| == |j.wanted| + 1
    ensures ToolNamed(CallsFor(j)[i].name) == if i < |j.wanted| then CaptureTool else DoneTool
    ensures i < |j.wanted| ==> CallsFor(j)[i].arguments.keyType == Some(j.wanted[i])
  {
    hide ToolNamed, CallFor;
    CallForIs(if i < |j.wanted| then Some(j.wanted[i]) else None);
  }

  lemma CallForIs(key: Option<string>)
    ensures ToolNamed(CallFor(key).name) == (if key.Some? then CaptureTool else DoneTool) && CallFor(key).arguments.keyType == key
  {
  }

  lemma ValueFound()
    ensures HasValue(ToolOutput("", None, Some("v"), None, false))
  {
    assert T.TrimEnd("v") == "v";
  }
}
