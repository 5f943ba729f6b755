/** Provider-neutral conversations: what a well-formed one is, and dropping old screenshots from it. */
module Conversation {
  import opened Prelude

  datatype Role = User | Assistant

  datatype ContentPart = Text(text: string) | Image(mediaType: string, data: string)

  /** A tool call's JSON arguments: their printed form and the string fields the loop looks up. */
  datatype Arguments = Arguments(
    printed: string,
    summary: Option<string>,
    reason: Option<string>,
    message: Option<string>,
    keyType: Option<string>,
    labelText: Option<string>)

  datatype ToolCall = ToolCall(id: string, name: string, arguments: Arguments)

  datatype ToolResult = ToolResult(callId: string, name: string, content: seq<ContentPart>, isError: bool)

  datatype Message = Message(role: Role, content: seq<ContentPart>, toolCalls: seq<ToolCall>, toolResults: seq<ToolResult>)

  function UserText(t: string): Message {
    Message(User, [Text(t)], [], [])
  }

  function AssistantTurn(text: Option<string>, calls: seq<ToolCall>): Message {
    Message(Assistant, if text.Some? then [Text(text.value)] else [], calls, [])
  }

  function ToolResults(results: seq<ToolResult>): Message {
    Message(User, [], [], results)
  }

  // ------------------------------------------------------------------ well-formedness

  ghost predicate HasText(content: seq<ContentPart>) {
    exists i :: 0 <= i < |content| && content[i].Text?
  }

  /** A user turn says something, or answers tool calls with results that say something. */
  ghost predicate IsUserTurn(m: Message) {
    && m.role == User && m.toolCalls == []
    && (m.toolResults != [] || HasText(m.content))
    && forall i :: 0 <= i < |m.toolResults| ==> m.toolResults[i].content != []
  }

  ghost predicate IsAssistantTurn(m: Message) {
    m.role == Assistant && m.toolResults == []
  }

  /** Every call is answered, once, in order. */
  ghost predicate Answers(calls: seq<ToolCall>, results: seq<ToolResult>) {
    |results| == |calls| && forall i :: 0 <= i < |calls| ==> results[i].callId == calls[i].id && results[i].name == calls[i].name
  }

  /** Turns alternate from a user turn to a user turn, and every assistant turn's calls are answered by the next one. */
  ghost predicate WellFormed(ms: seq<Message>) {
    && |ms| % 2 == 1
    && (forall i :: 0 <= i < |ms| && i % 2 == 0 ==> IsUserTurn(ms[i]))
    && (forall i :: 0 <= i < |ms| && i % 2 == 1 ==> IsAssistantTurn(ms[i]) && Answers(ms[i].toolCalls, ms[i + 1].toolResults))
    && ms[0].toolResults == []
  }

  lemma StartIsWellFormed(t: string)
    ensures WellFormed([UserText(t)])
  {
    assert UserText(t).content[0].Text?;
  }

  lemma ExchangeIsWellFormed(ms: seq<Message>, a: Message, u: Message)
    requires WellFormed(ms) && IsAssistantTurn(a) && IsUserTurn(u) && Answers(a.toolCalls, u.toolResults)
    ensures WellFormed(ms + [a, u])
  {
  }

  // ------------------------------------------------------------------ pruning

  const REMOVED: string := "(screenshot removed to save context)"

  /** `retain`: count the images seen and keep the first `keep` of them. */
  function Retain(content: seq<ContentPart>, seen: nat, keep: nat): (r: (seq<ContentPart>, nat)) {
    if content == [] then ([], seen)
    else
      var seen' := if content[0].Image? then seen + 1 else seen;
      var (rest, total) := Retain(content[1..], seen', keep);
      (if content[0].Image? && seen' > keep then rest else [content[0]] + rest, total)
  }

  function PruneResult(r: ToolResult, seen: nat, keep: nat): (ToolResult, nat) {
    var (content, seen') := Retain(r.content, seen, keep);
    (r.(content := if content == [] then [Text(REMOVED)] else content), seen')
  }

  /** The last result first. */
  function PruneResults(rs: seq<ToolResult>, seen: nat, keep: nat): (seq<ToolResult>, nat) {
    if rs == [] then ([], seen)
    else
      var (last, seen') := PruneResult(rs[|rs| - 1], seen, keep);
      var (front, seen'') := PruneResults(rs[..|rs| - 1], seen', keep);
      (front + [last], seen'')
  }

  function PruneMessage(m: Message, seen: nat, keep: nat): (Message, nat) {
    var (results, seen') := PruneResults(m.toolResults, seen, keep);
    var (content, seen'') := Retain(m.content, seen', keep);
    (m.(content := content, toolResults := results), seen'')
  }

  /** The last message first. */
  function PruneFrom(ms: seq<Message>, seen: nat, keep: nat): (seq<Message>, nat) {
    if ms == [] then ([], seen)
    else
      var (last, seen') := PruneMessage(ms[|ms| - 1], seen, keep);
      var (front, seen'') := PruneFrom(ms[..|ms| - 1], seen', keep);
      (front + [last], seen'')
  }

  function Pruned(ms: seq<Message>, keep: nat): seq<Message> {
    PruneFrom(ms, 0, keep).0
  }

  /** The parts that are text, in order. */
  function Texts(content: seq<ContentPart>): seq<ContentPart> {
    if content == [] then []
    else (if content[0].Text? then [content[0]] else []) + Texts(content[1..])
  }

  function Images(content: seq<ContentPart>): nat {
    if content == [] then 0 else (if content[0].Image? then 1 else 0) + Images(content[1..])
  }

  function ResultImages(rs: seq<ToolResult>): nat {
    if rs == [] then 0 else ResultImages(rs[..|rs| - 1]) + Images(rs[|rs| - 1].content)
  }

  function MessageImages(m: Message): nat {
    ResultImages(m.toolResults) + Images(m.content)
  }

  function TotalImages(ms: seq<Message>): nat {
    if ms == [] then 0 else TotalImages(ms[..|ms| - 1]) + MessageImages(ms[|ms| - 1])
  }

  function Min(a: nat, b: nat): nat {
    if a <= b then a else b
  }

  /** Images left once `keep` have been seen, out of `seen` to `seen'`. */
  function KeptBetween(seen: nat, seen': nat, keep: nat): int {
    Min(seen', keep) - Min(seen, keep)
  }

  lemma {:induction false} RetainIs(content: seq<ContentPart>, seen: nat, keep: nat)
    ensures var (kept, seen') := Retain(content, seen, keep);
            && Texts(kept) == Texts(content)
            && seen' == seen + Images(content)
            && Images(kept) == KeptBetween(seen, seen', keep)
    ensures HasText(content) ==> HasText(Retain(content, seen, keep).0)
  {
    if content != [] {
      var seen' := if content[0].Image? then seen + 1 else seen;
      RetainIs(content[1..], seen', keep);
      var kept, rest := Retain(content, seen, keep).0, Retain(content[1..], seen', keep).0;
      if kept != rest {
        assert kept[1..] == rest;
      }
      if HasText(content) {
        var i :| 0 <= i < |content| && content[i].Text?;
        if i > 0 {
          assert content[1..][i - 1].Text?;
          var j :| 0 <= j < |rest| && rest[j].Text?;
          assert kept == rest || kept[j + 1].Text?;
        } else {
          assert kept[0].Text?;
        }
      }
    }
  }

  /** A pruned result keeps its call, its verdict and its texts; it is never left empty. */
  ghost predicate SameResult(r: ToolResult, r': ToolResult) {
    && r'.callId == r.callId && r'.name == r.name && r'.isError == r.isError && r'.content != []
    && (Texts(r'.content) == Texts(r.content) || (Texts(r.content) == [] && r'.content == [Text("(screenshot removed to save context)")]))
  }

  lemma PruneResultIs(r: ToolResult, seen: nat, keep: nat)
    ensures var (r', seen') := PruneResult(r, seen, keep);
            && SameResult(r, r') && seen' == seen + Images(r.content)
            && Images(r'.content) == KeptBetween(seen, seen', keep)
  {
    RetainIs(r.content, seen, keep);
    var kept := Retain(r.content, seen, keep).0;
    if kept == [] {
      assert [Text(REMOVED)][1..] == [];
    }
  }

  lemma {:induction false} PruneResultsAre(rs: seq<ToolResult>, seen: nat, keep: nat)
    ensures var (rs', seen') := PruneResults(rs, seen, keep);
            && |rs'| == |rs| && (forall i :: 0 <= i < |rs| ==> SameResult(rs[i], rs'[i]))
            && seen' == seen + ResultImages(rs)
            && ResultImages(rs') == KeptBetween(seen, seen', keep)
  {
    hide SameResult, PruneResult;
    if rs != [] {
      var (last, seen') := PruneResult(rs[|rs| - 1], seen, keep);
      PruneResultIs(rs[|rs| - 1], seen, keep);
      PruneResultsAre(rs[..|rs| - 1], seen', keep);
      var rs' := PruneResults(rs, seen, keep).0;
      assert rs'[..|rs'| - 1] == PruneResults(rs[..|rs| - 1], seen', keep).0;
    }
  }

  ghost predicate SameMessage(m: Message, m': Message) {
    && m'.role == m.role && m'.toolCalls == m.toolCalls
    && |m'.toolResults| == |m.toolResults|
    && (forall i :: 0 <= i < |m.toolResults| ==> SameResult(m.toolResults[i], m'.toolResults[i]))
    && Texts(m'.content) == Texts(m.content)
    && (HasText(m.content) ==> HasText(m'.content))
  }

  lemma PruneMessageIs(m: Message, seen: nat, keep: nat)
    ensures var (m', seen') := PruneMessage(m, seen, keep);
            && SameMessage(m, m') && seen' == seen + MessageImages(m)
            && MessageImages(m') == KeptBetween(seen, seen', keep)
  {
    hide SameResult, HasText;
    PruneResultsAre(m.toolResults, seen, keep);
    RetainIs(m.content, PruneResults(m.toolResults, seen, keep).1, keep);
  }

  lemma {:induction false} PruneFromIs(ms: seq<Message>, seen: nat, keep: nat)
    ensures var (ms', seen') := PruneFrom(ms, seen, keep);
            && |ms'| == |ms| && (forall i :: 0 <= i < |ms| ==> SameMessage(ms[i], ms'[i]))
            && seen' == seen + TotalImages(ms)
            && TotalImages(ms') == KeptBetween(seen, seen', keep)
  {
    hide SameMessage, PruneMessage, MessageImages;
    if ms != [] {
      var (last, seen') := PruneMessage(ms[|ms| - 1], seen, keep);
      PruneMessageIs(ms[|ms| - 1], seen, keep);
      PruneFromIs(ms[..|ms| - 1], seen', keep);
      var ms' := PruneFrom(ms, seen, keep).0;
      assert ms'[..|ms'| - 1] == PruneFrom(ms[..|ms| - 1], seen', keep).0;
    }
  }

  /** At most `keep` images stay, exactly that many if there were more; all texts, calls and results stay. */
  lemma PrunedKeeps(ms: seq<Message>, keep: nat)
    ensures |Pruned(ms, keep)| == |ms|
    ensures forall i :: 0 <= i < |ms| ==> SameMessage(ms[i], Pruned(ms, keep)[i])
    ensures TotalImages(Pruned(ms, keep)) == Min(TotalImages(ms), keep)
  {
    hide SameMessage;
    PruneFromIs(ms, 0, keep);
  }

  lemma {:induction false} PruneSuffix(ms: seq<Message>, seen: nat, keep: nat, i: nat)
    requires i <= |ms|
    ensures |PruneFrom(ms, seen, keep).0| == |ms|
    ensures PruneFrom(ms, seen, keep).0[i..] == PruneFrom(ms[i..], seen, keep).0
  {
    hide PruneMessage;
    if ms != [] {
      var n := |ms| - 1;
      var seen' := PruneMessage(ms[n], seen, keep).1;
      PruneSuffix(ms[..n], seen', keep, if i <= n then i else n);
      if i <= n {
        assert ms[i..][..n - i] == ms[..n][i..];
      }
    }
  }

  /** It is the newest images that stay: of the last turns, however many, as many as there are, up to `keep`. */
  lemma NewestStay(ms: seq<Message>, keep: nat, i: nat)
    requires i <= |ms|
    ensures |Pruned(ms, keep)| == |ms|
    ensures TotalImages(Pruned(ms, keep)[i..]) == Min(TotalImages(ms[i..]), keep)
  {
    hide PruneFrom, TotalImages;
    PruneSuffix(ms, 0, keep, i);
    PrunedKeeps(ms[i..], keep);
  }

  lemma SameMessageIsUserTurn(m: Message, m': Message)
    requires SameMessage(m, m')
    ensures IsUserTurn(m) ==> IsUserTurn(m')
    ensures IsAssistantTurn(m) ==> IsAssistantTurn(m')
  {
    hide HasText, Texts;
    assert forall i :: 0 <= i < |m.toolResults| ==> SameResult(m.toolResults[i], m'.toolResults[i]);
  }

  lemma SameAnswers(calls: seq<ToolCall>, m: Message, m': Message)
    requires SameMessage(m, m') && Answers(calls, m.toolResults)
    ensures Answers(calls, m'.toolResults)
  {
    hide HasText, Texts;
    assert forall i :: 0 <= i < |m.toolResults| ==> SameResult(m.toolResults[i], m'.toolResults[i]);
  }

  /** Pruning keeps a conversation well formed. */
  lemma PrunedWellFormed(ms: seq<Message>, keep: nat)
    requires WellFormed(ms)
    ensures WellFormed(Pruned(ms, keep))
  {
    hide IsUserTurn, IsAssistantTurn, Answers, Pruned, HasText, SameResult, Texts;
    PrunedKeeps(ms, keep);
    var ms' := Pruned(ms, keep);
    forall i | 0 <= i < |ms| ensures (IsUserTurn(ms[i]) ==> IsUserTurn(ms'[i])) && (IsAssistantTurn(ms[i]) ==> IsAssistantTurn(ms'[i])) {
      SameMessageIsUserTurn(ms[i], ms'[i]);
    }
    forall i | 0 <= i < |ms| && i % 2 == 1 ensures Answers(ms'[i].toolCalls, ms'[i + 1].toolResults) {
      assert SameMessage(ms[i], ms'[i]);
      SameAnswers(ms[i].toolCalls, ms[i + 1], ms'[i + 1]);
    }
    assert SameMessage(ms[0], ms'[0]);
  }

  // ------------------------------------------------------------------ the loops

  lemma RetainStep(content: seq<ContentPart>, i: nat, seen: nat, keep: nat)
    requires i < |content|
    ensures var c := content[i];
            var seen' := if c.Image? then seen + 1 else seen;
            var (rest, total) := Retain(content[i + 1..], seen', keep);
            Retain(content[i..], seen, keep) == ((if c.Image? && seen' > keep then [] else [c]) + rest, total)
  {
    assert content[i..][1..] == content[i + 1..];
    var seen' := if content[i].Image? then seen + 1 else seen;
    assert [] + Retain(content[i + 1..], seen', keep).0 == Retain(content[i + 1..], seen', keep).0;
  }

  lemma RetainNothing(content: seq<ContentPart>, seen: nat, keep: nat)
    ensures Retain(content[|content|..], seen, keep) == ([], seen) && content[0..] == content
  {
  }

  lemma Regroup<T>(a: seq<T>, b: seq<T>, c: seq<T>)
    ensures (a + b) + c == a + (b + c) && a + [] == a && [] + a == a
  {
  }

  method RetainLoop(content: seq<ContentPart>, seen: nat, keep: nat) returns (kept: seq<ContentPart>, total: nat)
    ensures (kept, total) == Retain(content, seen, keep)
  {
    hide Retain;
    kept, total := [], seen;
    RetainNothing(content, seen, keep);
    Regroup(Retain(content, seen, keep).0, [], []);
    for i := 0 to |content|
      invariant Retain(content, seen, keep)
             == (kept + Retain(content[i..], total, keep).0, Retain(content[i..], total, keep).1)
    {
      RetainStep(content, i, total, keep);
      ghost var before := kept;
      var c := content[i];
      if c.Image? {
        total := total + 1;
      }
      if !c.Image? || total <= keep {
        kept := kept + [c];
      }
      Regroup(before, if c.Image? && total > keep then [] else [c], Retain(content[i + 1..], total, keep).0);
      Regroup(before, [], []);
    }
    RetainNothing(content, total, keep);
    Regroup(kept, [], []);
  }

  /** The inner loop: one message's results, the last first. */
  method PruneResultsLoop(rs: seq<ToolResult>, seen: nat, keep: nat) returns (out: seq<ToolResult>, total: nat)
    ensures (out, total) == PruneResults(rs, seen, keep)
  {
    hide Retain;
    out, total := [], seen;
    assert rs[..|rs|] == rs;
    assert PruneResults(rs, seen, keep).0 + [] == PruneResults(rs, seen, keep).0;
    for k := |rs| downto 0
      invariant PruneResults(rs, seen, keep)
             == (PruneResults(rs[..k], total, keep).0 + out, PruneResults(rs[..k], total, keep).1)
    {
      var r := rs[k];
      ghost var front := PruneResults(rs[..k], Retain(r.content, total, keep).1, keep).0;
      assert rs[..k + 1][..k] == rs[..k];
      var content, total' := RetainLoop(r.content, total, keep);
      var pruned := r.(content := if content == [] then [Text(REMOVED)] else content);
      assert front + [pruned] + out == front + ([pruned] + out);
      out, total := [pruned] + out, total';
    }
    assert [] + out == out;
  }

  /** Newest first: the results of a message, then its own content. */
  method PruneImages(messages: seq<Message>, keep: nat) returns (out: seq<Message>)
    ensures out == Pruned(messages, keep)
  {
    hide Retain, PruneResults;
    out := [];
    var seen := 0;
    assert messages[..|messages|] == messages;
    assert PruneFrom(messages, 0, keep).0 + [] == PruneFrom(messages, 0, keep).0;
    for n := |messages| downto 0
      invariant PruneFrom(messages, 0, keep).0 == PruneFrom(messages[..n], seen, keep).0 + out
    {
      var m := messages[n];
      var results, mid := PruneResultsLoop(m.toolResults, seen, keep);
      var content, seen' := RetainLoop(m.content, mid, keep);
      var pruned := m.(content := content, toolResults := results);
      assert PruneMessage(m, seen, keep) == (pruned, seen');
      ghost var front := PruneFrom(messages[..n], seen', keep).0;
      assert messages[..n + 1][..n] == messages[..n];
      assert front + [pruned] + out == front + ([pruned] + out);
      out, seen := [pruned] + out, seen';
    }
    assert [] + out == out;
  }
}
