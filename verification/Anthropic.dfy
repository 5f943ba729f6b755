/** The provider-neutral conversation translated for the Anthropic Messages API. */
module Anthropic {
  import opened Prelude
  import opened Conversation

  datatype Block =
    | Part(part: ContentPart)
    | ToolUse(call: ToolCall)
    | ToolAnswer(toolUseId: string, content: seq<ContentPart>, isError: bool)

  datatype Turn = Turn(role: Role, content: seq<Block>)

  const CONTINUING: ContentPart := Text("(continuing)")
  const NO_OUTPUT: ContentPart := Text("(no output)")

  function Parts(content: seq<ContentPart>): seq<Block> {
    seq(|content|, i requires 0 <= i < |content| => Part(content[i]))
  }

  function Uses(calls: seq<ToolCall>): seq<Block> {
    seq(|calls|, i requires 0 <= i < |calls| => ToolUse(calls[i]))
  }

  function AnswerBlock(r: ToolResult): Block {
    ToolAnswer(r.callId, if r.content == [] then [NO_OUTPUT] else r.content, r.isError)
  }

  function AnswerBlocks(results: seq<ToolResult>): seq<Block> {
    seq(|results|, i requires 0 <= i < |results| => AnswerBlock(results[i]))
  }

  /** The turn for one message; a user message with nothing in it has none. */
  function Translated(m: Message): seq<Turn> {
    match m.role
    case Assistant =>
      var blocks := Parts(m.content) + Uses(m.toolCalls);
      [Turn(Assistant, if blocks == [] then [Part(CONTINUING)] else blocks)]
    case User =>
      var blocks := AnswerBlocks(m.toolResults) + Parts(m.content);
      if blocks == [] then [] else [Turn(User, blocks)]
  }

  function Converted(ms: seq<Message>): seq<Turn> {
    if ms == [] then [] else Converted(ms[..|ms| - 1]) + Translated(ms[|ms| - 1])
  }

  method ConvertMessages(messages: seq<Message>) returns (out: seq<Turn>)
    ensures out == Converted(messages)
  {
    out := [];
    for i := 0 to |messages|
      invariant out == Converted(messages[..i])
    {
      var m := messages[i];
      assert messages[..i + 1][..i] == messages[..i];
      match m.role {
        case Assistant =>
          var blocks := Parts(m.content);
          for k := 0 to |m.toolCalls|
            invariant blocks == Parts(m.content) + Uses(m.toolCalls[..k])
          {
            blocks := blocks + [ToolUse(m.toolCalls[k])];
          }
          assert m.toolCalls[..|m.toolCalls|] == m.toolCalls;
          if blocks == [] {
            blocks := [Part(CONTINUING)];
          }
          out := out + [Turn(Assistant, blocks)];
        case User =>
          var blocks: seq<Block> := [];
          for k := 0 to |m.toolResults|
            invariant blocks == AnswerBlocks(m.toolResults[..k])
          {
            blocks := blocks + [AnswerBlock(m.toolResults[k])];
          }
          assert m.toolResults[..|m.toolResults|] == m.toolResults;
          blocks := blocks + Parts(m.content);
          assert out + [] == out;
          if blocks != [] {
            out := out + [Turn(User, blocks)];
          }
      }
    }
    assert messages[..|messages|] == messages;
  }

  // ------------------------------------------------------------------ what the API asks of the turns

  /** The first blocks of a user turn answer `calls`, one each and in order, and no other block is an answer. */
  ghost predicate AnswersFirst(calls: seq<Block>, blocks: seq<Block>) {
    && |calls| <= |blocks|
    && (forall i :: 0 <= i < |calls| ==> (
          && calls[i].ToolUse? && blocks[i].ToolAnswer?
          && blocks[i].toolUseId == calls[i].call.id && blocks[i].content != []))
    && (forall i :: |calls| <= i < |blocks| ==> blocks[i].Part?)
  }

  /** Parts, then only tool uses. */
  function UsesIn(blocks: seq<Block>): (uses: seq<Block>)
    ensures forall i :: 0 <= i < |uses| ==> uses[i].ToolUse?
  {
    if blocks == [] || !blocks[|blocks| - 1].ToolUse? then [] else UsesIn(blocks[..|blocks| - 1]) + [blocks[|blocks| - 1]]
  }

  ghost predicate PartsThenUses(blocks: seq<Block>) {
    forall k :: 0 <= k < |blocks| - |UsesIn(blocks)| ==> blocks[k].Part?
  }

  /** Turns alternate, and each one's tool uses come last and are answered first in the next. */
  ghost predicate InOrder(turns: seq<Turn>) {
    && |turns| % 2 == 1
    && (forall i :: 0 <= i < |turns| ==> turns[i].content != [] && turns[i].role == (if i % 2 == 0 then User else Assistant))
    && AnswersFirst([], turns[0].content)
    && (forall i :: 0 <= i < |turns| && i % 2 == 1 ==>
          PartsThenUses(turns[i].content) && AnswersFirst(UsesIn(turns[i].content), turns[i + 1].content))
  }

  ghost predicate HasBlank(content: seq<ContentPart>) {
    exists i :: 0 <= i < |content| && content[i] == Text("")
  }

  ghost predicate IsBlank(b: Block) {
    match b
    case Part(part) => part == Text("")
    case ToolUse(_) => false
    case ToolAnswer(_, content, _) => HasBlank(content)
  }

  ghost predicate AnyBlank(blocks: seq<Block>) {
    exists i :: 0 <= i < |blocks| && IsBlank(blocks[i])
  }

  /** Besides the order, no turn is empty and no text in it, its answers included, is the empty one. */
  ghost predicate Acceptable(turns: seq<Turn>) {
    InOrder(turns) && forall i :: 0 <= i < |turns| ==> !AnyBlank(turns[i].content)
  }

  lemma {:induction false} UsesComeLast(content: seq<ContentPart>, calls: seq<ToolCall>)
    ensures UsesIn(Parts(content) + Uses(calls)) == Uses(calls)
  {
    var blocks := Parts(content) + Uses(calls);
    if calls == [] {
      assert blocks == Parts(content);
    } else {
      var n := |calls| - 1;
      UsesComeLast(content, calls[..n]);
      assert blocks[..|blocks| - 1] == Parts(content) + Uses(calls[..n]);
      assert Uses(calls) == Uses(calls[..n]) + [ToolUse(calls[n])];
    }
  }

  /** What a turn says: nothing is dropped but the answered tool's name, and empty turns and answers get a stand-in. */
  function Expected(m: Message): Message {
    match m.role
    case Assistant =>
      Message(Assistant, if m.content == [] && m.toolCalls == [] then [Text("(continuing)")] else m.content, m.toolCalls, [])
    case User =>
      Message(User, m.content, [], Echoes(m.toolResults))
  }

  function Echo(r: ToolResult): ToolResult {
    ToolResult(r.callId, "", if r.content == [] then [Text("(no output)")] else r.content, r.isError)
  }

  function Echoes(results: seq<ToolResult>): seq<ToolResult> {
    if results == [] then [] else [Echo(results[0])] + Echoes(results[1..])
  }

  /** A reader of the wire format: the parts, calls and answers of a turn, each in order. */
  function ReadParts(blocks: seq<Block>): seq<ContentPart> {
    if blocks == [] then []
    else (if blocks[0].Part? then [blocks[0].part] else []) + ReadParts(blocks[1..])
  }

  function ReadCalls(blocks: seq<Block>): seq<ToolCall> {
    if blocks == [] then []
    else (if blocks[0].ToolUse? then [blocks[0].call] else []) + ReadCalls(blocks[1..])
  }

  function ReadResults(blocks: seq<Block>): seq<ToolResult> {
    if blocks == [] then []
    else
      var b := blocks[0];
      (if b.ToolAnswer? then [ToolResult(b.toolUseId, "", b.content, b.isError)] else []) + ReadResults(blocks[1..])
  }

  function Read(t: Turn): Message {
    Message(t.role, ReadParts(t.content), ReadCalls(t.content), ReadResults(t.content))
  }

  lemma {:induction false} ReadAssistant(content: seq<ContentPart>, calls: seq<ToolCall>)
    ensures Read(Turn(Assistant, Parts(content) + Uses(calls))) == Message(Assistant, content, calls, [])
  {
    var blocks := Parts(content) + Uses(calls);
    if content != [] {
      ReadAssistant(content[1..], calls);
      assert blocks[1..] == Parts(content[1..]) + Uses(calls);
    } else if calls != [] {
      ReadAssistant(content, calls[1..]);
      assert blocks[1..] == Parts(content) + Uses(calls[1..]);
    }
  }

  lemma {:induction false} ReadUser(results: seq<ToolResult>, content: seq<ContentPart>)
    ensures Read(Turn(User, AnswerBlocks(results) + Parts(content))) == Message(User, content, [], Echoes(results))
  {
    var blocks := AnswerBlocks(results) + Parts(content);
    if results == [] {
      ReadAssistant(content, []);
      assert blocks == Parts(content) + Uses([]);
    } else {
      hide AnswerBlocks, Parts;
      ReadUser(results[1..], content);
      AnswerBlocksSplit(results);
      var rest := AnswerBlocks(results[1..]) + Parts(content);
      assert blocks == [AnswerBlock(results[0])] + rest;
      assert blocks[1..] == rest;
    }
  }

  lemma AnswerBlocksSplit(results: seq<ToolResult>)
    requires results != []
    ensures AnswerBlocks(results) == [AnswerBlock(results[0])] + AnswerBlocks(results[1..])
  {
  }

  lemma {:induction false} OneTurnEach(ms: seq<Message>, i: nat)
    requires forall k :: 0 <= k < |ms| ==> |Translated(ms[k])| == 1
    requires i < |ms|
    ensures |Converted(ms)| == |ms| && Converted(ms)[i] == Translated(ms[i])[0]
  {
    hide Translated;
    var n := |ms| - 1;
    if n > 0 {
      OneTurnEach(ms[..n], if i < n then i else 0);
    }
  }

  lemma NothingSkipped(ms: seq<Message>)
    requires WellFormed(ms)
    ensures forall k :: 0 <= k < |ms| ==> |Translated(ms[k])| == 1
  {
  }

  /** One turn per message, in order, and reading a turn gives its message back. */
  lemma ReadsBack(ms: seq<Message>, i: nat)
    requires WellFormed(ms) && i < |ms|
    ensures |Converted(ms)| == |ms|
    ensures Read(Converted(ms)[i]) == Expected(ms[i])
  {
    hide Read, Expected;
    NothingSkipped(ms);
    OneTurnEach(ms, i);
    ReadsBackOne(ms[i], if i % 2 == 0 then User else Assistant);
  }

  lemma ReadsBackOne(m: Message, role: Role)
    requires if role.User? then IsUserTurn(m) else IsAssistantTurn(m)
    requires |Translated(m)| == 1
    ensures Read(Translated(m)[0]) == Expected(m)
  {
    match role
    case User => ReadUser(m.toolResults, m.content);
    case Assistant => ReadAssistant(if m.content == [] && m.toolCalls == [] then [CONTINUING] else m.content, m.toolCalls);
      if m.content == [] && m.toolCalls == [] {
        assert [Part(CONTINUING)] == Parts([CONTINUING]) + Uses([]);
      }
  }

  /** A well-formed conversation becomes turns in the order the API asks for, none of them empty. */
  lemma WellFormedIsInOrder(ms: seq<Message>)
    requires WellFormed(ms)
    ensures InOrder(Converted(ms))
  {
    hide Translated, UsesIn, HasText, AnswersFirst, PartsThenUses, IsUserTurn, IsAssistantTurn;
    NothingSkipped(ms);
    var out := Converted(ms);
    forall i | 0 <= i < |ms| ensures |out| == |ms| && out[i] == Translated(ms[i])[0] {
      OneTurnEach(ms, i);
    }
    assert |out| == |ms|;
    forall i | 0 <= i < |ms| && i % 2 == 1
      ensures out[i].role == Assistant && out[i].content != []
      ensures UsesIn(out[i].content) == Uses(ms[i].toolCalls) && PartsThenUses(out[i].content)
    {
      AssistantTurnIs(ms[i]);
    }
    UserTurnIs([], ms[0]);
    forall i | 0 <= i < |ms| && i % 2 == 1
      ensures out[i + 1].role == User && out[i + 1].content != []
      ensures AnswersFirst(Uses(ms[i].toolCalls), out[i + 1].content)
    {
      UserTurnIs(ms[i].toolCalls, ms[i + 1]);
    }
    assert Uses([]) == [];
    forall i | 0 <= i < |ms| ensures out[i].content != [] && out[i].role == (if i % 2 == 0 then User else Assistant) {
      if i > 0 && i % 2 == 0 {
        var j := i - 1;
        assert AnswersFirst(Uses(ms[j].toolCalls), out[j + 1].content);
      }
    }
  }

  lemma AssistantTurnIs(m: Message)
    requires IsAssistantTurn(m) && |Translated(m)| == 1
    ensures var t := Translated(m)[0];
            && t.role == Assistant && t.content != [] && UsesIn(t.content) == Uses(m.toolCalls) && PartsThenUses(t.content)
  {
    UsesComeLast(m.content, m.toolCalls);
  }

  lemma UserTurnIs(calls: seq<ToolCall>, m: Message)
    requires IsUserTurn(m) && Answers(calls, m.toolResults) && |Translated(m)| == 1
    ensures var t := Translated(m)[0];
            && t.role == User && t.content != [] && AnswersFirst(Uses(calls), t.content)
  {
  }

  /** A message with an empty text in its content or in an answer. */
  ghost predicate Hollow(m: Message) {
    HasBlank(m.content) || exists i :: 0 <= i < |m.toolResults| && HasBlank(m.toolResults[i].content)
  }

  lemma AnyBlankConcat(a: seq<Block>, b: seq<Block>)
    ensures AnyBlank(a + b) <==> AnyBlank(a) || AnyBlank(b)
  {
    hide IsBlank;
    if AnyBlank(a) {
      var i :| 0 <= i < |a| && IsBlank(a[i]);
      assert (a + b)[i] == a[i];
    }
    if AnyBlank(b) {
      var i :| 0 <= i < |b| && IsBlank(b[i]);
      assert (a + b)[|a| + i] == b[i];
    }
  }

  lemma BlankParts(content: seq<ContentPart>, calls: seq<ToolCall>)
    ensures AnyBlank(Parts(content)) <==> HasBlank(content)
    ensures !AnyBlank(Uses(calls)) && !AnyBlank([Part(CONTINUING)])
  {
    if HasBlank(content) {
      var i :| 0 <= i < |content| && content[i] == Text("");
      assert IsBlank(Parts(content)[i]);
    }
  }

  lemma BlankAnswers(results: seq<ToolResult>)
    ensures AnyBlank(AnswerBlocks(results)) <==> exists i :: 0 <= i < |results| && HasBlank(results[i].content)
  {
    forall i | 0 <= i < |results| ensures IsBlank(AnswerBlocks(results)[i]) <==> HasBlank(results[i].content) {
    }
    if i :| 0 <= i < |results| && HasBlank(results[i].content) {
      assert IsBlank(AnswerBlocks(results)[i]);
    }
  }

  lemma HollowTurn(m: Message)
    requires IsUserTurn(m) || IsAssistantTurn(m)
    requires |Translated(m)| == 1
    ensures AnyBlank(Translated(m)[0].content) <==> Hollow(m)
  {
    hide AnyBlank, HasBlank, Parts, Uses, AnswerBlocks, HasText;
    BlankParts(m.content, m.toolCalls);
    BlankAnswers(m.toolResults);
    AnyBlankConcat(Parts(m.content), Uses(m.toolCalls));
    AnyBlankConcat(AnswerBlocks(m.toolResults), Parts(m.content));
    if m.role.Assistant? && Parts(m.content) + Uses(m.toolCalls) == [] {
      assert Parts(m.content) + Uses(m.toolCalls) == Parts(m.content) + [];
      NoBlankInNothing();
    }
  }

  lemma NoBlankInNothing()
    ensures !AnyBlank([])
  {
  }

  /** The API accepts what a well-formed conversation becomes exactly if none of its messages holds an empty text. */
  lemma AcceptableUnlessHollow(ms: seq<Message>)
    requires WellFormed(ms)
    ensures Acceptable(Converted(ms)) <==> forall i :: 0 <= i < |ms| ==> !Hollow(ms[i])
  {
    hide Translated, HasText, IsUserTurn, IsAssistantTurn, InOrder, AnyBlank, Hollow;
    WellFormedIsInOrder(ms);
    NothingSkipped(ms);
    forall i | 0 <= i < |ms| ensures |Converted(ms)| == |ms| && (AnyBlank(Converted(ms)[i].content) <==> Hollow(ms[i])) {
      OneTurnEach(ms, i);
      assert i % 2 == 0 || i % 2 == 1;
      HollowTurn(ms[i]);
    }
    assert ms != [];
  }
}
