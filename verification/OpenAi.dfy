/** The provider-neutral conversation translated for the Chat Completions API. */
module OpenAi {
  import opened Prelude
  import opened Conversation
  import T = Text

  datatype WireCall = WireCall(id: string, name: string, arguments: string)

  datatype WirePart = TextPart(text: string) | ImageUrl(mediaType: string, data: string)

  datatype WireMessage =
    | SystemMessage(text: string)
    | AssistantMessage(content: Option<string>, toolCalls: seq<WireCall>)
    | ToolMessage(callId: string, content': string)
    | UserMessage(parts: seq<WirePart>)

  const NOTE: string := "[screenshot attached in the next message]"
  const ATTACHED: string := "\n" + NOTE
  const SCREENSHOTS: WirePart := TextPart("Screenshot(s) from the tool call(s) above:")

  function TextsOf(content: seq<ContentPart>): seq<string> {
    if content == [] then []
    else TextsOf(content[..|content| - 1]) + (if content[|content| - 1].Text? then [content[|content| - 1].text] else [])
  }

  function AddPart(text: string, c: ContentPart): string {
    match c
    case Text(t) => (if text == "" then "" else text + "\n") + t
    case Image(_, _) => text + ATTACHED
  }

  function ResultText(content: seq<ContentPart>): string {
    if content == [] then "" else AddPart(ResultText(content[..|content| - 1]), content[|content| - 1])
  }

  function Marked(text: string, isError: bool): string {
    if isError && !("ERROR" <= text) then "ERROR: " + text else text
  }

  function PartOf(c: ContentPart): WirePart {
    match c
    case Text(t) => TextPart(t)
    case Image(mediaType, data) => ImageUrl(mediaType, data)
  }

  function PartsOf(content: seq<ContentPart>): seq<WirePart> {
    seq(|content|, i requires 0 <= i < |content| => PartOf(content[i]))
  }

  function ImagesOf(content: seq<ContentPart>): seq<WirePart> {
    if content == [] then []
    else
      var last := content[|content| - 1];
      ImagesOf(content[..|content| - 1]) + (if last.Image? then [PartOf(last)] else [])
  }

  function Deferred(results: seq<ToolResult>): seq<WirePart> {
    if results == [] then [] else Deferred(results[..|results| - 1]) + ImagesOf(results[|results| - 1].content)
  }

  function CallOf(c: ToolCall): WireCall {
    WireCall(c.id, c.name, c.arguments.printed)
  }

  function CallsOf(calls: seq<ToolCall>): seq<WireCall> {
    seq(|calls|, i requires 0 <= i < |calls| => CallOf(calls[i]))
  }

  function ToolOf(r: ToolResult): WireMessage {
    ToolMessage(r.callId, Marked(ResultText(r.content), r.isError))
  }

  function ToolsOf(results: seq<ToolResult>): seq<WireMessage> {
    seq(|results|, i requires 0 <= i < |results| => ToolOf(results[i]))
  }

  function UserParts(m: Message): seq<WirePart> {
    var deferred := Deferred(m.toolResults);
    PartsOf(m.content) + (if deferred == [] then [] else [SCREENSHOTS] + deferred)
  }

  function Translated(m: Message): seq<WireMessage> {
    match m.role
    case Assistant =>
      var text := T.Join(TextsOf(m.content), "\n");
      [AssistantMessage(if text == "" then None else Some(text), CallsOf(m.toolCalls))]
    case User =>
      ToolsOf(m.toolResults) + (if UserParts(m) == [] then [] else [UserMessage(UserParts(m))])
  }

  function Converted(system: string, ms: seq<Message>): seq<WireMessage> {
    if ms == [] then [SystemMessage(system)] else Converted(system, ms[..|ms| - 1]) + Translated(ms[|ms| - 1])
  }

  // ------------------------------------------------------------------ the loops

  method AssistantTexts(content: seq<ContentPart>) returns (texts: seq<string>)
    ensures texts == TextsOf(content)
  {
    texts := [];
    for i := 0 to |content|
      invariant texts == TextsOf(content[..i])
    {
      assert content[..i + 1][..i] == content[..i];
      if content[i].Text? {
        texts := texts + [content[i].text];
      }
    }
    assert content[..|content|] == content;
  }

  method ConvertResult(r: ToolResult, deferred: seq<WirePart>) returns (tool: WireMessage, deferred': seq<WirePart>)
    ensures tool == ToolOf(r) && deferred' == deferred + ImagesOf(r.content)
  {
    var text := "";
    deferred' := deferred;
    for i := 0 to |r.content|
      invariant text == ResultText(r.content[..i])
      invariant deferred' == deferred + ImagesOf(r.content[..i])
    {
      assert r.content[..i + 1][..i] == r.content[..i];
      match r.content[i] {
        case Text(t) =>
          if text != "" {
            text := text + "\n";
          }
          text := text + t;
        case Image(mediaType, data) =>
          deferred' := deferred' + [ImageUrl(mediaType, data)];
          text := text + ATTACHED;
      }
    }
    assert r.content[..|r.content|] == r.content;
    if r.isError && !("ERROR" <= text) {
      text := "ERROR: " + text;
    }
    tool := ToolMessage(r.callId, text);
  }

  method ConvertUser(m: Message) returns (out: seq<WireMessage>)
    requires m.role.User?
    ensures out == Translated(m)
  {
    hide ToolOf, ImagesOf;
    out := [];
    var deferred: seq<WirePart> := [];
    for i := 0 to |m.toolResults|
      invariant out == ToolsOf(m.toolResults[..i]) && deferred == Deferred(m.toolResults[..i])
    {
      assert m.toolResults[..i + 1][..i] == m.toolResults[..i];
      var tool;
      tool, deferred := ConvertResult(m.toolResults[i], deferred);
      out := out + [tool];
    }
    assert m.toolResults[..|m.toolResults|] == m.toolResults;
    var parts: seq<WirePart> := [];
    for i := 0 to |m.content|
      invariant parts == PartsOf(m.content[..i])
    {
      parts := parts + [PartOf(m.content[i])];
    }
    assert m.content[..|m.content|] == m.content;
    if deferred != [] {
      parts := parts + [SCREENSHOTS] + deferred;
    }
    assert parts == UserParts(m);
    if parts != [] {
      out := out + [UserMessage(parts)];
    }
  }

  method ConvertMessages(system: string, messages: seq<Message>) returns (out: seq<WireMessage>)
    ensures out == Converted(system, messages)
  {
    hide UserParts;
    out := [SystemMessage(system)];
    for i := 0 to |messages|
      invariant out == Converted(system, messages[..i])
    {
      var m := messages[i];
      assert messages[..i + 1][..i] == messages[..i];
      match m.role {
        case Assistant =>
          var texts := AssistantTexts(m.content);
          var text := T.Join(texts, "\n");
          out := out + [AssistantMessage(if text == "" then None else Some(text), CallsOf(m.toolCalls))];
        case User =>
          var converted := ConvertUser(m);
          out := out + converted;
      }
    }
    assert messages[..|messages|] == messages;
  }

  // ------------------------------------------------------------------ what the API asks of the messages

  function CallIds(calls: seq<WireCall>): seq<string> {
    seq(|calls|, i requires 0 <= i < |calls| => calls[i].id)
  }

  /**
   * The protocol as a machine: the state is the call ids still to be answered. Only the next one's answer is
   * allowed while there are any, and no answer when there are none.
   */
  function Next(pending: Option<seq<string>>, m: WireMessage): Option<seq<string>> {
    if pending.None? then None
    else
      match m
      case SystemMessage(_) => None
      case AssistantMessage(_, calls) => if pending.value == [] then Some(CallIds(calls)) else None
      case ToolMessage(id, _) => if pending.value != [] && pending.value[0] == id then Some(pending.value[1..]) else None
      case UserMessage(parts) => if pending.value == [] && parts != [] then pending else None
  }

  function Fed(pending: Option<seq<string>>, out: seq<WireMessage>): Option<seq<string>> {
    if out == [] then pending else Next(Fed(pending, out[..|out| - 1]), out[|out| - 1])
  }

  /** The system prompt first, then messages the machine accepts, leaving no call unanswered. */
  ghost predicate InOrder(out: seq<WireMessage>) {
    out != [] && out[0].SystemMessage? && Fed(Some([]), out[1..]) == Some([])
  }

  /** An assistant message has content, or calls, or both. */
  predicate SaysOrCalls(m: WireMessage) {
    m.AssistantMessage? ==> m.content.Some? || m.toolCalls != []
  }

  ghost predicate AnyEmpty(out: seq<WireMessage>) {
    exists i :: 0 <= i < |out| && !SaysOrCalls(out[i])
  }

  ghost predicate Acceptable(out: seq<WireMessage>) {
    InOrder(out) && !AnyEmpty(out)
  }

  lemma {:induction false} FedConcat(pending: Option<seq<string>>, a: seq<WireMessage>, b: seq<WireMessage>)
    ensures Fed(pending, a + b) == Fed(Fed(pending, a), b)
  {
    if b == [] {
      assert a + b == a;
    } else {
      FedConcat(pending, a, b[..|b| - 1]);
      assert (a + b)[..|a + b| - 1] == a + b[..|b| - 1];
    }
  }

  function IdsOf(calls: seq<ToolCall>): seq<string> {
    seq(|calls|, i requires 0 <= i < |calls| => calls[i].id)
  }

  lemma {:induction false} AnswersAreAccepted(calls: seq<ToolCall>, results: seq<ToolResult>, n: nat)
    requires Answers(calls, results) && n <= |results|
    ensures Fed(Some(IdsOf(calls)), ToolsOf(results[..n])) == Some(IdsOf(calls)[n..])
  {
    hide ToolOf;
    if n > 0 {
      AnswersAreAccepted(calls, results, n - 1);
      assert ToolsOf(results[..n])[..n - 1] == ToolsOf(results[..n - 1]);
      ToolOfAnswers(results[n - 1]);
    }
  }

  lemma ToolOfAnswers(r: ToolResult)
    ensures ToolOf(r).ToolMessage? && ToolOf(r).callId == r.callId
  {
  }

  lemma UserTurnIsAccepted(calls: seq<ToolCall>, m: Message)
    requires IsUserTurn(m) && Answers(calls, m.toolResults)
    ensures Translated(m) != [] && Fed(Some(IdsOf(calls)), Translated(m)) == Some([])
  {
    hide UserParts, HasText;
    var tools := ToolsOf(m.toolResults);
    AnswersAreAccepted(calls, m.toolResults, |m.toolResults|);
    assert m.toolResults[..|m.toolResults|] == m.toolResults;
    assert IdsOf(calls)[|calls|..] == [];
    if UserParts(m) == [] {
      assert tools + [] == tools;
      UserPartsAre(m);
    } else {
      FedConcat(Some(IdsOf(calls)), tools, [UserMessage(UserParts(m))]);
      assert [UserMessage(UserParts(m))][..0] == [];
    }
  }

  lemma UserPartsAre(m: Message)
    ensures m.content != [] ==> UserParts(m) != []
    ensures HasText(m.content) ==> m.content != []
  {
  }

  lemma ConvertedStep(system: string, ms: seq<Message>, n: nat)
    requires n < |ms| && Converted(system, ms[..n]) != []
    ensures var before, out := Converted(system, ms[..n]), Converted(system, ms[..n + 1]);
            out == before + Translated(ms[n]) && out[0] == before[0] && out[1..] == before[1..] + Translated(ms[n])
  {
    hide Translated;
    assert ms[..n + 1][..n] == ms[..n];
  }

  /** The calls left unanswered by the first `n` turns. */
  function Unanswered(ms: seq<Message>, n: nat): seq<string>
    requires n <= |ms|
  {
    if n > 0 && n % 2 == 0 then IdsOf(ms[n - 1].toolCalls) else []
  }

  lemma TurnIsAccepted(ms: seq<Message>, n: nat)
    requires WellFormed(ms) && n < |ms|
    ensures Translated(ms[n]) != []
    ensures Fed(Some(Unanswered(ms, n)), Translated(ms[n])) == Some(Unanswered(ms, n + 1))
  {
    hide Translated, IsUserTurn, IsAssistantTurn, HasText, Fed;
    if n % 2 == 1 {
      AssistantTurnIsAccepted(ms[n]);
    } else if n == 0 {
      UserTurnIsAccepted([], ms[0]);
      assert IdsOf([]) == [];
    } else {
      var j := n - 1;
      assert Answers(ms[j].toolCalls, ms[j + 1].toolResults);
      UserTurnIsAccepted(ms[j].toolCalls, ms[n]);
    }
  }

  /** After any prefix of a well-formed conversation, exactly the last assistant turn's calls are unanswered. */
  lemma {:induction false} PrefixIsAccepted(system: string, ms: seq<Message>, n: nat)
    requires WellFormed(ms) && n <= |ms|
    ensures var out := Converted(system, ms[..n]);
            |out| > n && out[0] == SystemMessage(system) && Fed(Some([]), out[1..]) == Some(Unanswered(ms, n))
  {
    hide Translated, WellFormed;
    if n > 0 {
      hide Fed;
      PrefixIsAccepted(system, ms, n - 1);
      TurnIsAccepted(ms, n - 1);
      ConvertedStep(system, ms, n - 1);
      FedConcat(Some([]), Converted(system, ms[..n - 1])[1..], Translated(ms[n - 1]));
    }
  }

  lemma AssistantTurnIsAccepted(m: Message)
    requires IsAssistantTurn(m)
    ensures Translated(m) != [] && Fed(Some([]), Translated(m)) == Some(IdsOf(m.toolCalls))
  {
    var message := Translated(m)[0];
    assert Translated(m) == [message] && [message][..0] == [];
    assert CallIds(CallsOf(m.toolCalls)) == IdsOf(m.toolCalls);
  }

  /** A well-formed conversation becomes messages in the order the API asks for, at least one for every turn. */
  lemma WellFormedIsInOrder(system: string, ms: seq<Message>)
    requires WellFormed(ms)
    ensures InOrder(Converted(system, ms)) && |Converted(system, ms)| > |ms|
  {
    PrefixIsAccepted(system, ms, |ms|);
    assert ms[..|ms|] == ms;
  }

  /** A turn without calls and without text, or with one empty text. */
  predicate Silent(m: Message) {
    m.role.Assistant? && m.toolCalls == [] && (TextsOf(m.content) == [] || TextsOf(m.content) == [""])
  }

  lemma JoinIsEmpty(texts: seq<string>)
    ensures T.Join(texts, "\n") == "" <==> texts == [] || texts == [""]
  {
  }

  /** A turn becomes a message with neither content nor calls exactly if it is silent. */
  lemma SilentTurn(m: Message)
    ensures Silent(m) <==> AnyEmpty(Translated(m))
  {
    hide UserParts, ToolOf;
    if m.role.Assistant? {
      JoinIsEmpty(TextsOf(m.content));
      assert !SaysOrCalls(Translated(m)[0]) <==> Silent(m);
      assert |Translated(m)| == 1;
    } else {
      forall i | 0 <= i < |m.toolResults| ensures ToolOf(m.toolResults[i]).ToolMessage? {
        ToolOfAnswers(m.toolResults[i]);
      }
    }
  }

  ghost predicate AnySilent(ms: seq<Message>) {
    exists i :: 0 <= i < |ms| && Silent(ms[i])
  }

  lemma AnySilentMore(ms: seq<Message>, m: Message)
    ensures AnySilent(ms + [m]) <==> AnySilent(ms) || Silent(m)
  {
    hide Silent;
    if AnySilent(ms) {
      var i :| 0 <= i < |ms| && Silent(ms[i]);
      assert (ms + [m])[i] == ms[i];
    }
    assert (ms + [m])[|ms|] == m;
  }

  lemma AnyEmptyConcat(a: seq<WireMessage>, b: seq<WireMessage>)
    ensures AnyEmpty(a + b) <==> AnyEmpty(a) || AnyEmpty(b)
  {
    hide SaysOrCalls;
    if AnyEmpty(a) {
      var i :| 0 <= i < |a| && !SaysOrCalls(a[i]);
      assert (a + b)[i] == a[i];
    }
    if AnyEmpty(b) {
      var i :| 0 <= i < |b| && !SaysOrCalls(b[i]);
      assert (a + b)[|a| + i] == b[i];
    }
  }

  lemma SystemSpeaks(system: string)
    ensures !AnyEmpty([SystemMessage(system)])
  {
  }

  lemma {:induction false} SilentAmong(system: string, ms: seq<Message>)
    ensures AnySilent(ms) <==> AnyEmpty(Converted(system, ms))
  {
    hide Translated, Silent, SaysOrCalls;
    if ms == [] {
      SystemSpeaks(system);
    } else {
      var n := |ms| - 1;
      assert ms[..n] + [ms[n]] == ms;
      SilentAmong(system, ms[..n]);
      SilentTurn(ms[n]);
      AnySilentMore(ms[..n], ms[n]);
      AnyEmptyConcat(Converted(system, ms[..n]), Translated(ms[n]));
    }
  }

  /** The API accepts what a well-formed conversation becomes exactly if none of its turns is silent. */
  lemma AcceptableUnlessSilent(system: string, ms: seq<Message>)
    requires WellFormed(ms)
    ensures Acceptable(Converted(system, ms)) <==> !AnySilent(ms)
  {
    hide WellFormed, InOrder, AnySilent, AnyEmpty;
    WellFormedIsInOrder(system, ms);
    SilentAmong(system, ms);
  }

  // ------------------------------------------------------------------ what the messages say

  /** The parts from the first one that is not an empty text. */
  function Saying(content: seq<ContentPart>): seq<ContentPart> {
    if content != [] && content[0] == Text("") then Saying(content[1..]) else content
  }

  function Line(c: ContentPart): string {
    match c
    case Text(t) => t
    case Image(_, _) => "[screenshot attached in the next message]"
  }

  function LinesOf(content: seq<ContentPart>): (r: seq<string>)
    ensures |r| == |content| && forall i :: 0 <= i < |r| ==> r[i] == Line(content[i])
  {
    seq(|content|, i requires 0 <= i < |content| => Line(content[i]))
  }

  /** An answer's text has one line for each part, a note standing for an image; empty texts at the start are no lines,
      and a note is never the first line. */
  function AnswerText(content: seq<ContentPart>): string {
    var parts := Saying(content);
    (if parts != [] && parts[0].Image? then "\n" else "") + T.Join(LinesOf(parts), "\n")
  }

  lemma {:induction false} SayingMore(content: seq<ContentPart>, c: ContentPart)
    ensures Saying(content + [c]) == if Saying(content) == [] then Saying([c]) else Saying(content) + [c]
  {
    if content == [] {
      assert content + [c] == [c];
    } else if content[0] == Text("") {
      assert (content + [c])[1..] == content[1..] + [c];
      SayingMore(content[1..], c);
    }
  }

  lemma SayingOne(c: ContentPart)
    ensures Saying([c]) == if c == Text("") then [] else [c]
  {
    assert [c][1..] == [];
  }

  lemma JoinLines(parts: seq<ContentPart>, c: ContentPart)
    ensures T.Join(LinesOf([c]), "\n") == Line(c)
    ensures parts != [] ==> T.Join(LinesOf(parts + [c]), "\n") == T.Join(LinesOf(parts), "\n") + "\n" + Line(c)
  {
    hide T.Join, Line;
    assert LinesOf([c]) == [Line(c)];
    JoinOne(Line(c));
    if parts != [] {
      assert LinesOf(parts + [c]) == LinesOf(parts) + [Line(c)];
      T.JoinAppend(LinesOf(parts), "\n", Line(c));
    }
  }

  lemma JoinOne(line: string)
    ensures T.Join([line], "\n") == line && T.Join([], "\n") == ""
  {
  }

  /** The text is empty only if nothing in the answer says anything. */
  lemma NothingSaid(content: seq<ContentPart>)
    ensures AnswerText(content) == "" <==> Saying(content) == []
  {
    var parts := Saying(content);
    SayingStart(content);
    if parts != [] {
      assert LinesOf(parts)[0] == Line(parts[0]);
    }
  }

  lemma {:induction false} SayingStart(content: seq<ContentPart>)
    ensures Saying(content) != [] ==> Saying(content)[0] != Text("")
  {
    if content != [] && content[0] == Text("") {
      SayingStart(content[1..]);
    }
  }

  /** Built part by part, an answer's text is its lines joined. */
  lemma {:induction false} ResultTextIs(content: seq<ContentPart>)
    ensures ResultText(content) == AnswerText(content)
  {
    if content == [] {
      JoinOne("");
      assert LinesOf([]) == [];
    } else {
      var front, c := content[..|content| - 1], content[|content| - 1];
      assert content == front + [c];
      ResultTextIs(front);
      NothingSaid(front);
      AnswerTextMore(front, c);
    }
  }

  lemma AttachedIs(text: string, c: ContentPart)
    ensures AddPart(text, c) == if text == "" && c.Text? then Line(c) else text + "\n" + Line(c)
  {
    hide Line;
    if c.Image? {
      NoteIs(c);
      Regroup(text, "\n", Line(c));
    } else {
      LineIs(c);
    }
  }

  lemma NoteIs(c: ContentPart)
    requires c.Image?
    ensures ATTACHED == "\n" + Line(c)
  {
  }

  lemma LineIs(c: ContentPart)
    requires c.Text?
    ensures Line(c) == c.text
  {
  }

  lemma NoAnswerText(front: seq<ContentPart>)
    requires Saying(front) == []
    ensures AnswerText(front) == ""
  {
    assert LinesOf([]) == [];
  }

  lemma FirstAnswerText(front: seq<ContentPart>, c: ContentPart)
    requires Saying(front) == []
    ensures AnswerText(front + [c]) == if c.Image? then "\n" + Line(c) else Line(c)
  {
    hide T.Join, Saying;
    SayingMore(front, c);
    SayingOne(c);
    JoinLines([], c);
    if c == Text("") {
      NoAnswerText(front + [c]);
    }
  }

  lemma NextAnswerText(front: seq<ContentPart>, c: ContentPart)
    requires Saying(front) != []
    ensures AnswerText(front + [c]) == AnswerText(front) + "\n" + Line(c)
  {
    hide T.Join, Saying, Line;
    SayingMore(front, c);
    var parts := Saying(front);
    JoinLines(parts, c);
    assert (parts + [c])[0] == parts[0];
    var start, lines := if parts[0].Image? then "\n" else "", T.Join(LinesOf(parts), "\n");
    assert start + (lines + "\n" + Line(c)) == start + lines + "\n" + Line(c);
  }

  lemma AnswerTextMore(front: seq<ContentPart>, c: ContentPart)
    ensures AnswerText(front + [c]) == AddPart(AnswerText(front), c)
  {
    hide AnswerText, Saying, Line, AddPart;
    NothingSaid(front);
    AttachedIs(AnswerText(front), c);
    if Saying(front) == [] {
      FirstAnswerText(front, c);
      assert "" + "\n" + Line(c) == "\n" + Line(c);
    } else {
      NextAnswerText(front, c);
    }
  }

  datatype Said =
    | Instructs(text: string)
    | Says(words: Option<string>)
    | Calls(id: string, name: string, arguments: string)
    | Replies(callId: string, text: string)
    | Shows(part: ContentPart)

  /** A reader of the wire format: everything the messages say, in order. */
  function HeardIn(m: WireMessage): seq<Said> {
    match m
    case SystemMessage(text) => [Instructs(text)]
    case AssistantMessage(content, calls) => [Says(content)] + CallsIn(calls)
    case ToolMessage(id, text) => [Replies(id, text)]
    case UserMessage(parts) => ShownIn(parts)
  }

  function CallsIn(calls: seq<WireCall>): (r: seq<Said>)
    ensures |r| == |calls| && forall i :: 0 <= i < |r| ==> r[i] == Calls(calls[i].id, calls[i].name, calls[i].arguments)
  {
    seq(|calls|, i requires 0 <= i < |calls| => Calls(calls[i].id, calls[i].name, calls[i].arguments))
  }

  function ShownIn(parts: seq<WirePart>): (r: seq<Said>)
    ensures |r| == |parts| && forall i :: 0 <= i < |r| ==> r[i] == Shows(PartBack(parts[i]))
  {
    seq(|parts|, i requires 0 <= i < |parts| => Shows(PartBack(parts[i])))
  }

  function PartBack(p: WirePart): ContentPart {
    match p
    case TextPart(t) => Text(t)
    case ImageUrl(mediaType, data) => Image(mediaType, data)
  }

  function Heard(out: seq<WireMessage>): seq<Said> {
    if out == [] then [] else Heard(out[..|out| - 1]) + HeardIn(out[|out| - 1])
  }

  /** What a turn has to say: an assistant's texts, a line each, and its calls; a user's answers to calls, then the
      turn's own content, then the images of the answers under a heading. */
  function ToSay(m: Message): seq<Said> {
    match m.role
    case Assistant =>
      var text := T.Join(TextsOf(m.content), "\n");
      [Says(if text == "" then None else Some(text))] + MadeCalls(m.toolCalls)
    case User =>
      var images := AnswerImages(m.toolResults);
      GivenAnswers(m.toolResults) + Shown(m.content)
      + if images == [] then [] else [Shows(Text("Screenshot(s) from the tool call(s) above:"))] + Shown(images)
  }

  function MadeCalls(calls: seq<ToolCall>): (r: seq<Said>)
    ensures |r| == |calls| && forall i :: 0 <= i < |r| ==> r[i] == Calls(calls[i].id, calls[i].name, calls[i].arguments.printed)
  {
    seq(|calls|, i requires 0 <= i < |calls| => Calls(calls[i].id, calls[i].name, calls[i].arguments.printed))
  }

  /** A failed answer says so: it gets a mark unless it already starts with one. */
  function GivenAnswer(r: ToolResult): Said {
    var text := AnswerText(r.content);
    Replies(r.callId, if r.isError && !("ERROR" <= text) then "ERROR: " + text else text)
  }

  function GivenAnswers(results: seq<ToolResult>): (r: seq<Said>)
    ensures |r| == |results| && forall i :: 0 <= i < |r| ==> r[i] == GivenAnswer(results[i])
  {
    seq(|results|, i requires 0 <= i < |results| => GivenAnswer(results[i]))
  }

  function Shown(content: seq<ContentPart>): (r: seq<Said>)
    ensures |r| == |content| && forall i :: 0 <= i < |r| ==> r[i] == Shows(content[i])
  {
    seq(|content|, i requires 0 <= i < |content| => Shows(content[i]))
  }

  function ImagesIn(content: seq<ContentPart>): seq<ContentPart> {
    if content == [] then [] else (if content[0].Image? then [content[0]] else []) + ImagesIn(content[1..])
  }

  function AnswerImages(results: seq<ToolResult>): seq<ContentPart> {
    if results == [] then [] else ImagesIn(results[0].content) + AnswerImages(results[1..])
  }

  lemma {:induction false} HeardConcat(a: seq<WireMessage>, b: seq<WireMessage>)
    ensures Heard(a + b) == Heard(a) + Heard(b)
  {
    hide HeardIn;
    if b == [] {
      assert a + b == a;
    } else {
      HeardConcat(a, b[..|b| - 1]);
      assert (a + b)[..|a + b| - 1] == a + b[..|b| - 1];
    }
  }

  lemma HeardOne(m: WireMessage)
    ensures Heard([m]) == HeardIn(m)
  {
    assert [m][..0] == [];
    assert Heard([]) + HeardIn(m) == HeardIn(m);
  }

  lemma {:induction false} ImagesInConcat(a: seq<ContentPart>, b: seq<ContentPart>)
    ensures ImagesIn(a + b) == ImagesIn(a) + ImagesIn(b)
  {
    if a == [] {
      assert a + b == b;
    } else {
      ImagesInConcat(a[1..], b);
      assert (a + b)[1..] == a[1..] + b;
    }
  }

  lemma {:induction false} AnswerImagesConcat(a: seq<ToolResult>, b: seq<ToolResult>)
    ensures AnswerImages(a + b) == AnswerImages(a) + AnswerImages(b)
  {
    hide ImagesIn;
    if a == [] {
      assert a + b == b;
    } else {
      AnswerImagesConcat(a[1..], b);
      assert (a + b)[1..] == a[1..] + b;
      Regroup(ImagesIn(a[0].content), AnswerImages(a[1..]), AnswerImages(b));
    }
  }

  lemma {:induction false} ImagesAreShown(content: seq<ContentPart>)
    ensures ShownIn(ImagesOf(content)) == Shown(ImagesIn(content))
  {
    if content != [] {
      var front, c := content[..|content| - 1], content[|content| - 1];
      assert content == front + [c];
      ImagesAreShown(front);
      ImagesInConcat(front, [c]);
      assert [c][1..] == [];
      assert ImagesIn([c]) == if c.Image? then [c] else [];
    }
  }

  lemma NoAnswerImages()
    ensures ShownIn([]) == Shown(AnswerImages([]))
  {
  }

  lemma AnswerImagesOne(r: ToolResult)
    ensures AnswerImages([r]) == ImagesIn(r.content)
  {
    assert [r][1..] == [];
  }

  lemma ShownConcat(a: seq<WirePart>, b: seq<WirePart>, c: seq<ContentPart>, d: seq<ContentPart>)
    requires ShownIn(a) == Shown(c) && ShownIn(b) == Shown(d)
    ensures ShownIn(a + b) == Shown(c + d)
  {
    assert ShownIn(a + b) == ShownIn(a) + ShownIn(b);
    assert Shown(c + d) == Shown(c) + Shown(d);
  }

  lemma {:induction false} DeferredAreShown(results: seq<ToolResult>)
    ensures ShownIn(Deferred(results)) == Shown(AnswerImages(results))
  {
    hide ImagesOf, ImagesIn, ShownIn, Shown, AnswerImages;
    if results == [] {
      NoAnswerImages();
    } else {
      var front, r := results[..|results| - 1], results[|results| - 1];
      assert results == front + [r];
      DeferredAreShown(front);
      ImagesAreShown(r.content);
      AnswerImagesConcat(front, [r]);
      AnswerImagesOne(r);
      ShownConcat(Deferred(front), ImagesOf(r.content), AnswerImages(front), ImagesIn(r.content));
    }
  }

  lemma AnswerIsHeard(r: ToolResult)
    ensures HeardIn(ToolOf(r)) == [GivenAnswer(r)]
  {
    hide AnswerText, ResultText;
    ResultTextIs(r.content);
  }

  lemma {:induction false} AnswersAreHeard(results: seq<ToolResult>)
    ensures Heard(ToolsOf(results)) == GivenAnswers(results)
  {
    hide GivenAnswer, ToolOf, HeardIn;
    if results != [] {
      var n := |results| - 1;
      AnswersAreHeard(results[..n]);
      assert ToolsOf(results)[..n] == ToolsOf(results[..n]);
      AnswerIsHeard(results[n]);
      assert GivenAnswers(results) == GivenAnswers(results[..n]) + [GivenAnswer(results[n])];
    }
  }

  lemma UserMessageIsHeard(m: Message)
    ensures var images := AnswerImages(m.toolResults);
            Heard(if UserParts(m) == [] then [] else [UserMessage(UserParts(m))])
            == Shown(m.content) + if images == [] then [] else [Shows(Text("Screenshot(s) from the tool call(s) above:"))] + Shown(images)
  {
    hide Deferred, AnswerImages, ImagesIn;
    DeferredAreShown(m.toolResults);
    var images, deferred := AnswerImages(m.toolResults), Deferred(m.toolResults);
    assert images == [] <==> deferred == [] by {
      assert |Shown(images)| == |ShownIn(deferred)|;
    }
    HeardOne(UserMessage(UserParts(m)));
    assert ShownIn(PartsOf(m.content)) == Shown(m.content);
    assert ShownIn([SCREENSHOTS] + deferred) == [Shows(Text("Screenshot(s) from the tool call(s) above:"))] + ShownIn(deferred);
  }

  lemma TurnIsHeard(m: Message)
    ensures Heard(Translated(m)) == ToSay(m)
  {
    match m.role
    case Assistant => AssistantIsHeard(m);
    case User => UserIsHeard(m);
  }

  lemma AssistantIsHeard(m: Message)
    requires m.role.Assistant?
    ensures Heard(Translated(m)) == ToSay(m)
  {
    hide T.Join, TextsOf;
    HeardOne(Translated(m)[0]);
    assert Translated(m) == [Translated(m)[0]];
    assert CallsIn(CallsOf(m.toolCalls)) == MadeCalls(m.toolCalls);
  }

  lemma UserIsHeard(m: Message)
    requires m.role.User?
    ensures Heard(Translated(m)) == ToSay(m)
  {
    hide UserParts, AnswerImages, ToolsOf, GivenAnswers, Shown, Heard;
    AnswersAreHeard(m.toolResults);
    UserMessageIsHeard(m);
    HeardConcat(ToolsOf(m.toolResults), if UserParts(m) == [] then [] else [UserMessage(UserParts(m))]);
    Regroup(GivenAnswers(m.toolResults), Shown(m.content),
      if AnswerImages(m.toolResults) == [] then []
      else [Shows(Text("Screenshot(s) from the tool call(s) above:"))] + Shown(AnswerImages(m.toolResults)));
  }

  function AllToSay(ms: seq<Message>): seq<Said> {
    if ms == [] then [] else AllToSay(ms[..|ms| - 1]) + ToSay(ms[|ms| - 1])
  }

  /** Reading the messages gives back, in order, the prompt and everything the turns have to say, and nothing else: texts,
      calls with their names and printed arguments, answers by the id of their call, and images. */
  lemma {:induction false} ReadsBack(system: string, ms: seq<Message>)
    ensures Heard(Converted(system, ms)) == [Instructs(system)] + AllToSay(ms)
  {
    hide Translated, ToSay, Heard, HeardIn;
    if ms == [] {
      HeardSystem(system);
    } else {
      var n := |ms| - 1;
      ReadsBack(system, ms[..n]);
      TurnIsHeard(ms[n]);
      HeardConcat(Converted(system, ms[..n]), Translated(ms[n]));
      Regroup([Instructs(system)], AllToSay(ms[..n]), ToSay(ms[n]));
    }
  }

  lemma HeardSystem(system: string)
    ensures Heard([SystemMessage(system)]) == [Instructs(system)]
  {
    HeardOne(SystemMessage(system));
  }
}
