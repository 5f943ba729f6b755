/** What the agent loop itself says. */
module AgentTexts {
  import opened Prelude
  import T = Text

  datatype ExecutorError = NotConnected | AbortedByUser | CallFailed(message: string)

  datatype ProviderError =
    | Http(detail: string)
    | Status(status: nat, body: string)
    | Malformed(detail: string)
    | RateLimited
    | Unsupported(model: string)
  {
    predicate IsRetryable() {
      match this
      case RateLimited => true
      case Status(status, _) => status >= 500 || status == 429
      case Http(_) => true
      case _ => false
    }
  }

  /** Everything the loop itself says, to the provider, in an event or in an outcome. */
  datatype Phrase =
    | Opening(tab: string, url: string)
    | GoOn
    | UserIsBack
    | WaitingForUser
    | UnknownTool(name: string)
    | NotRequested
    | NoValue
    | Rejected
    | VaultRefused(reason: string)
    | CaptureFailed(fault: ExecutorError)
    | CapturedIt(keyType: string, chars: nat, preview: string, remaining: seq<string>)
    | Exhausted(maxSteps: nat)
    | ModelError(cause: ProviderError)
    | StoppedCalling
    | CannotOpen(fault: ExecutorError)
    | NoRotation

  function Say(p: Phrase): string {
    match p
    case Opening(tab, url) =>
      "The browser tab " + tab + " is open at " + url + ". Begin. Start by reading the page."
    case GoOn =>
      "Continue using tools. When finished call `done`; if blocked call `fail` or `need_user`."
    case UserIsBack =>
      "The user has completed the step. Re-read the page and continue."
    case WaitingForUser =>
      "waiting for user"
    case UnknownTool(name) =>
      "unknown tool " + name
    case NotRequested =>
      "key_type is not part of this request"
    case NoValue =>
      "no value found at that ref (empty). Reveal the key first or use source=\"clipboard\" after clicking Copy."
    case Rejected =>
      "Value rejected: format does not match the expected pattern. Check the element and try again."
    case VaultRefused(e) =>
      "vault refused the value: " + e
    case CaptureFailed(e) =>
      "capture failed: " + ShowExecutorError(e)
    case CapturedIt(keyType, chars, preview, remaining) =>
      "Captured " + keyType + " (" + T.Decimal(chars) + " chars, preview " + preview + "), format OK. Remaining: "
      + (if remaining == [] then "none \U{2014} call done" else T.Join(remaining, ", "))
    case Exhausted(maxSteps) =>
      "step budget (" + T.Decimal(maxSteps) + ") exhausted"
    case ModelError(e) =>
      "model error: " + ShowProviderError(e)
    case StoppedCalling =>
      "model stopped calling tools"
    case CannotOpen(e) =>
      "could not open browser tab: " + ShowExecutorError(e)
    case NoRotation =>
      "暂不支持安全自动轮换：尚无法保证新密钥保存后只撤销对应的旧密钥。未操作浏览器，请手动轮换。"
  }

  function ShowExecutorError(e: ExecutorError): string {
    match e
    case NotConnected => "browser extension not connected"
    case AbortedByUser => "aborted by user"
    case CallFailed(m) => "browser call failed: " + m
  }

  function ShowProviderError(e: ProviderError): string {
    match e
    case Http(d) => "http: " + d
    case Status(status, body) => "provider returned " + T.Decimal(status) + ": " + body
    case Malformed(d) => "bad response: " + d
    case RateLimited => "rate limited"
    case Unsupported(model) => "model " + model + " does not support tool calling or images"
  }

  /** The phrases that become answers or user turns. */
  predicate IsAnswer(p: Phrase) {
    p.Opening? || p.GoOn? || p.UserIsBack? || p.UnknownTool? || p.NoValue? || p.Rejected? || p.VaultRefused?
    || p.CaptureFailed? || p.CapturedIt?
  }

  lemma SaysSomething(p: Phrase)
    requires IsAnswer(p)
    ensures Say(p) != ""
  {
    hide Say;
    match p
    case Opening(_, _) => OpeningSays(p);
    case GoOn => GoOnSays(p);
    case UserIsBack => UserIsBackSays(p);
    case UnknownTool(_) => UnknownToolSays(p);
    case NoValue => NoValueSays(p);
    case Rejected => RejectedSays(p);
    case VaultRefused(_) => VaultRefusedSays(p);
    case CaptureFailed(_) => CaptureFailedSays(p);
    case CapturedIt(_, _, _, _) => CapturedItSays(p);
  }

  lemma OpeningSays(p: Phrase)
    requires p.Opening?
    ensures |Say(p)| > 0
  {
    hide T.Join, T.Decimal, ShowExecutorError, ShowProviderError;
  }

  lemma GoOnSays(p: Phrase)
    requires p.GoOn?
    ensures |Say(p)| > 0
  {
    hide T.Join, T.Decimal, ShowExecutorError, ShowProviderError;
  }

  lemma UserIsBackSays(p: Phrase)
    requires p.UserIsBack?
    ensures |Say(p)| > 0
  {
    hide T.Join, T.Decimal, ShowExecutorError, ShowProviderError;
  }

  lemma UnknownToolSays(p: Phrase)
    requires p.UnknownTool?
    ensures |Say(p)| > 0
  {
    hide T.Join, T.Decimal, ShowExecutorError, ShowProviderError;
  }

  lemma NoValueSays(p: Phrase)
    requires p.NoValue?
    ensures |Say(p)| > 0
  {
    hide T.Join, T.Decimal, ShowExecutorError, ShowProviderError;
  }

  lemma RejectedSays(p: Phrase)
    requires p.Rejected?
    ensures |Say(p)| > 0
  {
    hide T.Join, T.Decimal, ShowExecutorError, ShowProviderError;
  }

  lemma VaultRefusedSays(p: Phrase)
    requires p.VaultRefused?
    ensures |Say(p)| > 0
  {
    hide T.Join, T.Decimal, ShowExecutorError, ShowProviderError;
  }

  lemma CaptureFailedSays(p: Phrase)
    requires p.CaptureFailed?
    ensures |Say(p)| > 0
  {
    hide T.Join, T.Decimal, ShowExecutorError, ShowProviderError;
  }

  lemma CapturedItSays(p: Phrase)
    requires p.CapturedIt?
    ensures |Say(p)| > 0
  {
    hide T.Join, T.Decimal, ShowExecutorError, ShowProviderError;
  }

  // ------------------------------------------------------------------ what the texts mention

  /** The parts occur in the text, one after another. */
  ghost predicate Mentions(text: string, parts: seq<string>)
    decreases |parts|
  {
    parts == [] || exists before, rest :: text == before + parts[0] + rest && Mentions(rest, parts[1..])
  }

  lemma MentionsNext(text: string, before: string, part: string, rest: string, parts: seq<string>)
    requires text == before + part + rest && Mentions(rest, parts)
    ensures Mentions(text, [part] + parts)
  {
    var all := [part] + parts;
    assert all[1..] == parts && all[0] == part;
    assert text == before + all[0] + rest;
  }

  lemma MentionsOne(text: string, before: string, part: string, rest: string)
    requires text == before + part + rest
    ensures Mentions(text, [part])
  {
    MentionsNext(text, before, part, rest, []);
    assert [part] + [] == [part];
  }

  /** The first message names the tab and the address. */
  lemma OpeningMentions(tab: string, url: string)
    ensures Mentions(Say(Opening(tab, url)), [tab, url])
  {
    var tail := " is open at " + url + ". Begin. Start by reading the page.";
    MentionsOne(tail, " is open at ", url, ". Begin. Start by reading the page.");
    assert Say(Opening(tab, url)) == "The browser tab " + tab + tail;
    MentionsNext(Say(Opening(tab, url)), "The browser tab ", tab, tail, [url]);
    assert [tab] + [url] == [tab, url];
  }

  lemma Nest(a: string, k: string, b: string, d: string, c: string, p: string, e: string, l: string)
    ensures a + k + b + d + c + p + e + l == a + k + (b + d + (c + p + (e + l)))
  {
  }

  lemma MentionsFour(a: string, k: string, b: string, d: string, c: string, p: string, e: string, l: string, rest: string)
    ensures Mentions(a + k + b + d + c + p + e + (l + rest), [k, d, p, l])
  {
    hide Mentions;
    Nest(a, k, b, d, c, p, e, l + rest);
    var t3 := e + (l + rest);
    assert t3 == e + l + rest;
    MentionsOne(t3, e, l, rest);
    MentionsNext(c + p + t3, c, p, t3, [l]);
    MentionsNext(b + d + (c + p + t3), b, d, c + p + t3, [p] + [l]);
    MentionsNext(a + k + (b + d + (c + p + t3)), a, k, b + d + (c + p + t3), [d] + ([p] + [l]));
    assert [k] + ([d] + ([p] + [l])) == [k, d, p, l];
  }

  lemma NoneLeft()
    ensures "none \U{2014} call done" == "none" + " \U{2014} call done"
  {
  }

  /** An accepted capture is answered with its key, the length and the preview of its value, and what is still missing. */
  lemma CaptureMentions(keyType: string, chars: nat, preview: string, remaining: seq<string>)
    ensures Mentions(Say(CapturedIt(keyType, chars, preview, remaining)),
                     [keyType, T.Decimal(chars), preview, if remaining == [] then "none" else T.Join(remaining, ", ")])
  {
    hide T.Decimal, T.Join, Mentions;
    var last, rest := if remaining == [] then "none" else T.Join(remaining, ", "), if remaining == [] then " \U{2014} call done" else "";
    NoneLeft();
    assert remaining != [] ==> last + rest == last;
    MentionsFour("Captured ", keyType, " (", T.Decimal(chars), " chars, preview ", preview, "), format OK. Remaining: ", last, rest);
  }

  /** Every text about a failure gives its reason. */
  lemma FailuresMention(e: string, fault: ExecutorError, cause: ProviderError, maxSteps: nat, name: string)
    ensures Mentions(Say(VaultRefused(e)), [e])
    ensures Mentions(Say(CaptureFailed(fault)), [ShowExecutorError(fault)])
    ensures Mentions(Say(CannotOpen(fault)), [ShowExecutorError(fault)])
    ensures Mentions(Say(ModelError(cause)), [ShowProviderError(cause)])
    ensures Mentions(Say(Exhausted(maxSteps)), [T.Decimal(maxSteps)])
    ensures Mentions(Say(UnknownTool(name)), [name])
  {
    hide T.Decimal, ShowExecutorError, ShowProviderError, Mentions;
    EndsWith("vault refused the value: ", e);
    EndsWith("capture failed: ", ShowExecutorError(fault));
    EndsWith("could not open browser tab: ", ShowExecutorError(fault));
    EndsWith("model error: ", ShowProviderError(cause));
    EndsWith("unknown tool ", name);
    MentionsOne(Say(Exhausted(maxSteps)), "step budget (", T.Decimal(maxSteps), ") exhausted");
  }

  lemma EndsWith(before: string, part: string)
    ensures Mentions(before + part, [part])
  {
    assert before + part == before + part + "";
    MentionsOne(before + part, before, part, "");
  }

  lemma ProviderErrorsMention(cause: ProviderError)
    ensures match cause
            case Http(detail) => Mentions(ShowProviderError(cause), [detail])
            case Status(status, body) => Mentions(ShowProviderError(cause), [T.Decimal(status), body])
            case Malformed(detail) => Mentions(ShowProviderError(cause), [detail])
            case RateLimited => Mentions(ShowProviderError(cause), ["rate limited"])
            case Unsupported(model) => Mentions(ShowProviderError(cause), [model])
  {
    hide T.Decimal, Mentions;
    match cause
    case Http(detail) => EndsWith("http: ", detail);
    case Status(status, body) =>
      var tail := ": " + body;
      EndsWith(": ", body);
      MentionsNext(ShowProviderError(cause), "provider returned ", T.Decimal(status), tail, [body]);
      assert [T.Decimal(status)] + [body] == [T.Decimal(status), body];
    case Malformed(detail) => EndsWith("bad response: ", detail);
    case RateLimited => EndsWith("", "rate limited");
      assert "" + "rate limited" == "rate limited";
    case Unsupported(model) =>
      MentionsOne(ShowProviderError(cause), "model ", model, " does not support tool calling or images");
  }
}
