/**
 * Matching responses to calls on one connection. Callers, their timeouts, the reader and the writer take their
 * atomic steps in any order.
 */
module Peer {
  import opened Prelude

  datatype RpcError = RpcError(code: string, message: string)

  type Reply = Result<string, RpcError>

  const CONNECTION_CLOSED: RpcError := RpcError("unavailable", "connection closed")

  /** A parsed line from the remote side: which members it has, and what they hold. */
  datatype Incoming = Incoming(isRequest: bool, id: Option<nat>, error: Option<Option<RpcError>>, result: Option<string>)

  /** The reply a line carries to one of our calls, if it is a response with a numeric id. */
  function ReplyIn(m: Incoming): Option<(nat, Reply)> {
    if m.isRequest || m.id.None? then None
    else
      match m.error
      case Some(Some(e)) => Some((m.id.value, Err(e)))
      case Some(None) => Some((m.id.value, Err(RpcError("internal", "malformed error"))))
      case None => Some((m.id.value, Ok(if m.result.Some? then m.result.value else "null")))
  }

  datatype Ending = Answered(reply: Reply) | ChannelClosed | SendFailed | TimedOut

  /** How far a call has come. `Leaving` is about to take its entry out of the table. */
  datatype Call =
    | New
    | Numbered(id: nat)
    | Listed(id: nat)
    | Waiting(id: nat)
    | Leaving(id: nat, ending: Ending)
    | Ended(id: nat, ending: Ending)

  /**
   * `pending` maps an id to the call that holds the other end of its channel, `replies` an id to what was sent down
   * that channel. `received` is every reply read so far, `late` the ids listed after the reader had gone.
   */
  datatype State = State(
    nextId: nat,
    calls: seq<Call>,
    pending: map<nat, nat>,
    replies: map<nat, Reply>,
    reading: bool,
    writing: bool,
    received: seq<(nat, Reply)>,
    late: set<nat>)

  datatype Step =
    | TakeNumber(c: nat)
    | Register(c: nat)
    | Send(c: nat)
    | Receive(c: nat)
    | Expire(c: nat)
    | Leave(c: nat)
    | Read(m: Incoming)
    | FailAll
    | StopWriter

  function Initially(n: nat): State {
    State(1, seq(n, _ => New), map[], map[], true, true, [], {})
  }

  /** `resolve`: the entry is taken out and its channel fed, unless there is none. */
  function Resolved(s: State, id: nat, reply: Reply): State {
    if id in s.pending then s.(pending := s.pending - {id}, replies := s.replies[id := reply]) else s
  }

  /** `fail_all`: every entry is taken out and its channel fed. */
  function Drained(s: State): State {
    s.(pending := map[], replies := map id | id in s.replies.Keys + s.pending.Keys ::
        if id in s.pending then Err(CONNECTION_CLOSED) else s.replies[id])
  }

  function With(s: State, c: nat, call: Call): State
    requires c < |s.calls|
  {
    s.(calls := s.calls[c := call])
  }

  /** A step that is not possible in a state leaves it as it is. */
  function Next(s: State, step: Step): State {
    match step
    case TakeNumber(c) =>
      if c < |s.calls| && s.calls[c].New? then With(s, c, Numbered(s.nextId)).(nextId := s.nextId + 1) else s
    case Register(c) =>
      if c < |s.calls| && s.calls[c].Numbered? then
        var id := s.calls[c].id;
        With(s, c, Listed(id)).(pending := s.pending[id := c], late := if s.reading then s.late else s.late + {id})
      else s
    case Send(c) =>
      if c < |s.calls| && s.calls[c].Listed? then
        var id := s.calls[c].id;
        With(s, c, if s.writing then Waiting(id) else Leaving(id, SendFailed))
      else s
    case Receive(c) =>
      if c < |s.calls| && s.calls[c].Waiting? then
        var id := s.calls[c].id;
        if id in s.replies then With(s, c, Ended(id, Answered(s.replies[id])))
        else if id !in s.pending then With(s, c, Ended(id, ChannelClosed))
        else s
      else s
    case Expire(c) =>
      if c < |s.calls| && s.calls[c].Waiting? then With(s, c, Leaving(s.calls[c].id, TimedOut)) else s
    case Leave(c) =>
      if c < |s.calls| && s.calls[c].Leaving? then
        With(s, c, Ended(s.calls[c].id, s.calls[c].ending)).(pending := s.pending - {s.calls[c].id})
      else s
    case Read(m) =>
      if s.reading && ReplyIn(m).Some? then
        var (id, reply) := ReplyIn(m).value;
        Resolved(s.(received := s.received + [(id, reply)]), id, reply)
      else s
    case FailAll => if s.reading then Drained(s).(reading := false) else s
    case StopWriter => s.(writing := false)
  }

  function After(s: State, steps: seq<Step>): State {
    if steps == [] then s else Next(After(s, steps[..|steps| - 1]), steps[|steps| - 1])
  }

  // ------------------------------------------------------------------ the invariant

  /** The call has an entry, or its channel has been fed: nobody else can take it out. */
  predicate InTable(call: Call) {
    call.Listed? || call.Waiting? || call.Leaving?
  }

  ghost predicate CallOk(s: State, call: Call) {
    && (!call.New? ==> 1 <= call.id < s.nextId)
    && (call.Numbered? ==> call.id !in s.pending && call.id !in s.replies)
    && (InTable(call) ==> call.id in s.pending || call.id in s.replies)
    && (call.Leaving? ==> call.ending in {SendFailed, TimedOut})
    && (call.Ended? ==> call.id !in s.pending && !call.ending.ChannelClosed?)
    && (call.Ended? && call.ending.Answered? ==> call.id in s.replies && s.replies[call.id] == call.ending.reply)
  }

  ghost predicate CallsOk(s: State) {
    && (forall c :: 0 <= c < |s.calls| ==> CallOk(s, s.calls[c]))
    && (forall c, d :: 0 <= c < d < |s.calls| && !s.calls[c].New? && !s.calls[d].New? ==> s.calls[c].id != s.calls[d].id)
  }

  ghost predicate TableOk(s: State) {
    && (forall id :: id in s.pending ==> s.pending[id] < |s.calls| && InTable(s.calls[s.pending[id]]) && s.calls[s.pending[id]].id == id)
    && (forall id :: id in s.replies ==> 1 <= id < s.nextId && id !in s.pending)
    && (forall id :: id in s.replies ==>
          (id, s.replies[id]) in s.received || (s.replies[id] == Err(CONNECTION_CLOSED) && !s.reading && id !in s.late))
    && (!s.reading ==> forall id :: id in s.pending ==> id in s.late)
    && (forall id :: id in s.late ==> id < s.nextId && !s.reading && id !in s.replies)
  }

  ghost predicate Inv(s: State) {
    s.nextId >= 1 && CallsOk(s) && TableOk(s)
  }

  lemma InitiallyInv(n: nat)
    ensures Inv(Initially(n))
  {
  }

  lemma TakeNumberKeepsInv(s: State, c: nat)
    requires Inv(s)
    ensures Inv(Next(s, TakeNumber(c)))
  {
  }

  /** A call moves on, under its own id, and stays in the table if it has an entry. */
  lemma WithKeepsInv(s: State, c: nat, call: Call)
    requires Inv(s) && c < |s.calls| && !s.calls[c].New? && !call.New? && call.id == s.calls[c].id
    requires CallOk(s, call) && (call.id in s.pending ==> InTable(call))
    ensures Inv(With(s, c, call))
  {
  }

  lemma CallStepKeepsInv(s: State, step: Step)
    requires Inv(s) && (step.Send? || step.Receive? || step.Expire?)
    ensures Inv(Next(s, step))
  {
    hide CallsOk, TableOk;
    var c := step.c;
    if c < |s.calls| && !s.calls[c].New? {
      var call, id := s.calls[c], s.calls[c].id;
      CallIsOk(s, c);
      match step
      case Send(_) =>
        if call.Listed? {
          WithKeepsInv(s, c, if s.writing then Waiting(id) else Leaving(id, SendFailed));
        }
      case Receive(_) =>
        if call.Waiting? && id in s.replies {
          WithKeepsInv(s, c, Ended(id, Answered(s.replies[id])));
        }
      case Expire(_) =>
        if call.Waiting? {
          WithKeepsInv(s, c, Leaving(id, TimedOut));
        }
    }
  }

  lemma CallIsOk(s: State, c: nat)
    requires Inv(s) && c < |s.calls|
    ensures CallOk(s, s.calls[c])
    ensures !s.calls[c].New? && s.calls[c].id in s.replies ==> s.calls[c].id !in s.pending
  {
  }

  lemma RegisterKeepsInv(s: State, c: nat)
    requires Inv(s)
    ensures Inv(Next(s, Register(c)))
  {
  }

  lemma LeaveKeepsInv(s: State, c: nat)
    requires Inv(s)
    ensures Inv(Next(s, Leave(c)))
  {
  }

  lemma ReadKeepsInv(s: State, m: Incoming)
    requires Inv(s)
    ensures Inv(Next(s, Read(m)))
  {
  }

  lemma FailAllKeepsInv(s: State)
    requires Inv(s)
    ensures Inv(Next(s, FailAll))
  {
  }

  lemma StepKeepsInv(s: State, step: Step)
    requires Inv(s)
    ensures Inv(Next(s, step))
  {
    hide CallsOk, TableOk, Next;
    match step
    case TakeNumber(c) => TakeNumberKeepsInv(s, c);
    case Register(c) => RegisterKeepsInv(s, c);
    case Leave(c) => LeaveKeepsInv(s, c);
    case Read(m) => ReadKeepsInv(s, m);
    case FailAll => FailAllKeepsInv(s);
    case StopWriter => StopWriterKeepsInv(s);
    case _ => CallStepKeepsInv(s, step);
  }

  lemma StopWriterKeepsInv(s: State)
    requires Inv(s)
    ensures Inv(Next(s, StopWriter))
  {
  }

  lemma {:induction false} AfterKeepsInv(n: nat, steps: seq<Step>)
    ensures Inv(After(Initially(n), steps)) && |After(Initially(n), steps).calls| == n
  {
    hide Inv, Next;
    if steps == [] {
      InitiallyInv(n);
    } else {
      AfterKeepsInv(n, steps[..|steps| - 1]);
      StepKeepsInv(After(Initially(n), steps[..|steps| - 1]), steps[|steps| - 1]);
      StepKeepsCalls(After(Initially(n), steps[..|steps| - 1]), steps[|steps| - 1]);
    }
  }

  /** A call's id never changes once it has one, and a call that has ended never ends again. */
  lemma StepKeepsCalls(s: State, step: Step)
    ensures |Next(s, step).calls| == |s.calls|
    ensures forall c :: 0 <= c < |s.calls| && !s.calls[c].New? ==>
              !Next(s, step).calls[c].New? && Next(s, step).calls[c].id == s.calls[c].id
    ensures forall c :: 0 <= c < |s.calls| && s.calls[c].Ended? ==> Next(s, step).calls[c] == s.calls[c]
  {
  }

  // ------------------------------------------------------------------ what the invariant is for

  /** No two calls of a run share an id, and every pending entry belongs to the call, still waiting, that made it. */
  lemma IdsAreNotReused(n: nat, steps: seq<Step>)
    ensures var s := After(Initially(n), steps);
            && (forall c, d :: 0 <= c < d < |s.calls| && !s.calls[c].New? && !s.calls[d].New? ==> s.calls[c].id != s.calls[d].id)
            && (forall id :: id in s.pending ==>
                  s.pending[id] < |s.calls| && InTable(s.calls[s.pending[id]]) && s.calls[s.pending[id]].id == id)
  {
    AfterKeepsInv(n, steps);
  }

  /**
   * A call that was answered got a reply that the remote side sent under its id, or the closing error, and that only
   * if the reader had gone and the call was registered before. No call ever finds its channel dropped.
   */
  lemma AnswersAreOwn(n: nat, steps: seq<Step>, c: nat)
    requires c < |After(Initially(n), steps).calls| && After(Initially(n), steps).calls[c].Ended?
    ensures var s := After(Initially(n), steps);
            var call := s.calls[c];
            && !call.ending.ChannelClosed?
            && (call.ending.Answered? ==>
                  || (call.id, call.ending.reply) in s.received
                  || (call.ending.reply == Err(CONNECTION_CLOSED) && !s.reading && call.id !in s.late))
  {
    AfterKeepsInv(n, steps);
    CallIsOk(After(Initially(n), steps), c);
  }

  /**
   * Once the reader has gone, a call in the table has been answered exactly if it was registered before that. One
   * registered later never is: it can only fail to send or run into its timeout.
   */
  lemma AfterTheReader(n: nat, steps: seq<Step>, c: nat)
    requires var s := After(Initially(n), steps); c < |s.calls| && !s.reading
    ensures var s := After(Initially(n), steps);
            var call := s.calls[c];
            && (InTable(call) ==> (call.id in s.replies <==> call.id !in s.late))
            && (call.Ended? && call.id in s.late ==> call.ending in {SendFailed, TimedOut})
  {
    hide After;
    AfterKeepsInv(n, steps);
    LateOrAnswered(After(Initially(n), steps), c);
  }

  lemma LateOrAnswered(s: State, c: nat)
    requires Inv(s) && c < |s.calls| && !s.reading
    ensures var call := s.calls[c];
            && (InTable(call) ==> (call.id in s.replies <==> call.id !in s.late))
            && (call.Ended? && call.id in s.late ==> call.ending in {SendFailed, TimedOut})
  {
    hide CallsOk;
    CallIsOk(s, c);
  }

  function LateCall(): seq<Step> {
    [TakeNumber(0), FailAll, Register(0), Send(0)]
  }

  /** Such a late call happens: it draws its number, the reader goes, and then it registers and sends. It waits, and nobody will answer. */
  lemma LateCallWaits()
    ensures var s := After(Initially(1), LateCall());
            && s.calls == [Waiting(1)] && !s.reading && 1 in s.late && 1 in s.pending && 1 !in s.replies
            && Next(s, Receive(0)) == s
  {
    var steps := LateCall();
    assert steps[..3][..2] == steps[..2] && steps[..2][..1] == steps[..1] && steps[..1][..0] == [];
    var s1 := Next(Initially(1), TakeNumber(0));
    assert After(Initially(1), steps[..1]) == s1;
    assert s1.calls == [Numbered(1)];
    var s2 := Next(s1, FailAll);
    assert After(Initially(1), steps[..2]) == s2;
    var s3 := Next(s2, Register(0));
    assert After(Initially(1), steps[..3]) == s3;
  }

  /** The call's channel holds the reply: it has ended or will end with that reply, unless its timeout came first. */
  ghost predicate Fed(s: State, c: nat, id: nat, reply: Reply) {
    && id in s.replies && s.replies[id] == reply && c < |s.calls|
    && s.calls[c] in {Listed(id), Waiting(id), Ended(id, Answered(reply)), Leaving(id, TimedOut), Ended(id, TimedOut),
                      Leaving(id, SendFailed), Ended(id, SendFailed)}
  }

  lemma StepKeepsFed(s: State, step: Step, c: nat, id: nat, reply: Reply)
    requires Inv(s) && Fed(s, c, id, reply)
    ensures Fed(Next(s, step), c, id, reply)
  {
    hide CallsOk;
  }

  function From(s: State, steps: seq<Step>): State
    decreases steps
  {
    if steps == [] then s else From(Next(s, steps[0]), steps[1..])
  }

  lemma {:induction false} RunKeepsFed(s: State, steps: seq<Step>, c: nat, id: nat, reply: Reply)
    requires Inv(s) && Fed(s, c, id, reply)
    ensures Inv(From(s, steps)) && Fed(From(s, steps), c, id, reply)
    decreases steps
  {
    hide Fed, Inv, Next;
    if steps != [] {
      StepKeepsInv(s, steps[0]);
      StepKeepsFed(s, steps[0], c, id, reply);
      RunKeepsFed(Next(s, steps[0]), steps[1..], c, id, reply);
    }
  }

  /** What a response tells its call: the error if it has one that can be read, else the result, `null` if it has neither. */
  ghost predicate Means(m: Incoming, reply: Reply) {
    && (m.error.None? && m.result.Some? ==> reply == Ok(m.result.value))
    && (m.error.None? && m.result.None? ==> reply == Ok("null"))
    && (m.error.Some? && m.error.value.Some? ==> reply == Err(m.error.value.value))
    && (m.error.Some? && m.error.value.None? ==> reply == Err(RpcError("internal", "malformed error")))
  }

  /** A line that is a request, has no numeric id, or names no call that waits changes nothing for any call. */
  lemma OtherLinesChangeNothing(s: State, m: Incoming)
    requires m.isRequest || m.id.None? || m.id.value !in s.pending
    ensures var t := Next(s, Read(m));
            t.calls == s.calls && t.pending == s.pending && t.replies == s.replies && t.reading == s.reading && t.writing == s.writing
  {
  }

  /**
   * The first response to a waiting call wins. Whatever is read later, and even if the connection closes: while the call
   * waits, its next look at the channel ends it with what that response says.
   */
  lemma FirstReplyWins(s: State, m: Incoming, steps: seq<Step>, c: nat) returns (reply: Reply)
    requires Inv(s) && s.reading && c < |s.calls| && s.calls[c].Waiting? && s.calls[c].id in s.pending
    requires !m.isRequest && m.id == Some(s.calls[c].id)
    ensures Means(m, reply)
    ensures var t := From(Next(s, Read(m)), steps);
            var id := s.calls[c].id;
            && c < |t.calls|
            && (t.calls[c].Waiting? ==> Next(t, Receive(c)).calls[c] == Ended(id, Answered(reply)))
            && (t.calls[c].Ended? ==> t.calls[c] in {Ended(id, Answered(reply)), Ended(id, TimedOut), Ended(id, SendFailed)})
  {
    hide CallsOk, TableOk;
    reply := ReplyIn(m).value.1;
    StepKeepsInv(s, Read(m));
    RunKeepsFed(Next(s, Read(m)), steps, c, s.calls[c].id, reply);
  }

  function PlainCall(v: string): seq<Step> {
    [TakeNumber(0), Register(0), Send(0), Read(Incoming(false, Some(1), None, Some(v))), Receive(0)]
  }

  /** From the start, a call that is sent and gets a response ends with its result, and leaves nothing behind. */
  lemma PlainCallIsAnswered(v: string)
    ensures var s := From(Initially(1), PlainCall(v));
            s.calls == [Ended(1, Answered(Ok(v)))] && s.pending == map[] && s.nextId == 2 && s.reading && s.writing
  {
    var steps := PlainCall(v);
    var s1 := Next(Initially(1), steps[0]);
    assert s1.calls == [Numbered(1)];
    var s2 := Next(s1, steps[1]);
    assert s2.calls == [Listed(1)] && s2.pending == map[1 := 0];
    var s3 := Next(s2, steps[2]);
    assert s3.calls == [Waiting(1)];
    var s4 := Next(s3, steps[3]);
    assert s4.calls == [Waiting(1)] && 1 in s4.replies && s4.replies[1] == Ok(v) && s4.pending == map[];
    var s5 := Next(s4, steps[4]);
    assert s5.calls == [Ended(1, Answered(Ok(v)))];
    FromStep(Initially(1), steps, 0);
    FromStep(s1, steps, 1);
    FromStep(s2, steps, 2);
    FromStep(s3, steps, 3);
    FromStep(s4, steps, 4);
    assert steps[5..] == [] && steps[0..] == steps;
  }

  lemma FromStep(s: State, steps: seq<Step>, i: nat)
    requires i < |steps|
    ensures From(s, steps[i..]) == From(Next(s, steps[i]), steps[i + 1..])
  {
    hide Next;
    assert steps[i..][1..] == steps[i + 1..];
  }

  // ------------------------------------------------------------------ the shared table

  /** The counter and the table that the clones of a peer share, and the channels its entries hold. */
  class Table {
    var nextId: nat
    var pending: map<nat, nat>
    var replies: map<nat, Reply>

    constructor ()
      ensures nextId == 1 && pending == map[] && replies == map[]
    {
      nextId, pending, replies := 1, map[], map[];
    }

    /** The part of a state that the table holds. */
    ghost predicate Holds(s: State)
      reads this
    {
      nextId == s.nextId && pending == s.pending && replies == s.replies
    }

    method TakeId(ghost s: State, ghost c: nat) returns (id: nat)
      requires Holds(s) && c < |s.calls| && s.calls[c].New?
      modifies this`nextId
      ensures Holds(Next(s, TakeNumber(c))) && Next(s, TakeNumber(c)).calls[c] == Numbered(id)
    {
      id := nextId;
      nextId := nextId + 1;
    }

    method Insert(ghost s: State, c: nat, id: nat)
      requires Holds(s) && c < |s.calls| && s.calls[c] == Numbered(id)
      modifies this`pending
      ensures Holds(Next(s, Register(c)))
    {
      pending := pending[id := c];
    }

    method Remove(ghost s: State, ghost c: nat, id: nat)
      requires Holds(s) && c < |s.calls| && s.calls[c].Leaving? && s.calls[c].id == id
      modifies this`pending
      ensures Holds(Next(s, Leave(c)))
    {
      pending := pending - {id};
    }

    method Resolve(id: nat, reply: Reply)
      modifies this`pending, this`replies
      ensures forall s: State :: old(Holds(s)) ==> Holds(Resolved(s, id, reply))
    {
      if id in pending {
        pending := pending - {id};
        replies := replies[id := reply];
      }
    }

    /** One parsed line: a request goes to the caller's queue, a response without a numeric id is dropped. */
    method Dispatch(ghost s: State, m: Incoming) returns (inbound: bool)
      requires Holds(s) && s.reading
      modifies this`pending, this`replies
      ensures inbound == m.isRequest && Holds(Next(s, Read(m)))
    {
      inbound := m.isRequest;
      if m.isRequest || m.id.None? {
        return;
      }
      match m.error {
        case Some(Some(e)) => Resolve(m.id.value, Err(e));
        case Some(None) => Resolve(m.id.value, Err(RpcError("internal", "malformed error")));
        case None => Resolve(m.id.value, Ok(if m.result.Some? then m.result.value else "null"));
      }
      assert Holds(s.(pending := pending, replies := replies));
    }

    method FailAll(ghost s: State)
      requires Holds(s) && s.reading
      modifies this`pending, this`replies
      ensures Holds(Next(s, Step.FailAll))
    {
      hide PartlyDrained, Drained, InTable;
      NoneDrained(s);
      while pending.Keys != {}
        invariant nextId == s.nextId
        invariant PartlyDrained(s, pending, replies)
        decreases |pending.Keys|
      {
        var id :| id in pending.Keys;
        DrainOne(s, pending, replies, id);
        pending := pending - {id};
        replies := replies[id := Err(CONNECTION_CLOSED)];
      }
      AllDrained(s, pending, replies);
    }
  }

  /** The entries taken out so far have had their channels fed with the closing error. */
  ghost predicate PartlyDrained(s: State, pending: map<nat, nat>, replies: map<nat, Reply>) {
    && (forall id :: id in pending ==> id in s.pending)
    && (forall id :: id in replies <==> id in s.replies || (id in s.pending && id !in pending))
    && (forall id :: id in replies ==>
          if id in s.pending && id !in pending then replies[id] == Err(CONNECTION_CLOSED)
          else id in s.replies && replies[id] == s.replies[id])
  }

  lemma NoneDrained(s: State)
    ensures PartlyDrained(s, s.pending, s.replies)
  {
  }

  lemma DrainOne(s: State, pending: map<nat, nat>, replies: map<nat, Reply>, id: nat)
    requires PartlyDrained(s, pending, replies) && id in pending.Keys
    ensures PartlyDrained(s, pending - {id}, replies[id := Err(CONNECTION_CLOSED)])
    ensures |(pending - {id}).Keys| < |pending.Keys|
  {
    assert (pending - {id}).Keys == pending.Keys - {id};
  }

  lemma AllDrained(s: State, pending: map<nat, nat>, replies: map<nat, Reply>)
    requires PartlyDrained(s, pending, replies) && pending.Keys == {}
    ensures pending == Drained(s).pending && replies == Drained(s).replies && Drained(s).nextId == s.nextId
  {
    assert forall id :: id !in pending.Keys;
    assert replies.Keys == Drained(s).replies.Keys;
  }
}
