/** Escalating to the next model of a list after repeated failures. */
module Ladder {
  import opened Prelude

  const FAILURES_BEFORE_ESCALATION: nat := 3

  /** The state of a ladder: `index` is the model in use, `failures` the failed steps it has had in a row. */
  datatype State = State(models: seq<string>, index: nat, failures: nat, escalations: nat) {
    predicate Valid() {
      index < |models| && escalations == index
    }

    predicate IsTop() {
      index + 1 >= |models|
    }

    function Current(): string
      requires Valid()
    {
      models[index]
    }

    function Climbed(): State {
      State(models, index + 1, 0, escalations + 1)
    }
  }

  function Start(models: seq<string>): State {
    State(models, 0, 0, 0)
  }

  function AfterSuccess(l: State): State {
    l.(failures := 0)
  }

  function AfterFailure(l: State): State {
    if l.failures + 1 >= FAILURES_BEFORE_ESCALATION && !l.IsTop() then l.Climbed() else l.(failures := l.failures + 1)
  }

  function AfterProviderError(l: State): State {
    if l.IsTop() then l else l.Climbed()
  }

  /** What a caller is told: the new model, if the ladder climbed. */
  function Announced(before: State, after: State): Option<string>
    requires after.Valid()
  {
    if after.index == before.index then None else Some(after.Current())
  }

  class ModelLadder {
    const models: seq<string>
    var index: nat
    var consecutiveFailures: nat
    var escalations: nat

    ghost predicate Valid()
      reads this
    {
      View().Valid()
    }

    ghost function View(): State
      reads this
    {
      State(models, index, consecutiveFailures, escalations)
    }

    constructor (models: seq<string>)
      requires models != []
      ensures Valid() && View() == Start(models)
    {
      this.models := models;
      index, consecutiveFailures, escalations := 0, 0, 0;
    }

    function Current(): (model: string)
      requires Valid()
      reads this
      ensures model == View().Current()
    {
      models[index]
    }

    predicate IsTop()
      reads this
      ensures IsTop() <==> View().IsTop()
    {
      index + 1 >= |models|
    }

    method NoteSuccess()
      requires Valid()
      modifies this
      ensures Valid() && View() == AfterSuccess(old(View()))
    {
      consecutiveFailures := 0;
    }

    method NoteFailure() returns (next: Option<string>)
      requires Valid()
      modifies this
      ensures Valid() && View() == AfterFailure(old(View()))
      ensures next == Announced(old(View()), View())
    {
      consecutiveFailures := consecutiveFailures + 1;
      if consecutiveFailures >= FAILURES_BEFORE_ESCALATION && !IsTop() {
        index := index + 1;
        consecutiveFailures := 0;
        escalations := escalations + 1;
        return Some(Current());
      }
      return None;
    }

    method ForceEscalate() returns (next: Option<string>)
      requires Valid()
      modifies this
      ensures Valid() && View() == AfterProviderError(old(View()))
      ensures next == Announced(old(View()), View())
    {
      if IsTop() {
        return None;
      }
      index := index + 1;
      consecutiveFailures := 0;
      escalations := escalations + 1;
      return Some(Current());
    }
  }

  // ------------------------------------------------------------------ whole histories

  datatype Report = Succeeded | Failed | ProviderError

  function Told(l: State, r: Report): State {
    match r
    case Succeeded => AfterSuccess(l)
    case Failed => AfterFailure(l)
    case ProviderError => AfterProviderError(l)
  }

  function After(models: seq<string>, h: seq<Report>): State {
    if h == [] then Start(models) else Told(After(models, h[..|h| - 1]), h[|h| - 1])
  }

  function IndexAfter(models: seq<string>, h: seq<Report>, k: nat): nat
    requires k <= |h|
  {
    After(models, h[..k]).index
  }

  /** Report `k` was a failure that did not change the model. */
  ghost predicate JustFailed(models: seq<string>, h: seq<Report>, k: nat)
    requires k < |h|
  {
    h[k] == Failed && IndexAfter(models, h, k) == IndexAfter(models, h, k + 1)
  }

  /** Exactly the last `n` reports just failed: there are no more, or the one before them was something else. */
  ghost predicate Streak(models: seq<string>, h: seq<Report>, n: nat) {
    && n <= |h|
    && (forall k :: |h| - n <= k < |h| ==> JustFailed(models, h, k))
    && (n < |h| ==> !JustFailed(models, h, |h| - n - 1))
  }

  lemma OneMoreReport(models: seq<string>, h: seq<Report>, r: Report)
    ensures var h' := h + [r];
            && After(models, h') == Told(After(models, h), r)
            && (forall k :: 0 <= k < |h| ==> (JustFailed(models, h', k) <==> JustFailed(models, h, k)))
            && (JustFailed(models, h', |h|) <==> r == Failed && After(models, h').index == After(models, h).index)
  {
    var n, h' := |h|, h + [r];
    assert h'[..n] == h && h'[..n + 1] == h';
    forall k | 0 <= k <= n ensures h'[..k] == h[..k] {
    }
  }

  /**
   * After any history: a model of the list is in use, every escalation moved one model on, and below the last
   * model the failure count stays under three and is the streak of failures since the last success or escalation.
   */
  lemma {:induction false} HistoryIs(models: seq<string>, h: seq<Report>)
    requires models != []
    ensures var l := After(models, h);
            && l.models == models && l.Valid()
            && (!l.IsTop() ==> l.failures < FAILURES_BEFORE_ESCALATION && Streak(models, h, l.failures))
  {
    hide JustFailed, After;
    if h == [] {
      NoReports(models);
    } else {
      var n := |h| - 1;
      HistoryIs(models, h[..n]);
      OneMoreReport(models, h[..n], h[n]);
      assert h[..n] + [h[n]] == h;
    }
  }

  lemma NoReports(models: seq<string>)
    ensures After(models, []) == Start(models)
  {
  }

  /** Below the last model, the ladder climbs on exactly the third failure of a streak. */
  lemma ClimbsOnTheThird(models: seq<string>, h: seq<Report>)
    requires models != [] && !After(models, h).IsTop()
    ensures var l, l' := After(models, h), After(models, h + [Failed]);
            && (l'.index == l.index + 1 <==> Streak(models, h, 2))
            && (l'.index == l.index <==> !Streak(models, h, 2))
  {
    hide JustFailed, After;
    HistoryIs(models, h);
    OneMoreReport(models, h, Failed);
  }
}
