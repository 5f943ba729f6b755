/** Any number of injectors running at once: each locks the directory, reads, merges and replaces. */
module Injectors {
  import opened Prelude
  import opened Text
  import opened EnvFile
  import opened EnvMerge
  import opened EnvRewriter

  datatype Pc = Idle | Locked | HasRead(snapshot: Destination) | Replaced | Succeeded | Failed

  datatype Injector = Injector(values: Values, pc: Pc)

  /** `log` records which injectors replaced the file, in order. */
  datatype World = World(file: Destination, holder: Option<nat>, injectors: seq<Injector>, log: seq<nat>)

  function Goto(w: World, p: nat, pc: Pc): World
    requires p < |w.injectors|
  {
    w.(injectors := w.injectors[p := w.injectors[p].(pc := pc)])
  }

  ghost predicate Init(w: World) {
    && w.holder == None && w.log == []
    && forall p :: 0 <= p < |w.injectors| ==> w.injectors[p].pc == Idle
  }

  /** Invalid names are rejected, and the lock may fail, before anything else happens. */
  ghost predicate Reject(w: World, w': World, p: nat)
    requires p < |w.injectors|
  {
    w.injectors[p].pc == Idle && w' == Goto(w, p, Failed)
  }

  ghost predicate Lock(w: World, w': World, p: nat)
    requires p < |w.injectors|
  {
    && w.injectors[p].pc == Idle && w.holder == None && ValidNames(w.injectors[p].values)
    && w' == Goto(w, p, Locked).(holder := Some(p))
  }

  ghost predicate Read(w: World, w': World, p: nat)
    requires p < |w.injectors|
  {
    w.injectors[p].pc == Locked && w' == Goto(w, p, HasRead(w.file))
  }

  /** The rename: the new text is computed from what was read, not from what is there now. */
  ghost predicate Replace(w: World, w': World, p: nat)
    requires p < |w.injectors|
  {
    && w.injectors[p].pc.HasRead? && !w.injectors[p].pc.snapshot.Link?
    && var outcome := Outcome(w.injectors[p].pc.snapshot, w.injectors[p].values);
    && outcome.Ok?
    && w' == Goto(w, p, Replaced).(file := Regular(outcome.value), log := w.log + [p])
  }

  /** The call returns, or the process dies: either way the lock is released. Success is reported only after the rename. */
  ghost predicate Release(w: World, w': World, p: nat, ok: bool)
    requires p < |w.injectors|
  {
    && w.holder == Some(p) && (ok ==> w.injectors[p].pc == Replaced)
    && w' == Goto(w, p, if ok then Succeeded else Failed).(holder := None)
  }

  ghost predicate Step(w: World, w': World, p: nat)
    requires p < |w.injectors|
  {
    || Reject(w, w', p) || Lock(w, w', p) || Read(w, w', p) || Replace(w, w', p)
    || Release(w, w', p, true) || Release(w, w', p, false)
  }

  ghost predicate Next(w: World, w': World) {
    exists p: nat :: p < |w.injectors| && Step(w, w', p)
  }

  ghost predicate IsRun(run: seq<World>) {
    && run != [] && Init(run[0])
    && forall i :: 0 <= i < |run| - 1 ==> Next(run[i], run[i + 1])
  }

  // ------------------------------------------------------------------ the sequential meaning

  function ValuesOf(injectors: seq<Injector>, p: nat): Values {
    if p < |injectors| then injectors[p].values else map[]
  }

  /** One merge after another, each on the file the previous one left. */
  ghost function Replay(file: Destination, injectors: seq<Injector>, log: seq<nat>): Result<Destination, EnvError> {
    if log == [] then Ok(file)
    else
      match Replay(file, injectors, log[..|log| - 1])
      case Err(e) => Err(e)
      case Ok(before) =>
        match Outcome(before, ValuesOf(injectors, log[|log| - 1]))
        case Err(e) => Err(e)
        case Ok(text) => Ok(Regular(text))
  }

  predicate InSection(pc: Pc) {
    pc == Locked || pc.HasRead? || pc == Replaced
  }

  predicate HasWritten(pc: Pc) {
    pc == Replaced || pc == Succeeded
  }

  predicate HasNotWritten(pc: Pc) {
    pc == Idle || pc == Locked || pc.HasRead?
  }

  /** What holds of one injector. */
  ghost predicate InvOf(w: World, p: nat)
    requires p < |w.injectors|
  {
    var pc := w.injectors[p].pc;
    && (InSection(pc) <==> w.holder == Some(p))
    && (pc.HasRead? ==> pc.snapshot == w.file)
    && (HasWritten(pc) ==> p in w.log)
    && (HasNotWritten(pc) ==> p !in w.log)
  }

  ghost predicate Control(w: World) {
    && (w.holder.Some? ==> w.holder.value < |w.injectors|)
    && (forall p :: 0 <= p < |w.injectors| ==> InvOf(w, p))
    && (forall i, j :: 0 <= i < j < |w.log| ==> w.log[i] != w.log[j])
  }

  ghost predicate Inv(initial: Destination, w: World) {
    Control(w) && Replay(initial, w.injectors, w.log) == Ok(w.file)
  }

  ghost predicate SameValues(a: seq<Injector>, b: seq<Injector>) {
    |a| == |b| && forall p :: 0 <= p < |a| ==> a[p].values == b[p].values
  }

  lemma {:induction false} ReplayIgnoresPcs(file: Destination, a: seq<Injector>, b: seq<Injector>, log: seq<nat>)
    requires SameValues(a, b)
    ensures Replay(file, a, log) == Replay(file, b, log)
  {
    hide Outcome;
    if log != [] {
      ReplayIgnoresPcs(file, a, b, log[..|log| - 1]);
    }
  }

  lemma StepKeepsControl(w: World, w': World, p: nat)
    requires Control(w) && p < |w.injectors| && Step(w, w', p)
    ensures Control(w') && SameValues(w.injectors, w'.injectors)
  {
    hide Outcome, ValidNames;
    assert InvOf(w, p);
    forall q | 0 <= q < |w'.injectors| ensures InvOf(w', q) {
      assert InvOf(w, q);
      if q != p {
        assert w'.injectors[q] == w.injectors[q];
      }
    }
  }

  lemma ReplaceReplays(initial: Destination, w: World, w': World, p: nat)
    requires Inv(initial, w) && p < |w.injectors| && Replace(w, w', p)
    ensures Replay(initial, w.injectors, w'.log) == Ok(w'.file)
  {
    hide Outcome;
    assert InvOf(w, p);
    assert w'.log[..|w'.log| - 1] == w.log;
  }

  lemma StepKeepsInv(initial: Destination, w: World, w': World, p: nat)
    requires Inv(initial, w) && p < |w.injectors| && Step(w, w', p)
    ensures Inv(initial, w') && SameValues(w.injectors, w'.injectors)
  {
    hide Control, Replay, Outcome, ValidNames, SameValues;
    StepKeepsControl(w, w', p);
    ReplayIgnoresPcs(initial, w.injectors, w'.injectors, w'.log);
    if Replace(w, w', p) {
      ReplaceReplays(initial, w, w', p);
    }
  }

  /** In every interleaving, the file is what the merges give one after another in lock order; each injector
      replaces it at most once, and one that reported success did. */
  lemma {:induction false} RunsAreSerial(run: seq<World>, i: nat)
    requires IsRun(run) && i < |run|
    ensures Inv(run[0].file, run[i]) && SameValues(run[0].injectors, run[i].injectors)
  {
    if i > 0 {
      RunsAreSerial(run, i - 1);
      assert Next(run[i - 1], run[i - 1 + 1]);
      var p: nat :| p < |run[i - 1].injectors| && Step(run[i - 1], run[i], p);
      StepKeepsInv(run[0].file, run[i - 1], run[i], p);
    }
  }

  // ------------------------------------------------------------------ nothing is lost

  lemma {:induction false} BindingsIff(rs: seq<Record>, k: string, b: seq<string>)
    ensures b in Bindings(rs, k) <==> exists i :: 0 <= i < |rs| && rs[i].key == Some(k) && rs[i].lines == b
  {
    if rs != [] {
      var rest := rs[1..];
      BindingsIff(rest, k, b);
      if i :| 0 <= i < |rs| && rs[i].key == Some(k) && rs[i].lines == b {
        assert i > 0 ==> rs[i] == rest[i - 1];
      }
      if i :| 0 <= i < |rest| && rest[i].key == Some(k) && rest[i].lines == b {
        assert rs[i + 1] == rest[i];
      }
    }
  }

  lemma DefinesBindings(rs: seq<Record>, k: string, v: string)
    ensures Defines(rs, k, v) <==> Bindings(rs, k) != [] && forall b :: b in Bindings(rs, k) ==> b == [AssignLine(k, v)]
  {
    hide AssignLine, Bindings;
    var bindings := Bindings(rs, k);
    forall b ensures b in bindings <==> exists i :: 0 <= i < |rs| && rs[i].key == Some(k) && rs[i].lines == b {
      BindingsIff(rs, k, b);
    }
    forall i | 0 <= i < |rs| && rs[i].key == Some(k) ensures rs[i].lines in bindings {
    }
    if bindings != [] {
      assert bindings[0] in bindings;
    }
  }

  /** A merge of other names leaves a definition as it is. */
  lemma MergeKeepsDefinition(text: string, values: Values, k: string, v: string)
    requires Merge(text, values).Ok? && k !in values && ValidName(k)
    requires Assigns(text, k, v)
    ensures Assigns(Merge(text, values).value, k, v)
  {
    hide Parse, Lines, FileText, Merged, Defines, AssignLine, Complete, Assigns;
    MergeKeepsOthers(text, values, k);
    DefinesIsAssigns(text, k, v);
    DefinesIsAssigns(Merge(text, values).value, k, v);
    var was, now := Parse(Lines(text)).value, Parse(Lines(Merge(text, values).value)).value;
    DefinesBindings(was, k, v);
    DefinesBindings(now, k, v);
    AssignComplete(k, v);
    forall i | 0 <= i < |Bindings(was, k)| ensures StripAll(Bindings(was, k)[i]) == [AssignLine(k, v)] {
      assert Bindings(was, k)[i] in Bindings(was, k);
    }
  }

  ghost predicate FileDefines(file: Destination, k: string, v: string) {
    file.Regular? && Assigns(file.text, k, v)
  }

  /** `i` is the last writer of `k`. */
  ghost predicate LastWriter(injectors: seq<Injector>, log: seq<nat>, i: nat, k: string) {
    && i < |log| && k in ValuesOf(injectors, log[i])
    && forall j :: i < j < |log| ==> k !in ValuesOf(injectors, log[j])
  }

  lemma {:induction false} ReplayDefines(initial: Destination, injectors: seq<Injector>, log: seq<nat>, i: nat, k: string)
    requires Replay(initial, injectors, log).Ok?
    requires LastWriter(injectors, log, i, k)
    ensures FileDefines(Replay(initial, injectors, log).value, k, ValuesOf(injectors, log[i])[k])
  {
    hide Parse, Lines, FileText, Merged, Assigns;
    var last := |log| - 1;
    var before := Replay(initial, injectors, log[..last]).value;
    var values := ValuesOf(injectors, log[last]);
    var text := ReadText(before).value;
    assert Outcome(before, values) == Merge(text, values);
    if i == last {
      MergeDefines(text, values, k);
    } else {
      ReplayDefines(initial, injectors, log[..last], i, k);
      ReplayNames(initial, injectors, log, i);
      MergeKeepsDefinition(text, values, k, ValuesOf(injectors, log[i])[k]);
    }
  }

  lemma {:induction false} ReplayNames(initial: Destination, injectors: seq<Injector>, log: seq<nat>, i: nat)
    requires Replay(initial, injectors, log).Ok? && i < |log|
    ensures ValidNames(ValuesOf(injectors, log[i]))
  {
    if i < |log| - 1 {
      ReplayNames(initial, injectors, log[..|log| - 1], i);
    }
  }

  /** Whatever the interleaving, every name any injector wrote is defined in the file by the value of the
      last injector that wrote it, and by nothing else. */
  lemma NoWriterIsLost(run: seq<World>, n: nat, i: nat, k: string)
    requires IsRun(run) && n < |run|
    requires LastWriter(run[n].injectors, run[n].log, i, k)
    ensures FileDefines(run[n].file, k, ValuesOf(run[n].injectors, run[n].log[i])[k])
  {
    hide Replay, FileDefines, Outcome;
    RunsAreSerial(run, n);
    ReplayDefines(run[0].file, run[n].injectors, run[n].log, i, k);
  }

  lemma {:induction false} SomeLastWriter(injectors: seq<Injector>, log: seq<nat>, i: nat, k: string) returns (last: nat)
    requires i < |log| && k in ValuesOf(injectors, log[i])
    ensures LastWriter(injectors, log, last, k)
    decreases |log| - i
  {
    hide ValuesOf;
    if j :| i < j < |log| && k in ValuesOf(injectors, log[j]) {
      last := SomeLastWriter(injectors, log, j, k);
    } else {
      last := i;
    }
  }

  lemma SucceededWrote(initial: Destination, w: World, p: nat)
    requires Inv(initial, w) && p < |w.injectors| && w.injectors[p].pc.Succeeded?
    ensures p in w.log
  {
    hide Replay, Outcome;
    assert InvOf(w, p);
  }

  /** Whatever the interleaving, once an injector has reported success each of its names is assigned in the file, by its own
      value if no other injector writes that name, and by the value of one that does otherwise. */
  lemma SuccessIsKept(run: seq<World>, n: nat, p: nat, k: string) returns (q: nat)
    requires IsRun(run) && n < |run| && p < |run[n].injectors|
    requires run[n].injectors[p].pc.Succeeded? && k in run[n].injectors[p].values
    ensures q < |run[n].injectors| && k in run[n].injectors[q].values
    ensures FileDefines(run[n].file, k, run[n].injectors[q].values[k])
    ensures (forall other :: 0 <= other < |run[n].injectors| && other != p ==> k !in run[n].injectors[other].values) ==> q == p
  {
    hide IsRun, FileDefines, Inv;
    var injectors, log := run[n].injectors, run[n].log;
    RunsAreSerial(run, n);
    SucceededWrote(run[0].file, run[n], p);
    var i :| 0 <= i < |log| && log[i] == p;
    var last := SomeLastWriter(injectors, log, i, k);
    NoWriterIsLost(run, n, last, k);
    q := log[last];
  }
}
