/** Binding the vault to a keychain entry: two stores written one after the other, any number of setups,
    rebinds and unlocks at once, with a failure or a crash after any step. */
module UnlockProtocol {
  import opened Prelude
  import opened Bits
  import opened Crypto
  import opened Tables

  /** A keychain entry: one per salt, and the fixed one of old vaults. */
  datatype Slot = For(salt: nat) | Legacy

  /** A development key file may be left half written. */
  datatype Entry = Whole(key: Key) | Partial

  type Keychain = map<Slot, Entry>

  datatype Purpose = Setup | Rebind

  /** Where a call stands between its steps. */
  datatype Task =
    | Idle
    | Drawn(purpose: Purpose, provider: Provider, salt: nat, kek: Key)
    | Written(purpose: Purpose, salt: nat, kek: Key)
    | HasSalt(provider: Provider, salt: nat)
    | HasKek(kek: Key)
    | Ended

  /** `used` holds every salt drawn so far. */
  datatype World = World(keychain: Keychain, tables: Tables, kek: Option<Key>, tasks: seq<Task>, used: set<nat>)

  /** `keychain_read`: the entry for the salt, else the legacy one; a half-written entry is an error. */
  function KeychainRead(kc: Keychain, salt: nat): Result<Option<Key>, CoreError> {
    if For(salt) in kc then ReadEntry(kc[For(salt)])
    else if Legacy in kc then ReadEntry(kc[Legacy])
    else Ok(None)
  }

  function ReadEntry(e: Entry): Result<Option<Key>, CoreError> {
    match e
    case Whole(k) => Ok(Some(k))
    case Partial => Err(BadBlob)
  }

  function Goto(w: World, t: nat, task: Task): World
    requires t < |w.tasks|
  {
    w.(tasks := w.tasks[t := task])
  }

  // ------------------------------------------------------------------ steps

  /** Setup checks that there is no vault yet; rebind checks nothing. Both draw a fresh salt and a KEK. */
  ghost predicate Draw(w: World, w': World, t: nat)
    requires t < |w.tasks|
  {
    exists purpose, provider, salt, kek ::
      && w.tasks[t] == Idle && (purpose == Setup ==> w.tables.meta.None?) && salt !in w.used
      && w' == Goto(w, t, Drawn(purpose, provider, salt, kek)).(used := w.used + {salt})
  }

  /** `keychain_write`, for the Touch ID provider only; a failure leaves nothing, or a partial file. */
  ghost predicate WriteEntry(w: World, w': World, t: nat)
    requires t < |w.tasks|
  {
    var task := w.tasks[t];
    && task.Drawn? && task.provider == TouchIdKeychain
    && (|| w' == Goto(w, t, Written(task.purpose, task.salt, task.kek)).(keychain := w.keychain[For(task.salt) := Whole(task.kek)])
        || w' == Goto(w, t, Ended)
        || w' == Goto(w, t, Ended).(keychain := w.keychain[For(task.salt) := Partial]))
  }

  /** A setup or a rebind commits: a setup only where there is no vault yet, a rebind only while unlocked. */
  ghost predicate Commits(t: Tables, kek: Option<Key>, t': Tables, purpose: Purpose, provider: Provider, salt: nat, newKek: Key) {
    && (if purpose == Setup then t.meta.None? else kek.Some?)
    && Sound(t') && Unlocks(t', newKek)
    && t'.meta.value.provider == provider && t'.meta.value.kekSalt == salt
  }

  /** The database commit of a setup or a rebind: nothing, or all of it. */
  ghost predicate Committed(w: World, w': World, t: nat, purpose: Purpose, provider: Provider, salt: nat, kek: Key)
    requires t < |w.tasks|
  {
    && w' == Goto(w, t, Ended).(tables := w'.tables, kek := Some(kek))
    && Commits(w.tables, w.kek, w'.tables, purpose, provider, salt, kek)
  }

  ghost predicate Commit(w: World, w': World, t: nat)
    requires t < |w.tasks|
  {
    var task := w.tasks[t];
    || ((task.Written? || (task.Drawn? && task.provider == PasskeyPrf)) && w' == Goto(w, t, Ended))
    || (task.Written? && Committed(w, w', t, task.purpose, TouchIdKeychain, task.salt, task.kek))
    || (task.Drawn? && task.provider == PasskeyPrf && Committed(w, w', t, task.purpose, PasskeyPrf, task.salt, task.kek))
  }

  /** An unlock first reads the provider and the salt... */
  ghost predicate ReadSalt(w: World, w': World, t: nat)
    requires t < |w.tasks|
  {
    && w.tasks[t] == Idle && w.tables.meta.Some?
    && w' == Goto(w, t, HasSalt(w.tables.meta.value.provider, w.tables.meta.value.kekSalt))
  }

  /** ...then obtains a KEK from the keychain, or whatever the passkey yields... */
  ghost predicate ReadKek(w: World, w': World, t: nat)
    requires t < |w.tasks|
  {
    var task := w.tasks[t];
    && task.HasSalt?
    && (|| w' == Goto(w, t, Ended)
        || (exists k ::
              && (task.provider == TouchIdKeychain ==> KeychainRead(w.keychain, task.salt) == Ok(Some(k)))
              && w' == Goto(w, t, HasKek(k))))
  }

  /** ...and installs it if it opens the verifier that is stored now. */
  ghost predicate Install(w: World, w': World, t: nat)
    requires t < |w.tasks|
  {
    && w.tasks[t].HasKek?
    && w' == Goto(w, t, Ended).(kek := if Unlocks(w.tables, w.tasks[t].kek) then Some(w.tasks[t].kek) else w.kek)
  }

  /** The provider, the salt and the verifier stay, and the KEK in memory, if any, is the vault's. */
  ghost predicate KeepsBinding(t: Tables, t': Tables, kek': Option<Key>) {
    && Sound(t') && (t.meta.Some? <==> t'.meta.Some?)
    && (t.meta.Some? ==>
          && t'.meta.value.provider == t.meta.value.provider
          && t'.meta.value.kekSalt == t.meta.value.kekSalt
          && t'.meta.value.verifier == t.meta.value.verifier)
    && (kek'.Some? ==> Unlocks(t', kek'.value))
  }

  /** Recovery unlock, lock, and work on the secrets and the recovery copy under the vault's lock. */
  ghost predicate VaultWork(w: World, w': World) {
    && w' == w.(tables := w'.tables, kek := w'.kek)
    && KeepsBinding(w.tables, w'.tables, w'.kek)
  }

  /** The process dies: the two stores keep what they hold, memory is gone, and new calls may start. */
  ghost predicate Crash(w: World, w': World) {
    && w' == w.(kek := None, tasks := w'.tasks)
    && forall t :: 0 <= t < |w'.tasks| ==> w'.tasks[t] == Idle
  }

  ghost predicate TaskStep(w: World, w': World, t: nat)
    requires t < |w.tasks|
  {
    Draw(w, w', t) || WriteEntry(w, w', t) || Commit(w, w', t) || ReadSalt(w, w', t) || ReadKek(w, w', t) || Install(w, w', t)
  }

  ghost predicate Next(w: World, w': World) {
    || (exists t: nat :: t < |w.tasks| && TaskStep(w, w', t))
    || VaultWork(w, w') || Crash(w, w')
  }

  /** Each world is the previous one after a step. */
  ghost predicate IsTrace(worlds: seq<World>) {
    forall i :: 0 <= i < |worlds| - 1 ==> Next(worlds[i], worlds[i + 1])
  }

  lemma TraceGoesOn(worlds: seq<World>, w: World)
    requires IsTrace(worlds) && worlds != [] && Next(worlds[|worlds| - 1], w)
    ensures IsTrace(worlds + [w])
  {
    hide Next;
    var all := worlds + [w];
    forall i | 0 <= i < |all| - 1 ensures Next(all[i], all[i + 1]) {
      if i < |worlds| - 1 {
        assert all[i] == worlds[i] && all[i + 1] == worlds[i + 1];
      }
    }
  }

  lemma OneTaskSteps(w: World, w': World)
    requires |w.tasks| == 1 && TaskStep(w, w', 0)
    ensures Next(w, w')
  {
    hide TaskStep;
  }

  // ------------------------------------------------------------------ the invariant

  /** Whenever the database says Touch ID, the keychain yields the KEK that opens the stored verifier. */
  ghost predicate KeyReachable(t: Tables, kc: Keychain) {
    t.meta.Some? && t.meta.value.provider == TouchIdKeychain && t.meta.value.verifier.Sealed?
    ==> KeychainRead(kc, t.meta.value.kekSalt) == Ok(Some(KekOf(t)))
  }

  /** What a call holds before its commit: a salt nobody else has, and after the write its own entry. */
  ghost predicate PendingOk(w: World, t: nat)
    requires t < |w.tasks|
  {
    var task := w.tasks[t];
    (task.Drawn? || task.Written?) ==>
      && task.salt in w.used
      && (w.tables.meta.Some? ==> w.tables.meta.value.kekSalt != task.salt)
      && (if task.Written? then For(task.salt) in w.keychain && w.keychain[For(task.salt)] == Whole(task.kek)
          else For(task.salt) !in w.keychain)
  }

  predicate Pending(task: Task) {
    task.Drawn? || task.Written?
  }

  ghost predicate Inv(w: World) {
    && Sound(w.tables) && (w.kek.Some? ==> Unlocks(w.tables, w.kek.value))
    && KeyReachable(w.tables, w.keychain)
    && (w.tables.meta.Some? ==> w.tables.meta.value.kekSalt in w.used)
    && (forall s :: For(s) in w.keychain ==> s in w.used)
    && (forall t :: 0 <= t < |w.tasks| ==> PendingOk(w, t))
    && (forall t, u :: 0 <= t < u < |w.tasks| && Pending(w.tasks[t]) && Pending(w.tasks[u]) ==> w.tasks[t].salt != w.tasks[u].salt)
  }

  /** A start: no vault yet, or one whose key the keychain yields (through the legacy entry, if it is old). */
  ghost predicate Init(w: World) {
    && Sound(w.tables) && w.kek == None && KeyReachable(w.tables, w.keychain)
    && (w.tables.meta.Some? ==> w.tables.meta.value.kekSalt in w.used)
    && (forall s :: For(s) in w.keychain ==> s in w.used)
    && (forall t :: 0 <= t < |w.tasks| ==> w.tasks[t] == Idle)
  }

  lemma OthersUndisturbed(w: World, w': World, t: nat)
    requires Inv(w) && t < |w.tasks| == |w'.tasks|
    requires forall u :: 0 <= u < |w.tasks| && u != t ==> w'.tasks[u] == w.tasks[u]
    requires w.used <= w'.used
    requires forall u :: 0 <= u < |w.tasks| && u != t && Pending(w.tasks[u]) ==>
      && (w'.tables.meta.Some? ==> w'.tables.meta.value.kekSalt != w.tasks[u].salt)
      && (For(w.tasks[u].salt) in w'.keychain <==> For(w.tasks[u].salt) in w.keychain)
      && (For(w.tasks[u].salt) in w.keychain ==> w'.keychain[For(w.tasks[u].salt)] == w.keychain[For(w.tasks[u].salt)])
    ensures forall u :: 0 <= u < |w'.tasks| && u != t ==> PendingOk(w', u)
  {
    forall u | 0 <= u < |w'.tasks| && u != t ensures PendingOk(w', u) {
      assert PendingOk(w, u);
    }
  }

  lemma PendingFacts(w: World, t: nat)
    requires Inv(w) && t < |w.tasks|
    ensures PendingOk(w, t)
    ensures forall u :: 0 <= u < |w.tasks| && u != t && Pending(w.tasks[u]) ==>
      && w.tasks[u].salt in w.used
      && (w.tables.meta.Some? ==> w.tables.meta.value.kekSalt != w.tasks[u].salt)
      && (Pending(w.tasks[t]) ==> w.tasks[u].salt != w.tasks[t].salt)
  {
    hide Sound, Unlocks, KeyReachable;
    forall u | 0 <= u < |w.tasks| && u != t && Pending(w.tasks[u])
      ensures PendingOk(w, u) && (Pending(w.tasks[t]) ==> w.tasks[u].salt != w.tasks[t].salt)
    {
      assert u < t || t < u;
    }
  }

  lemma DrawKeepsInv(w: World, w': World, t: nat)
    requires Inv(w) && t < |w.tasks| && Draw(w, w', t)
    ensures Inv(w')
  {
    hide Sound, Unlocks, KeychainRead;
    PendingFacts(w, t);
    OthersUndisturbed(w, w', t);
    assert PendingOk(w', t);
  }

  lemma WriteKeepsInv(w: World, w': World, t: nat)
    requires Inv(w) && t < |w.tasks| && WriteEntry(w, w', t)
    ensures Inv(w')
  {
    hide Sound, Unlocks;
    PendingFacts(w, t);
    OthersUndisturbed(w, w', t);
    assert PendingOk(w', t);
  }

  lemma CommitKeepsInv(w: World, w': World, t: nat)
    requires Inv(w) && t < |w.tasks| && Commit(w, w', t)
    ensures Inv(w')
  {
    hide RowsOk, Unique;
    PendingFacts(w, t);
    OthersUndisturbed(w, w', t);
    assert PendingOk(w', t);
  }

  lemma UnlockKeepsInv(w: World, w': World, t: nat)
    requires Inv(w) && t < |w.tasks| && (ReadSalt(w, w', t) || ReadKek(w, w', t) || Install(w, w', t))
    ensures Inv(w')
  {
    hide Sound, Unlocks, KeychainRead;
    PendingFacts(w, t);
    OthersUndisturbed(w, w', t);
    assert PendingOk(w', t);
  }

  lemma StepKeepsInv(w: World, w': World)
    requires Inv(w) && Next(w, w')
    ensures Inv(w')
  {
    hide Sound, Unlocks, KeychainRead, Draw, WriteEntry, Commit, ReadSalt, ReadKek, Install;
    if t: nat :| t < |w.tasks| && TaskStep(w, w', t) {
      if Draw(w, w', t) {
        DrawKeepsInv(w, w', t);
      } else if WriteEntry(w, w', t) {
        WriteKeepsInv(w, w', t);
      } else if Commit(w, w', t) {
        CommitKeepsInv(w, w', t);
      } else {
        UnlockKeepsInv(w, w', t);
      }
    } else if VaultWork(w, w') {
      forall t | 0 <= t < |w'.tasks| ensures PendingOk(w', t) {
        assert PendingOk(w, t);
      }
    } else {
      assert forall t :: 0 <= t < |w'.tasks| ==> PendingOk(w', t);
    }
  }

  ghost predicate IsRun(run: seq<World>) {
    && run != [] && Init(run[0])
    && forall i :: 0 <= i < |run| - 1 ==> Next(run[i], run[i + 1])
  }

  lemma {:induction false} RunKeepsInv(run: seq<World>, i: nat)
    requires IsRun(run) && i < |run|
    ensures Inv(run[i])
  {
    hide Sound, Unlocks, KeychainRead, Next;
    if i == 0 {
      assert forall t :: 0 <= t < |run[0].tasks| ==> PendingOk(run[0], t);
    } else {
      RunKeepsInv(run, i - 1);
      assert Next(run[i - 1], run[i - 1 + 1]);
      StepKeepsInv(run[i - 1], run[i]);
    }
  }

  /** At every point of every run, crashes and failures included: if the database says Touch ID, the keychain
      yields a KEK that unlocks it; and the KEK in memory, if any, is that of the database. */
  lemma KeyIsNeverLost(run: seq<World>, i: nat)
    requires IsRun(run) && i < |run|
    ensures var w := run[i];
            && (w.kek.Some? ==> Unlocks(w.tables, w.kek.value))
            && (w.tables.meta.Some? && w.tables.meta.value.provider == TouchIdKeychain ==>
                  match KeychainRead(w.keychain, w.tables.meta.value.kekSalt)
                  case Ok(Some(k)) => Unlocks(w.tables, k)
                  case _ => false)
  {
    hide RowsOk, Unique;
    RunKeepsInv(run, i);
    if run[i].tables.meta.Some? {
      UnlocksExactlyKek(run[i].tables, KekOf(run[i].tables));
    }
  }
}
