/** Setup, unlock and rebind as they run, one call at a time, over the keychain and the vault object. */
module UnlockService {
  import opened Prelude
  import opened Bits
  import opened Crypto
  import opened Tables
  import opened VaultStore
  import opened UnlockProtocol
  import VaultRun
  import Recovery

  datatype UnlockError = Presence | KeychainFailed | NoKey | NoPrf | Core(error: CoreError)

  class Service {
    const vault: Vault
    var keychain: Keychain
    /** Every salt drawn so far. */
    ghost var used: set<nat>
    /** How many writes to the keychain have failed. */
    ghost var faults: nat

    ghost predicate Valid()
      reads this, vault
    {
      && vault.Valid()
      && KeyReachable(vault.tables, keychain)
      && (vault.tables.meta.Some? ==> vault.tables.meta.value.kekSalt in used)
      && (forall s :: For(s) in keychain ==> s in used)
    }

    /** The state of the protocol while one call is running, which stands at `task`. */
    ghost function At(task: Task): World
      reads this, vault
    {
      World(keychain, vault.tables, vault.kek, [task], used)
    }

    constructor (vault: Vault, keychain: Keychain)
      requires vault.Valid() && vault.tables.meta.None?
      ensures Valid() && this.vault == vault && this.keychain == keychain
    {
      this.vault, this.keychain, this.faults := vault, keychain, 0;
      used := set slot | slot in keychain && slot.For? :: slot.salt;
    }

    /** The loop over the two slots. */
    method ReadKeychain(salt: nat) returns (r: Result<Option<Key>, CoreError>)
      ensures r == KeychainRead(keychain, salt)
    {
      var slots := [For(salt), Legacy];
      for i := 0 to |slots|
        invariant forall j :: 0 <= j < i ==> slots[j] !in keychain
      {
        if slots[i] !in keychain {
          continue;
        }
        assert i == 1 ==> slots[0] !in keychain;
        match keychain[slots[i]] {
          case Whole(k) => return Ok(Some(k));
          case Partial => return Err(BadBlob);
        }
      }
      assert slots[0] !in keychain && slots[1] !in keychain;
      return Ok(None);
    }

    method WriteKeychain(kek: Key, salt: nat) returns (ok: bool)
      modifies this`keychain, this`faults
      ensures faults == old(faults) + if ok then 0 else 1
      ensures ok ==> keychain == old(keychain)[For(salt) := Whole(kek)]
      ensures !ok ==> keychain == old(keychain) || keychain == old(keychain)[For(salt) := Partial]
    {
      var created: bool, written: bool := *, *;
      if created {
        keychain := keychain[For(salt) := if written then Whole(kek) else Partial];
      }
      ok := created && written;
      if !ok {
        faults := faults + 1;
      }
    }

    /** An entry for a fresh salt disturbs nothing the database refers to. */
    lemma FreshEntry(kc: Keychain, salt: nat, entry: Entry)
      requires KeyReachable(vault.tables, kc)
      requires vault.tables.meta.Some? ==> vault.tables.meta.value.kekSalt != salt
      ensures KeyReachable(vault.tables, kc[For(salt) := entry])
    {
    }

    /** The only reasons for failing: no presence, no passkey secret, or a write to the keychain or the database that failed. */
    ghost predicate Excused(provider: Provider, prf: seq<Byte>, present: bool, r: Result<string, UnlockError>, keychainFailed: bool, dbFailed: bool) {
      r.Err? ==>
        || (provider == TouchIdKeychain && !present && r.error == Presence)
        || (provider == TouchIdKeychain && present && keychainFailed && r.error == KeychainFailed)
        || (provider == PasskeyPrf && prf == [] && r.error == NoPrf)
        || (dbFailed && r.error == Core(Db))
    }

    /** The keychain is written before the database; whatever fails, the database's key stays reachable. Each call takes the
        steps of the protocol, which `trace` lists. */
    method Setup(provider: Provider, salt: nat, random: nat, prf: seq<Byte>, present: bool, credential: (string, nat),
        secret: seq<Byte>, recoverySalt: nat)
      returns (r: Result<string, UnlockError>, ghost trace: seq<World>)
      requires Valid() && salt !in used
      modifies this, vault
      ensures Valid()
      ensures IsTrace(trace) && trace != [] && trace[0] == old(At(Idle))
      ensures trace[|trace| - 1] == At(if |trace| == 1 then Idle else Ended)
      ensures r.Ok? ==>
        && old(vault.tables).meta.None? && vault.tables.meta.Some?
        && vault.tables.meta.value.provider == provider && vault.tables.meta.value.kekSalt == salt
        && vault.tables.meta.value.credentialId == (if provider == PasskeyPrf then Some(credential.0) else None)
        && vault.tables.meta.value.userHandle == (if provider == PasskeyPrf then Some(credential.1) else None)
        && vault.kek == Some(KekOf(vault.tables)) && r.value == Recovery.Format(vault.sha, secret)
      ensures old(vault.tables).meta.Some? ==> r == Err(Core(AlreadyInitialized)) && vault.tables == old(vault.tables)
      ensures r.Err? && r != Err(Core(Db)) ==> vault.tables == old(vault.tables) && vault.kek == old(vault.kek)
      ensures old(vault.tables).meta.None? ==> Excused(provider, prf, present, r, faults > old(faults), vault.faults > old(vault.faults))
    {
      hide Sound, Recovery.Format, Next, IsTrace;
      if vault.tables.meta.Some? {
        SingleTrace(At(Idle));
        return Err(Core(AlreadyInitialized)), [At(Idle)];
      }
      var kek;
      r, kek, trace := NewKek(UnlockProtocol.Setup, provider, salt, random, prf, present);
      if r.Err? {
        return;
      }
      ghost var before, task := vault.tables, trace[|trace| - 1];
      ghost var kekBefore := vault.kek;
      var passkey := provider == PasskeyPrf;
      var text := vault.Initialize(provider, kek, salt, if passkey then Some(credential.0) else None,
                                   if passkey then Some(credential.1) else None, true, secret, recoverySalt);
      UnlocksNow();
      CommitStep(task, At(Ended), UnlockProtocol.Setup, provider, salt, kek);
      TraceGoesOn(trace, At(Ended));
      trace := trace + [At(Ended)];
      r := if text.Err? then Err(Core(text.error)) else Ok(text.value.value);
    }

    static lemma SingleTrace(w: World)
      ensures IsTrace([w])
    {
    }

    /** The commit of a setup or a rebind, or its failure, as a step. */
    static lemma CommitStep(w: World, w': World, purpose: Purpose, provider: Provider, salt: nat, kek: Key)
      requires w.tasks == [if provider == TouchIdKeychain then Written(purpose, salt, kek) else Drawn(purpose, provider, salt, kek)]
      requires w' == w.(tables := w'.tables, kek := w'.kek, tasks := [Ended])
      requires (w'.tables == w.tables && w'.kek == w.kek)
               || (w'.kek == Some(kek) && Commits(w.tables, w.kek, w'.tables, purpose, provider, salt, kek))
      ensures Next(w, w')
    {
      hide Commits, KeepsBinding;
      assert Goto(w, 0, Ended).tasks == [Ended];
      assert Commit(w, w', 0);
      OneTaskSteps(w, w');
    }

    lemma UnlocksNow()
      requires Sound(vault.tables)
      ensures forall k :: Unlocks(vault.tables, k) ==> vault.tables.meta.value.verifier.Sealed? && k == KekOf(vault.tables)
    {
    }

    static lemma DrawStep(w: World, w': World, purpose: Purpose, provider: Provider, salt: nat, kek: Key)
      requires w.tasks == [Idle] && (purpose == UnlockProtocol.Setup ==> w.tables.meta.None?) && salt !in w.used
      requires w' == w.(tasks := [Drawn(purpose, provider, salt, kek)], used := w.used + {salt})
      ensures Next(w, w')
    {
      assert Goto(w, 0, Drawn(purpose, provider, salt, kek)).tasks == [Drawn(purpose, provider, salt, kek)];
      assert Draw(w, w', 0);
      OneTaskSteps(w, w');
    }

    static lemma WriteStep(w: World, w': World, purpose: Purpose, salt: nat, kek: Key)
      requires w.tasks == [Drawn(purpose, TouchIdKeychain, salt, kek)]
      requires w' == w.(tasks := w'.tasks, keychain := w'.keychain)
      requires if w'.keychain == w.keychain[For(salt) := Whole(kek)] then w'.tasks in {[Written(purpose, salt, kek)], [Ended]}
               else w'.tasks == [Ended] && w'.keychain in {w.keychain, w.keychain[For(salt) := Partial]}
      requires w'.tasks == [Ended] ==> w'.keychain in {w.keychain, w.keychain[For(salt) := Partial]}
      ensures Next(w, w')
    {
      assert Goto(w, 0, Ended).tasks == [Ended] && Goto(w, 0, Written(purpose, salt, kek)).tasks == [Written(purpose, salt, kek)];
      assert WriteEntry(w, w', 0);
      OneTaskSteps(w, w');
    }

    /** The presence check and the new KEK, stored under the fresh salt for Touch ID. */
    method NewKek(ghost purpose: Purpose, provider: Provider, salt: nat, random: nat, prf: seq<Byte>, present: bool)
      returns (r: Result<string, UnlockError>, kek: Key, ghost trace: seq<World>)
      requires Valid() && salt !in used && (purpose == UnlockProtocol.Setup ==> vault.tables.meta.None?)
      modifies this
      ensures Valid() && used == old(used) + {salt}
      ensures IsTrace(trace) && |trace| >= 2 && trace[0] == old(At(Idle))
      ensures trace[|trace| - 1] == At(if r.Err? then Ended
                                       else if provider == TouchIdKeychain then Written(purpose, salt, kek)
                                       else Drawn(purpose, provider, salt, kek))
      ensures r.Ok? ==> provider == TouchIdKeychain ==> For(salt) in keychain && keychain[For(salt)] == Whole(kek)
      ensures Excused(provider, prf, present, r, faults > old(faults), false)
      ensures kek == if provider == TouchIdKeychain then Random(random) else FromPrf(prf, salt)
    {
      hide Sound, Next, IsTrace;
      kek := if provider == TouchIdKeychain then Random(random) else FromPrf(prf, salt);
      ghost var drawn := Drawn(purpose, provider, salt, kek);
      SingleTrace(At(Idle));
      trace := [At(Idle)];
      ghost var idle := At(Idle);
      used := used + {salt};
      DrawStep(idle, At(drawn), purpose, provider, salt, kek);
      TraceGoesOn(trace, At(drawn));
      trace := trace + [At(drawn)];
      match provider {
        case TouchIdKeychain =>
          if !present {
            GivesUp(At(drawn), At(Ended), purpose, provider, salt, kek);
            TraceGoesOn(trace, At(Ended));
            return Err(Presence), kek, trace + [At(Ended)];
          }
          ghost var before := At(drawn);
          var ok := WriteKeychain(kek, salt);
          FreshEntry(old(keychain), salt, Whole(kek));
          FreshEntry(old(keychain), salt, Partial);
          ghost var after := At(if ok then Written(purpose, salt, kek) else Ended);
          WriteStep(before, after, purpose, salt, kek);
          TraceGoesOn(trace, after);
          return if ok then Ok("") else Err(KeychainFailed), kek, trace + [after];
        case PasskeyPrf =>
          if prf == [] {
            GivesUp(At(drawn), At(Ended), purpose, provider, salt, kek);
            TraceGoesOn(trace, At(Ended));
            return Err(NoPrf), kek, trace + [At(Ended)];
          }
          return Ok(""), kek, trace;
      }
    }

    /** A call that ends before it wrote anything. */
    static lemma GivesUp(w: World, w': World, purpose: Purpose, provider: Provider, salt: nat, kek: Key)
      requires w.tasks == [Drawn(purpose, provider, salt, kek)] && w' == w.(tasks := [Ended])
      ensures Next(w, w')
    {
      assert Goto(w, 0, Ended).tasks == [Ended];
      if provider == TouchIdKeychain {
        assert WriteEntry(w, w', 0);
      } else {
        assert Commit(w, w', 0);
      }
      OneTaskSteps(w, w');
    }

    /** Reading the salt, obtaining a KEK and installing it, as steps. */
    static lemma UnlockSteps(w: World, kek: Key, w': World)
      requires w.tasks == [Idle] && w.tables.meta.Some?
      requires w.tables.meta.value.provider == TouchIdKeychain ==>
        KeychainRead(w.keychain, w.tables.meta.value.kekSalt) == Ok(Some(kek))
      requires w' == w.(tasks := [Ended], kek := if Unlocks(w.tables, kek) then Some(kek) else w.kek)
      ensures var w1 := w.(tasks := [HasSalt(w.tables.meta.value.provider, w.tables.meta.value.kekSalt)]);
              var w2 := w.(tasks := [HasKek(kek)]);
              IsTrace([w, w1, w2, w'])
    {
      hide Unlocks, KeychainRead, KeepsBinding;
      var salt := HasSalt(w.tables.meta.value.provider, w.tables.meta.value.kekSalt);
      var w1, w2 := w.(tasks := [salt]), w.(tasks := [HasKek(kek)]);
      assert Goto(w, 0, salt).tasks == [salt];
      assert ReadSalt(w, w1, 0);
      assert Goto(w1, 0, HasKek(kek)).tasks == [HasKek(kek)];
      assert ReadKek(w1, w2, 0);
      assert Goto(w2, 0, Ended).tasks == [Ended];
      assert Install(w2, w', 0);
      OneTaskSteps(w, w1);
      OneTaskSteps(w1, w2);
      OneTaskSteps(w2, w');
    }

    /** Reading the salt and no KEK. */
    static lemma NoKekSteps(w: World)
      requires w.tasks == [Idle] && w.tables.meta.Some?
      ensures var w1 := w.(tasks := [HasSalt(w.tables.meta.value.provider, w.tables.meta.value.kekSalt)]);
              IsTrace([w, w1, w.(tasks := [Ended])])
    {
      hide Unlocks, KeychainRead, KeepsBinding;
      var salt := HasSalt(w.tables.meta.value.provider, w.tables.meta.value.kekSalt);
      var w1, w2 := w.(tasks := [salt]), w.(tasks := [Ended]);
      assert Goto(w, 0, salt).tasks == [salt];
      assert ReadSalt(w, w1, 0);
      assert Goto(w1, 0, Ended).tasks == [Ended];
      assert ReadKek(w1, w2, 0);
      OneTaskSteps(w, w1);
      OneTaskSteps(w1, w2);
    }

    /** With Touch ID the only ways to stay locked are a refused presence check and a failed audit write. */
    method Unlock(prf: seq<Byte>, present: bool) returns (r: Result<(), UnlockError>, ghost trace: seq<World>)
      requires Valid()
      modifies vault
      ensures Valid() && vault.tables == old(vault.tables)
      ensures IsTrace(trace) && trace != [] && trace[0] == old(At(Idle))
      ensures trace[|trace| - 1] == At(if |trace| == 1 then Idle else Ended)
      ensures vault.tables.meta.Some? && vault.tables.meta.value.provider == TouchIdKeychain ==>
        if present then vault.kek == Some(KekOf(vault.tables)) && (r.Ok? || r == Err(Core(Db)))
        else r == Err(Presence) && vault.kek == old(vault.kek)
      ensures vault.tables.meta.Some? && vault.tables.meta.value.provider == PasskeyPrf ==>
        if prf == [] then r == Err(NoPrf) && vault.kek == old(vault.kek)
        else if Unlocks(vault.tables, FromPrf(prf, vault.tables.meta.value.kekSalt))
        then vault.kek == Some(KekOf(vault.tables)) && (r.Ok? || r == Err(Core(Db)))
        else r == Err(Core(WrongKey)) && vault.kek == old(vault.kek)
      ensures vault.tables.meta.None? ==> r == Err(Core(NotInitialized)) && vault.kek == old(vault.kek)
      ensures r == Err(Core(Db)) ==> vault.faults > old(vault.faults)
      ensures r.Ok? ==> vault.kek.Some? && Unlocks(vault.tables, vault.kek.value)
    {
      hide IsTrace, Next;
      ghost var start := At(Idle);
      if vault.tables.meta.None? {
        SingleTrace(start);
        return Err(Core(NotInitialized)), [start];
      }
      var meta := vault.tables.meta.value;
      ghost var salted := start.(tasks := [HasSalt(meta.provider, meta.kekSalt)]);
      NoKekSteps(start);
      trace := [start, salted, At(Ended)];
      var kek: Key;
      match meta.provider {
        case TouchIdKeychain =>
          if !present {
            return Err(Presence), trace;
          }
          var found := ReadKeychain(meta.kekSalt);
          match found {
            case Err(e) => return Err(Core(e)), trace;
            case Ok(None) => return Err(NoKey), trace;
            case Ok(Some(k)) => kek := k;
          }
        case PasskeyPrf =>
          if prf == [] {
            return Err(NoPrf), trace;
          }
          kek := FromPrf(prf, meta.kekSalt);
      }
      UnlocksExactlyKek(vault.tables, kek);
      var unlocked := vault.Unlock(kek);
      UnlockSteps(start, kek, At(Ended));
      trace := [start, salted, start.(tasks := [HasKek(kek)]), At(Ended)];
      r := if unlocked.Ok? then Ok(()) else Err(Core(unlocked.error));
    }

    /** Everything else the vault is asked: locking, recovering, storing and deleting, and a new recovery key. Each is one
        step of the protocol, and none loses the way to the key. */
    method Work(req: VaultRun.Request) returns (done: bool)
      requires Valid() && !req.Initialize? && !req.Rekey?
      modifies vault
      ensures Valid() && KeepsBinding(old(vault.tables), vault.tables, vault.kek)
      ensures Next(old(At(Idle)), At(Idle))
    {
      hide Sound, VaultRun.Allowed, VaultRun.Apply, Quiet, Contents;
      ghost var c;
      done, c := VaultRun.Serve(vault, req);
      assert VaultWork(old(At(Idle)), At(Idle));
    }

    /** A rebind that fails at any step leaves the database, and the way to its key, as they were. */
    method Rebind(provider: Provider, salt: nat, random: nat, prf: seq<Byte>, present: bool, credential: (string, nat),
        secret: seq<Byte>, recoverySalt: nat)
      returns (r: Result<string, UnlockError>, ghost trace: seq<World>)
      requires Valid() && salt !in used
      modifies this, vault
      ensures Valid()
      ensures IsTrace(trace) && |trace| >= 2 && trace[0] == old(At(Idle)) && trace[|trace| - 1] == At(Ended)
      ensures r.Err? ==> vault.tables == old(vault.tables) && vault.kek == old(vault.kek)
      ensures r == Err(Core(Locked)) || Excused(provider, prf, present, r, faults > old(faults), vault.faults > old(vault.faults))
      ensures r == Err(Core(Locked)) ==> old(vault.kek).None?
      ensures r.Ok? ==>
        && vault.tables.meta.Some? && vault.tables.meta.value.provider == provider && vault.tables.meta.value.kekSalt == salt
        && vault.tables.meta.value.credentialId == (if provider == PasskeyPrf then Some(credential.0) else None)
        && vault.tables.meta.value.userHandle == (if provider == PasskeyPrf then Some(credential.1) else None)
        && Contents(vault.tables) == old(Contents(vault.tables))
        && vault.kek.Some? && (forall k :: Unlocks(vault.tables, k) <==> Some(k) == vault.kek)
        && r.value == Recovery.Format(vault.sha, secret)
    {
      hide Sound, Recovery.Format, Next, IsTrace;
      var kek;
      r, kek, trace := NewKek(UnlockProtocol.Rebind, provider, salt, random, prf, present);
      if r.Err? {
        return;
      }
      ghost var task := trace[|trace| - 1];
      var passkey := provider == PasskeyPrf;
      var text := vault.Rekey(kek, salt, provider, if passkey then Some(credential.0) else None,
                              if passkey then Some(credential.1) else None, true, secret, recoverySalt);
      UnlocksNow();
      CommitStep(task, At(Ended), UnlockProtocol.Rebind, provider, salt, kek);
      TraceGoesOn(trace, At(Ended));
      trace := trace + [At(Ended)];
      r := if text.Err? then Err(Core(text.error)) else Ok(text.value.value);
    }
  }
}
