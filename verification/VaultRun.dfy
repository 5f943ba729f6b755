/** Whole runs of the vault: any requests in any order, with any writes failing. */
module VaultRun {
  import opened Prelude
  import opened Bits
  import opened Text
  import opened Crypto
  import opened Tables
  import opened VaultStore
  import opened UnlockProtocol

  datatype Request =
    | Initialize(provider: Provider, newKek: Key, salt: nat, with: bool, secret: seq<Byte>, recoverySalt: nat)
    | Unlock(k: Key)
    | UnlockWithRecovery(text: string)
    | Lock
    | Rekey(provider: Provider, newKek: Key, salt: nat, with: bool, secret: seq<Byte>, recoverySalt: nat)
    | Regenerate(secret: seq<Byte>, recoverySalt: nat)
    | Put(name: Name, value: string, newId: string, dek: Key)
    | Delete(id: string)

  /** What a request did to the plain map. */
  datatype Change = Nothing | Stored(name: Name, value: string) | Removed(name: Name)

  function Apply(m: map<Name, string>, c: Change): map<Name, string> {
    match c
    case Nothing => m
    case Stored(name, v) => m[name := v]
    case Removed(name) => m - {name}
  }

  function Replay(m: map<Name, string>, cs: seq<Change>): map<Name, string> {
    if cs == [] then m else Apply(Replay(m, cs[..|cs| - 1]), cs[|cs| - 1])
  }

  /**
   * What a request may do to the plain map of the tables it finds: a store sets its trimmed value, always if it
   * succeeds; a deletion removes the entry of the row with its id, always if it succeeds and there is one; nothing
   * else changes anything.
   */
  ghost predicate Allowed(t: Tables, req: Request, done: bool, c: Change) {
    match c
    case Nothing => !(req.Put? && done) && !(req.Delete? && done && HasId(t.secrets, req.id))
    case Stored(name, v) => req.Put? && req.name == name && v == Trim(req.value)
    case Removed(name) => req.Delete? && exists n :: 0 <= n < |t.secrets| && t.secrets[n].id == req.id && NameOf(t.secrets[n]) == name
  }

  /** Only a setup or a rekeying touches what the vault is bound to, and each commits all of it or nothing. */
  ghost predicate Binds(t: Tables, kek: Option<Key>, t': Tables, kek': Option<Key>, req: Request) {
    match req
    case Initialize(provider, newKek, salt, _, _, _) =>
      (t' == t && kek' == kek) || (kek' == Some(newKek) && Commits(t, kek, t', Setup, provider, salt, newKek))
    case Rekey(provider, newKek, salt, _, _, _) =>
      (t' == t && kek' == kek) || (kek' == Some(newKek) && Commits(t, kek, t', Rebind, provider, salt, newKek))
    case _ => KeepsBinding(t, t', kek')
  }

  /** One request; `done` says that it succeeded. */
  method Serve(v: Vault, req: Request) returns (done: bool, ghost c: Change)
    requires v.Valid()
    modifies v
    ensures v.Valid() && Allowed(old(v.tables), req, done, c) && Quiet(old(v.audit), v.audit)
    ensures Contents(v.tables) == Apply(old(Contents(v.tables)), c)
    ensures Binds(old(v.tables), old(v.kek), v.tables, v.kek, req)
  {
    hide Sound, Contents, Trim, Unlocks, RecoveryIs, RowsOk, Unique, Quiet;
    c := Nothing;
    match req {
      case Initialize(_, _, _, _, _, _) =>
        done := ServeInitialize(v, req);
      case Unlock(k) =>
        var r := v.Unlock(k);
        done := r.Ok?;
      case UnlockWithRecovery(text) =>
        var r := v.UnlockWithRecovery(text);
        done := r.Ok?;
      case Lock =>
        var r := v.Lock();
        done := r.Ok?;
      case Rekey(_, _, _, _, _, _) =>
        done := ServeRekey(v, req);
      case Regenerate(secret, recoverySalt) =>
        done := ServeRegenerate(v, secret, recoverySalt);
      case Put(name, value, newId, dek) =>
        done, c := ServePut(v, name, value, newId, dek);
      case Delete(id) =>
        done, c := ServeDelete(v, id);
    }
  }

  method ServeInitialize(v: Vault, req: Request) returns (done: bool)
    requires v.Valid() && req.Initialize?
    modifies v
    ensures v.Valid() && Quiet(old(v.audit), v.audit)
    ensures Contents(v.tables) == old(Contents(v.tables)) && Binds(old(v.tables), old(v.kek), v.tables, v.kek, req)
  {
    hide Sound, Contents, Unlocks, RecoveryIs;
    if v.tables.meta.None? {
      UninitialisedIsEmpty(v.tables);
    }
    var r := v.Initialize(req.provider, req.newKek, req.salt, None, None, req.with, req.secret, req.recoverySalt);
    done := r.Ok?;
  }

  method ServeRekey(v: Vault, req: Request) returns (done: bool)
    requires v.Valid() && req.Rekey?
    modifies v
    ensures v.Valid() && Quiet(old(v.audit), v.audit)
    ensures Contents(v.tables) == old(Contents(v.tables)) && Binds(old(v.tables), old(v.kek), v.tables, v.kek, req)
  {
    hide Sound, Contents, Unlocks, RecoveryIs;
    var r := v.Rekey(req.newKek, req.salt, req.provider, None, None, req.with, req.secret, req.recoverySalt);
    done := r.Ok?;
  }

  method ServeRegenerate(v: Vault, secret: seq<Byte>, recoverySalt: nat) returns (done: bool)
    requires v.Valid()
    modifies v
    ensures v.Valid() && Quiet(old(v.audit), v.audit)
    ensures Contents(v.tables) == old(Contents(v.tables)) && KeepsBinding(old(v.tables), v.tables, v.kek)
  {
    hide Sound, Contents, RecoveryIs;
    var r := v.RegenerateRecovery(secret, recoverySalt);
    done := r.Ok?;
  }

  method ServePut(v: Vault, name: Name, value: string, newId: string, dek: Key) returns (done: bool, ghost c: Change)
    requires v.Valid()
    modifies v
    ensures v.Valid() && Quiet(old(v.audit), v.audit)
    ensures c == Stored(name, Trim(value)) || (c == Nothing && !done)
    ensures Contents(v.tables) == Apply(old(Contents(v.tables)), c)
    ensures KeepsBinding(old(v.tables), v.tables, v.kek)
  {
    hide Sound, Contents, Trim, Quiet, PutOne, Stores, Unlocks;
    ghost var before := Contents(v.tables);
    var r := v.PutSecret(name, value, newId, dek);
    done := r.Ok?;
    c := if done || Contents(v.tables) != before then Stored(name, Trim(value)) else Nothing;
  }

  method ServeDelete(v: Vault, id: string) returns (done: bool, ghost c: Change)
    requires v.Valid()
    modifies v
    ensures v.Valid() && Allowed(old(v.tables), Delete(id), done, c) && Quiet(old(v.audit), v.audit)
    ensures Contents(v.tables) == Apply(old(Contents(v.tables)), c)
    ensures KeepsBinding(old(v.tables), v.tables, v.kek)
  {
    hide Sound, Contents, Trim, Quiet, Unlocks;
    c := Nothing;
    ghost var before, rows := Contents(v.tables), v.tables.secrets;
    var r := v.DeleteSecret(id);
    done := r.Ok?;
    if HasId(rows, id) && (done || Contents(v.tables) != before) {
      ghost var n :| 0 <= n < |rows| && rows[n].id == id;
      c := Removed(NameOf(rows[n]));
    }
  }

  lemma UninitialisedIsEmpty(t: Tables)
    requires Sound(t) && t.meta.None?
    ensures Contents(t) == map[]
  {
  }

  /** In every run the tables stay sound under one KEK, and stand for the plain map that the stores and
      deletions alone produce: locking, unlocking, recovering, rekeying and regenerating never change it. */
  method Run(v: Vault, reqs: seq<Request>) returns (done: seq<bool>, ghost cs: seq<Change>, ghost ts: seq<Tables>)
    requires v.Valid()
    modifies v
    ensures v.Valid()
    ensures |cs| == |done| == |reqs| && |ts| == |reqs| + 1 && ts[0] == old(v.tables) && ts[|reqs|] == v.tables
    ensures forall i :: 0 <= i < |ts| ==> Sound(ts[i])
    ensures forall i :: 0 <= i < |reqs| ==> Allowed(ts[i], reqs[i], done[i], cs[i]) && Contents(ts[i + 1]) == Apply(Contents(ts[i]), cs[i])
    ensures Contents(v.tables) == Replay(old(Contents(v.tables)), cs)
  {
    hide Sound, Contents, Apply, Allowed;
    done, cs, ts := [], [], [v.tables];
    for i := 0 to |reqs|
      invariant v.Valid()
      invariant |cs| == |done| == i && |ts| == i + 1 && ts[0] == old(v.tables) && ts[i] == v.tables
      invariant forall j :: 0 <= j < |ts| ==> Sound(ts[j])
      invariant forall j :: 0 <= j < i ==> Allowed(ts[j], reqs[j], done[j], cs[j]) && Contents(ts[j + 1]) == Apply(Contents(ts[j]), cs[j])
      invariant Contents(v.tables) == Replay(old(Contents(v.tables)), cs)
    {
      var ok;
      ghost var c;
      ok, c := Serve(v, reqs[i]);
      assert (cs + [c])[..i] == cs;
      done, cs, ts := done + [ok], cs + [c], ts + [v.tables];
    }
  }
}
