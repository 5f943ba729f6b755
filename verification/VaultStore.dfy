/** The vault object: one database, one in-memory KEK while unlocked. Every database write may fail. */
module VaultStore {
  import opened Prelude
  import opened Bits
  import opened Text
  import opened Crypto
  import opened Tables
  import Recovery
  import Redact

  datatype AuditEvent =
    | VaultInitialized | VaultUnlocked | VaultLocked | RecoveryUsed
    | SecretAdded | SecretUpdated | SecretDeleted
    | SessionApproved | SessionRevoked | KeyRead | KeyDenied

  datatype AuditRow = AuditRow(event: AuditEvent, session: Option<string>, name: Option<Name>)

  function Event(e: AuditEvent): AuditRow {
    AuditRow(e, None, None)
  }

  /** The rows added since are about the vault, not about a session. */
  ghost predicate Quiet(was: seq<AuditRow>, audit: seq<AuditRow>) {
    was <= audit && forall i :: |was| <= i < |audit| ==> audit[i].session.None? && audit[i].event != KeyRead
  }

  /** What a fresh recovery copy of the KEK is made of; without one, both columns are empty. */
  function RecoveryColumns(kek: Key, with: bool, secret: seq<Byte>, salt: nat): (Option<nat>, Option<Blob>) {
    if with then (Some(salt), Some(Seal(FromRecovery(secret, salt), KeyBytes(kek), ForRecovery))) else (None, None)
  }

  predicate Stores(rows: seq<SecretRow>, name: Name) {
    exists i :: 0 <= i < |rows| && NameOf(rows[i]) == name
  }

  /** The row of that name is the only one that changed: an old one keeps its id, a new one comes last under the new id. */
  ghost predicate PutOne(was: seq<SecretRow>, now: seq<SecretRow>, name: Name, newId: string) {
    && (forall i :: 0 <= i < |was| && i < |now| && NameOf(was[i]) != name ==> now[i] == was[i])
    && (forall i :: 0 <= i < |was| && i < |now| && NameOf(was[i]) == name ==> now[i].id == was[i].id && NameOf(now[i]) == name)
    && if Stores(was, name) then |now| == |was|
       else |now| == |was| + 1 && now[|was|].id == newId && NameOf(now[|was|]) == name
  }

  class Vault {
    const sha: Recovery.Digest
    var tables: Tables
    var kek: Option<Key>
    var audit: seq<AuditRow>
    /** How many writes to the database have failed. */
    ghost var faults: nat

    ghost predicate Valid()
      reads this
    {
      Sound(tables) && (kek.Some? ==> Unlocks(tables, kek.value))
    }

    constructor (sha: Recovery.Digest)
      ensures Valid() && fresh(this)
      ensures this.sha == sha && tables == Tables(None, []) && kek == None && audit == []
    {
      this.sha := sha;
      tables, kek, audit, faults := Tables(None, []), None, [], 0;
    }

    /** Any write to the database may fail. */
    method Write() returns (ok: bool)
      modifies this`faults
      ensures faults == old(faults) + if ok then 0 else 1
    {
      ok := *;
      if !ok {
        faults := faults + 1;
      }
    }

    method Audit(row: AuditRow) returns (ok: bool)
      modifies this`audit, this`faults
      ensures audit == if ok then old(audit) + [row] else old(audit)
      ensures faults == old(faults) + if ok then 0 else 1
    {
      ok := Write();
      if ok {
        audit := audit + [row];
      }
    }

    /** Whether the call left the vault initialised: it did unless the insert failed. The recovery key is returned
        only if the audit row was written too. */
    method Initialize(provider: Provider, newKek: Key, salt: nat, credentialId: Option<string>, userHandle: Option<nat>,
        with: bool, secret: seq<Byte>, recoverySalt: nat)
      returns (r: Result<Option<string>, CoreError>)
      requires Valid()
      modifies this
      ensures Quiet(old(audit), audit)
      ensures Valid()
      ensures old(tables).meta.Some? ==> r == Err(AlreadyInitialized) && tables == old(tables) && kek == old(kek) && audit == old(audit)
      ensures r.Err? && old(tables).meta.None? ==> faults > old(faults)
      ensures old(tables).meta.None? ==>
        || (r == Err(Db) && tables == old(tables) && kek == old(kek) && audit == old(audit))
        || (&& kek == Some(newKek) && Unlocks(tables, newKek) && Contents(tables) == map[]
            && tables.meta.value.provider == provider && tables.meta.value.kekSalt == salt
            && tables.meta.value.credentialId == credentialId && tables.meta.value.userHandle == userHandle
            && RecoveryIs(tables.meta.value, newKek, if with then Some(secret) else None)
            && match r
               case Err(e) => e == Db && audit == old(audit)
               case Ok(text) => text == (if with then Some(Recovery.Format(sha, secret)) else None)
                                && audit == old(audit) + [Event(VaultInitialized)])
    {
      hide Recovery.Format;
      if tables.meta.Some? {
        return Err(AlreadyInitialized);
      }
      var (rs, rb) := RecoveryColumns(newKek, with, secret, recoverySalt);
      var inserted := Write();
      if !inserted {
        return Err(Db);
      }
      tables := tables.(meta := Some(Meta(provider, salt, MakeVerifier(newKek), rs, rb, credentialId, userHandle)));
      assert RecoveryIs(tables.meta.value, newKek, if with then Some(secret) else None);
      kek := Some(newKek);
      var ok := Audit(Event(VaultInitialized));
      if !ok {
        return Err(Db);
      }
      return Ok(if with then Some(Recovery.Format(sha, secret)) else None);
    }

    /** A key is installed exactly when it opens the stored verifier, even if the audit row then fails. */
    method Unlock(k: Key) returns (r: Result<(), CoreError>)
      requires Valid()
      modifies this`kek, this`audit, this`faults
      ensures Quiet(old(audit), audit)
      ensures Valid()
      ensures tables.meta.None? ==> r == Err(NotInitialized)
      ensures tables.meta.Some? && !Unlocks(tables, k) ==> r == Err(WrongKey)
      ensures !Unlocks(tables, k) ==> kek == old(kek) && audit == old(audit)
      ensures Unlocks(tables, k) ==> kek == Some(k) && (r.Ok? || (r.error == Db && faults > old(faults)))
      ensures faults >= old(faults)
      ensures audit == if r.Ok? then old(audit) + [Event(VaultUnlocked)] else old(audit)
    {
      if tables.meta.None? {
        return Err(NotInitialized);
      }
      var pt := Open(k, tables.meta.value.verifier, ForVerifier);
      if pt.Err? {
        return Err(pt.error);
      }
      if pt.value != VerifierText {
        return Err(WrongKey);
      }
      kek := Some(k);
      var ok := Audit(Event(VaultUnlocked));
      return if ok then Ok(()) else Err(Db);
    }

    /** Does this text spell the secret of the current recovery copy? */
    predicate RecoveryAccepts(text: string)
      reads this
    {
      && tables.meta.Some? && tables.meta.value.verifier.Sealed?
      && Recovery.Parse(sha, text).Ok?
      && RecoveryIs(tables.meta.value, KekOf(tables), Some(Recovery.Parse(sha, text).value))
    }

    /** The recovery key opens the vault exactly when it spells the current recovery secret. */
    method UnlockWithRecovery(text: string) returns (r: Result<(), CoreError>)
      requires Valid()
      modifies this`kek, this`audit, this`faults
      ensures Quiet(old(audit), audit)
      ensures Valid()
      ensures RecoveryAccepts(text) ==> kek == Some(KekOf(tables)) && (r.Ok? || (r.error == Db && faults > old(faults)))
      ensures !RecoveryAccepts(text) ==>
        kek == old(kek) && audit == old(audit)
        && r == Err(if tables.meta.None? then NotInitialized else CoreError.InvalidRecoveryKey)
      ensures r.Ok? ==> audit == old(audit) + [Event(VaultUnlocked), Event(RecoveryUsed)]
    {
      hide Recovery.Parse;
      if tables.meta.None? {
        return Err(NotInitialized);
      }
      var meta := tables.meta.value;
      ghost var current :| RecoveryIs(meta, KekOf(tables), current);
      if meta.recoverySalt.None? || meta.recoveryBlob.None? {
        return Err(CoreError.InvalidRecoveryKey);
      }
      var secret := Recovery.Parse(sha, text);
      if secret.Err? {
        return Err(CoreError.InvalidRecoveryKey);
      }
      RecoversExactly(meta, KekOf(tables), current, secret.value);
      var found := Recover(meta, secret.value);
      if found.Err? {
        return Err(CoreError.InvalidRecoveryKey);
      }
      UnlocksExactlyKek(tables, found.value);
      r := Unlock(found.value);
      if r.Ok? {
        var ok := Audit(Event(RecoveryUsed));
        if !ok {
          return Err(Db);
        }
      }
    }

    method Lock() returns (r: Result<(), CoreError>)
      requires Valid()
      modifies this`kek, this`audit, this`faults
      ensures Quiet(old(audit), audit)
      ensures Valid() && kek == None
      ensures r.Ok? ==> audit == if old(kek).Some? then old(audit) + [Event(VaultLocked)] else old(audit)
      ensures r.Err? ==> r.error == Db && audit == old(audit) && faults > old(faults)
    {
      r := Ok(());
      if kek.Some? {
        kek := None;
        var ok := Audit(Event(VaultLocked));
        if !ok {
          return Err(Db);
        }
      }
    }

    /** The transaction's loop: rows before `i` are wrapped under the new KEK, the others still under the old one. */
    method RewrapRows(current: Key, newKek: Key) returns (tx: seq<SecretRow>, r: Result<(), CoreError>)
      requires Valid() && kek == Some(current)
      modifies this`faults
      ensures r.Ok? ==> tx == RewrapAll(tables.secrets, current, newKek)
      ensures r.Err? ==> r.error == Db && faults > old(faults)
      ensures faults >= old(faults)
    {
      hide RowOk, Decrypt;
      UnlocksExactlyKek(tables, current);
      var rows := tables.secrets;
      tx := rows;
      for i := 0 to |rows|
        invariant |tx| == |rows| && faults >= old(faults)
        invariant forall j :: 0 <= j < i ==> tx[j] == Rewrapped(rows[j], current, newKek)
        invariant forall j :: i <= j < |rows| ==> tx[j] == rows[j]
      {
        var dek := OpenKey(current, rows[i].wrapped, ForRow(rows[i].id));
        KeyOpens(rows[i], current);
        var updated := Write();
        if !updated {
          r := Err(Db);
          return;
        }
        forall j | 0 <= j < |rows| && j != i ensures tx[j].id != rows[i].id {
          assert j < i ==> tx[j].id == rows[j].id;
        }
        tx := SetWrapped(tx, rows[i].id, Seal(newKek, KeyBytes(dek.value), ForRow(rows[i].id)));
      }
      r := Ok(());
    }

    /** Changing the KEK is all or nothing. Afterwards exactly the new KEK unlocks, exactly the new recovery
        secret (if any) recovers, and the stored values are what they were. */
    method Rekey(newKek: Key, newSalt: nat, provider: Provider, credentialId: Option<string>, userHandle: Option<nat>,
        with: bool, secret: seq<Byte>, recoverySalt: nat)
      returns (r: Result<Option<string>, CoreError>)
      requires Valid()
      modifies this`tables, this`kek, this`faults
      ensures Valid()
      ensures old(kek).None? ==> r == Err(Locked)
      ensures r.Err? ==> tables == old(tables) && kek == old(kek)
      ensures r.Err? && old(kek).Some? ==> r.error == Db && faults > old(faults)
      ensures r.Ok? ==>
        && kek == Some(newKek) && Contents(tables) == old(Contents(tables))
        && (forall k :: Unlocks(tables, k) <==> k == newKek)
        && tables.meta.value.provider == provider && tables.meta.value.kekSalt == newSalt
        && tables.meta.value.credentialId == credentialId && tables.meta.value.userHandle == userHandle
        && |tables.secrets| == |old(tables).secrets|
        && (forall i :: 0 <= i < |tables.secrets| ==>
              tables.secrets[i] == old(tables).secrets[i].(wrapped := tables.secrets[i].wrapped))
        && RecoveryIs(tables.meta.value, newKek, if with then Some(secret) else None)
        && r.value == if with then Some(Recovery.Format(sha, secret)) else None
    {
      hide Recovery.Format, RowsOk, View, Unique, Rewrapped;
      if kek.None? {
        return Err(Locked);
      }
      var current := kek.value;
      UnlocksExactlyKek(tables, current);
      var tx, rewrapped := RewrapRows(current, newKek);
      if rewrapped.Err? {
        return Err(rewrapped.error);
      }
      RewrapKeepsView(tables.secrets, current, newKek);
      RewrapKeepsRows(tables.secrets, current, newKek);
      var (rs, rb) := RecoveryColumns(newKek, with, secret, recoverySalt);
      var meta := tables.meta.value;
      var committed := Write();
      if !committed {
        return Err(Db);
      }
      tables := Tables(Some(Meta(provider, newSalt, MakeVerifier(newKek), rs, rb, credentialId, userHandle)), tx);
      assert RecoveryIs(tables.meta.value, newKek, if with then Some(secret) else None);
      kek := Some(newKek);
      return Ok(if with then Some(Recovery.Format(sha, secret)) else None);
    }

    /** A new recovery key replaces the previous one and nothing else. */
    method RegenerateRecovery(secret: seq<Byte>, recoverySalt: nat) returns (r: Result<string, CoreError>)
      requires Valid()
      modifies this`tables, this`faults
      ensures Valid()
      ensures kek.None? ==> r == Err(Locked)
      ensures r.Err? ==> tables == old(tables)
      ensures r.Err? && kek.Some? ==> r.error == Db && faults > old(faults)
      ensures r.Ok? ==>
        && r.value == Recovery.Format(sha, secret)
        && tables.meta.Some? && RecoveryIs(tables.meta.value, kek.value, Some(secret))
        && Contents(tables) == old(Contents(tables)) && (forall k :: Unlocks(tables, k) <==> old(Unlocks(tables, k)))
        && tables.secrets == old(tables).secrets && old(tables).meta.Some?
        && var now, was := tables.meta.value, old(tables).meta.value;
        && now.provider == was.provider && now.kekSalt == was.kekSalt && now.verifier == was.verifier
        && now.credentialId == was.credentialId && now.userHandle == was.userHandle
    {
      hide Recovery.Format, RowsOk, View;
      if kek.None? {
        return Err(Locked);
      }
      var (rs, rb) := RecoveryColumns(kek.value, true, secret, recoverySalt);
      var updated := Write();
      if !updated {
        return Err(Db);
      }
      tables := tables.(meta := Some(tables.meta.value.(recoverySalt := rs, recoveryBlob := rb)));
      assert RecoveryIs(tables.meta.value, kek.value, Some(secret));
      return Ok(Recovery.Format(sha, secret));
    }

    /** Store a value. `newId` is used only for a new row; a clash with an existing id fails the insert. */
    method PutSecret(name: Name, value: string, newId: string, dek: Key) returns (r: Result<SecretRow, CoreError>)
      requires Valid()
      modifies this`tables, this`audit, this`faults
      ensures Quiet(old(audit), audit)
      ensures Valid()
      ensures kek.None? ==> r == Err(Locked)
      ensures kek.Some? && Trim(value) == "" ==> r == Err(EmptyValue)
      ensures tables.meta == old(tables).meta
      ensures r.Ok? ==> Contents(tables) == old(Contents(tables))[name := Trim(value)]
                        && NameOf(r.value) == name && r.value.fingerprint == Redact.Fingerprint(Trim(value))
                        && r.value in tables.secrets
                        && audit == old(audit) + [AuditRow(if Stores(old(tables).secrets, name) then SecretUpdated else SecretAdded, None, Some(name))]
      ensures tables == old(tables) || PutOne(old(tables).secrets, tables.secrets, name, newId)
      ensures r.Err? && kek.Some? && Trim(value) != "" && (Stores(old(tables).secrets, name) || !HasId(old(tables).secrets, newId)) ==>
        r.error == Db && faults > old(faults)
      ensures r.Err? ==> audit == old(audit)
                         && (tables == old(tables)
                             || (r.error == Db && Contents(tables) == old(Contents(tables))[name := Trim(value)]))
    {
      hide RowsOk, View, Trim, Upsert, MakeRow, Redact.Fingerprint, PutOne, Stores, Unique;
      if kek.None? {
        return Err(Locked);
      }
      var trimmed := Trim(value);
      if trimmed == "" {
        return Err(EmptyValue);
      }
      TrimTwice(value);
      FindStores(tables.secrets, name);
      var existing := Find(tables.secrets, name);
      var id := if existing.Some? then existing.value.id else newId;
      if existing.None? && exists i :: 0 <= i < |tables.secrets| && tables.secrets[i].id == id {
        return Err(Db);
      }
      var written := Write();
      if !written {
        return Err(Db);
      }
      UnlocksExactlyKek(tables, kek.value);
      UpsertOverrides(tables.secrets, kek.value, id, name, trimmed, dek);
      UpsertStores(tables.secrets, MakeRow(id, name, trimmed, dek, kek.value));
      UpsertPuts(tables.secrets, id, name, trimmed, dek, kek.value, newId);
      tables := tables.(secrets := Upsert(tables.secrets, MakeRow(id, name, trimmed, dek, kek.value)));
      var ok := Audit(AuditRow(if existing.Some? then SecretUpdated else SecretAdded, None, Some(name)));
      if !ok {
        return Err(Db);
      }
      MadeRowFields(id, name, trimmed, dek, kek.value);
      var stored := Find(tables.secrets, name);
      return Ok(stored.value);
    }

    /** Reading is looking up in the plain map, while unlocked. */
    function ReadSecretValue(name: Name): (r: Result<string, CoreError>)
      requires Valid()
      reads this
      ensures kek.None? ==> r == Err(Locked)
      ensures kek.Some? ==> r == if name in Contents(tables) then Ok(Contents(tables)[name]) else Err(SecretNotFound)
    {
      if kek.None? then Err(Locked)
      else
        UnlocksExactlyKek(tables, kek.value);
        ReadIsLookup(tables.secrets, kek.value, name);
        ReadValue(tables.secrets, kek.value, name)
    }

    method DeleteSecret(id: string) returns (r: Result<(), CoreError>)
      requires Valid()
      modifies this`tables, this`audit, this`faults
      ensures Quiet(old(audit), audit)
      ensures Valid() && tables.meta == old(tables).meta
      ensures !HasId(old(tables).secrets, id) ==> tables == old(tables) && audit == old(audit) && r == Ok(())
      ensures r.Ok? ==> !HasId(tables.secrets, id)
      ensures r.Err? ==> r.error == Db && faults > old(faults)
      ensures tables == old(tables) || forall row :: row in tables.secrets <==> row in old(tables).secrets && row.id != id
      ensures r.Ok? && HasId(old(tables).secrets, id) ==>
        exists row :: row in old(tables).secrets && row.id == id
                      && audit == old(audit) + [AuditRow(SecretDeleted, None, Some(NameOf(row)))]
      ensures forall n :: 0 <= n < |old(tables).secrets| && old(tables).secrets[n].id == id ==>
        if r.Ok? then Contents(tables) == old(Contents(tables)) - {NameOf(old(tables).secrets[n])}
        else tables == old(tables) || Contents(tables) == old(Contents(tables)) - {NameOf(old(tables).secrets[n])}
    {
      hide RowsOk, View, Without;
      r := Ok(());
      if i :| 0 <= i < |tables.secrets| && tables.secrets[i].id == id {
        var name := NameOf(tables.secrets[i]);
        var deleted := Write();
        if !deleted {
          return Err(Db);
        }
        WithoutRemoves(tables.secrets, id, KekOf(tables), i);
        WithoutUnique(tables.secrets, id);
        WithoutHasNoId(tables.secrets, id);
        WithoutKeeps(tables.secrets, id);
        ghost var gone := tables.secrets[i];
        tables := tables.(secrets := Without(tables.secrets, id));
        var ok := Audit(AuditRow(SecretDeleted, None, Some(name)));
        if !ok {
          return Err(Db);
        }
      }
    }
  }

  lemma KeyOpens(row: SecretRow, kek: Key)
    requires RowOk(row, kek)
    ensures OpenKey(kek, row.wrapped, ForRow(row.id)).Ok?
  {
  }

  lemma RewrapKeepsRows(rows: seq<SecretRow>, current: Key, newKek: Key)
    ensures var tx := RewrapAll(rows, current, newKek);
            forall i :: 0 <= i < |rows| ==> tx[i] == rows[i].(wrapped := tx[i].wrapped)
  {
  }

  lemma FindStores(rows: seq<SecretRow>, name: Name)
    ensures Find(rows, name).Some? <==> Stores(rows, name)
  {
    if i :| 0 <= i < |rows| && NameOf(rows[i]) == name {
      assert rows[i] in rows;
    }
    if Find(rows, name).Some? {
      var i :| 0 <= i < |rows| && rows[i] == Find(rows, name).value;
    }
  }

  lemma TrimTwice(s: string)
    ensures Trim(Trim(s)) == Trim(s)
  {
    hide TrimStart, TrimEnd, IsWhitespace;
    var t := Trim(s);
    assert "" + t == t && t + "" == t;
    TrimStartOf("", t);
    TrimEndOf(t, "");
  }

  lemma MadeRowFields(id: string, name: Name, value: string, dek: Key, kek: Key)
    ensures NameOf(MakeRow(id, name, value, dek, kek)) == name
    ensures MakeRow(id, name, value, dek, kek).fingerprint == Redact.Fingerprint(value)
  {
  }

  lemma UpsertStores(rows: seq<SecretRow>, row: SecretRow)
    ensures var found := Find(Upsert(rows, row), NameOf(row));
            found.Some? && found.value.fingerprint == row.fingerprint
  {
    var rows' := Upsert(rows, row);
    if Find(rows, NameOf(row)).None? {
      assert rows'[|rows|] == row && row in rows';
    } else {
      var i :| 0 <= i < |rows| && rows[i] == Find(rows, NameOf(row)).value;
      assert NameOf(rows'[i]) == NameOf(row) && rows'[i] in rows';
    }
  }

  lemma UpsertPuts(rows: seq<SecretRow>, id: string, name: Name, value: string, dek: Key, kek: Key, newId: string)
    requires match Find(rows, name) case None => id == newId case Some(row) => id == row.id
    ensures PutOne(rows, Upsert(rows, MakeRow(id, name, value, dek, kek)), name, newId)
  {
    hide Redact.Fingerprint;
    FindStores(rows, name);
    if Find(rows, name).Some? {
      var i :| 0 <= i < |rows| && rows[i] == Find(rows, name).value;
    }
  }

  lemma WithoutKeeps(rows: seq<SecretRow>, id: string)
    ensures forall row :: row in Without(rows, id) <==> row in rows && row.id != id
  {
    hide Without;
    forall row ensures row in Without(rows, id) <==> row in rows && row.id != id {
      WithoutIs(rows, id, row);
    }
  }

  lemma WithoutHasNoId(rows: seq<SecretRow>, id: string)
    ensures !HasId(Without(rows, id), id)
  {
  }
}
