/** The encrypted tables, and the plain map they stand for. */
module Tables {
  import opened Prelude
  import opened Bits
  import opened Text
  import opened Crypto
  import opened Recovery
  import Redact

  datatype Provider = PasskeyPrf | TouchIdKeychain

  datatype Meta = Meta(
    provider: Provider,
    kekSalt: nat,
    verifier: Blob,
    recoverySalt: Option<nat>,
    recoveryBlob: Option<Blob>,
    credentialId: Option<string>,
    userHandle: Option<nat>)

  datatype SecretRow = SecretRow(
    id: string,
    service: string,
    keyType: string,
    fingerprint: string,
    wrapped: Blob,
    ciphertext: Blob)

  datatype Tables = Tables(meta: Option<Meta>, secrets: seq<SecretRow>)

  type Name = (string, string)

  function NameOf(row: SecretRow): Name {
    (row.service, row.keyType)
  }

  // ------------------------------------------------------------------ reading

  /** Unwrap the row's own key with the KEK, then the value with that key; both are bound to the row id. */
  function Decrypt(row: SecretRow, kek: Key): Result<string, CoreError> {
    match OpenKey(kek, row.wrapped, ForRow(row.id))
    case Err(e) => Err(e)
    case Ok(dek) =>
      match Open(dek, row.ciphertext, ForRow(row.id))
      case Err(e) => Err(e)
      case Ok(Value(v)) => Ok(v)
      case Ok(_) => Err(BadBlob)
  }

  /** `SELECT .. WHERE service = ? AND key_type = ?`. */
  function Find(rows: seq<SecretRow>, name: Name): (r: Option<SecretRow>)
    ensures r.Some? ==> r.value in rows && NameOf(r.value) == name
    ensures r.None? ==> forall row :: row in rows ==> NameOf(row) != name
  {
    if rows == [] then None
    else if NameOf(rows[|rows| - 1]) == name then Some(rows[|rows| - 1])
    else Find(rows[..|rows| - 1], name)
  }

  function ReadValue(rows: seq<SecretRow>, kek: Key, name: Name): Result<string, CoreError> {
    match Find(rows, name)
    case None => Err(SecretNotFound)
    case Some(row) => Decrypt(row, kek)
  }

  // ------------------------------------------------------------------ the plain map

  /** A row that opens under `kek` to a trimmed, nonempty value its preview belongs to. */
  predicate RowOk(row: SecretRow, kek: Key) {
    match Decrypt(row, kek)
    case Err(_) => false
    case Ok(v) => v == Trim(v) && v != "" && row.fingerprint == Redact.Fingerprint(v)
  }

  predicate RowsOk(rows: seq<SecretRow>, kek: Key) {
    forall i :: 0 <= i < |rows| ==> RowOk(rows[i], kek)
  }

  /** PRIMARY KEY (id) and UNIQUE (service, key_type). */
  predicate Unique(rows: seq<SecretRow>) {
    forall i, j :: 0 <= i < j < |rows| ==> rows[i].id != rows[j].id && NameOf(rows[i]) != NameOf(rows[j])
  }

  /** The value of a row that opens. */
  function Plain(row: SecretRow, kek: Key): string
    requires RowOk(row, kek)
  {
    Decrypt(row, kek).value
  }

  function View(rows: seq<SecretRow>, kek: Key): map<Name, string>
    requires RowsOk(rows, kek)
  {
    if rows == [] then map[]
    else
      hide RowOk;
      var row := rows[|rows| - 1];
      View(rows[..|rows| - 1], kek)[NameOf(row) := Plain(row, kek)]
  }

  function KekOf(t: Tables): Key
    requires t.meta.Some? && t.meta.value.verifier.Sealed?
  {
    t.meta.value.verifier.key
  }

  function MakeVerifier(kek: Key): Blob {
    Seal(kek, VerifierText, ForVerifier)
  }

  /** Does this key unlock the vault? */
  predicate Unlocks(t: Tables, kek: Key) {
    t.meta.Some? && Open(kek, t.meta.value.verifier, ForVerifier) == Ok(VerifierText)
  }

  /** The KEK a recovery secret uncovers. */
  function Recover(meta: Meta, secret: seq<Byte>): Result<Key, CoreError> {
    if meta.recoverySalt.None? || meta.recoveryBlob.None? then Err(CoreError.InvalidRecoveryKey)
    else
      match OpenKey(FromRecovery(secret, meta.recoverySalt.value), meta.recoveryBlob.value, ForRecovery)
      case Err(_) => Err(CoreError.InvalidRecoveryKey)
      case Ok(k) => Ok(k)
  }

  /** The recovery secret the tables were last given, if any. */
  predicate RecoveryIs(meta: Meta, kek: Key, secret: Option<seq<Byte>>) {
    match secret
    case None => meta.recoverySalt == None && meta.recoveryBlob == None
    case Some(s) =>
      && meta.recoverySalt.Some?
      && meta.recoveryBlob == Some(Seal(FromRecovery(s, meta.recoverySalt.value), KeyBytes(kek), ForRecovery))
  }

  /** One KEK opens the verifier, every row and, if there is one, the recovery copy holds that same KEK. */
  ghost predicate Sound(t: Tables) {
    match t.meta
    case None => t.secrets == []
    case Some(m) =>
      && m.verifier.Sealed? && m.verifier == MakeVerifier(m.verifier.key)
      && (exists secret :: RecoveryIs(m, m.verifier.key, secret))
      && Unique(t.secrets) && RowsOk(t.secrets, m.verifier.key)
  }

  /** The plain map from (service, key type) to value that the encrypted tables stand for. */
  ghost function Contents(t: Tables): map<Name, string>
    requires Sound(t)
  {
    match t.meta
    case None => map[]
    case Some(m) => View(t.secrets, m.verifier.key)
  }

  lemma UnlocksExactlyKek(t: Tables, kek: Key)
    requires Sound(t) && t.meta.Some?
    ensures Unlocks(t, kek) <==> kek == KekOf(t)
  {
  }

  /** A secret uncovers the KEK exactly when it is the one the recovery copy was made with. */
  lemma RecoversExactly(meta: Meta, kek: Key, current: Option<seq<Byte>>, secret: seq<Byte>)
    requires RecoveryIs(meta, kek, current)
    ensures Recover(meta, secret).Ok? <==> current == Some(secret)
    ensures Recover(meta, secret).Ok? ==> Recover(meta, secret).value == kek
  {
  }

  lemma RowOkDecrypts(row: SecretRow, kek: Key)
    requires RowOk(row, kek)
    ensures Decrypt(row, kek).Ok?
  {
    hide Decrypt;
  }

  lemma RowOkSame(row: SecretRow, row': SecretRow, kek: Key, kek': Key)
    requires RowOk(row, kek) && row'.fingerprint == row.fingerprint && Decrypt(row', kek') == Decrypt(row, kek)
    ensures RowOk(row', kek')
  {
    hide Decrypt;
  }

  lemma RemoveOther<K, V>(m: map<K, V>, x: K, k: K, v: V)
    requires x != k
    ensures (m - {x})[k := v] == m[k := v] - {x}
  {
  }

  lemma RemoveSame<K, V>(m: map<K, V>, k: K, v: V)
    requires k !in m
    ensures m[k := v] - {k} == m
  {
  }

  lemma {:induction false} ViewKeys(rows: seq<SecretRow>, kek: Key, name: Name)
    requires RowsOk(rows, kek)
    ensures name in View(rows, kek) <==> exists i :: 0 <= i < |rows| && NameOf(rows[i]) == name
  {
    hide RowOk, Decrypt;
    if rows != [] {
      var front := rows[..|rows| - 1];
      ViewKeys(front, kek, name);
      assert forall i :: 0 <= i < |front| ==> front[i] == rows[i];
      if i :| 0 <= i < |rows| && NameOf(rows[i]) == name {
        assert i < |front| ==> NameOf(front[i]) == name;
      }
    }
  }

  /** Reading a value from the tables is looking it up in the plain map. */
  lemma {:induction false} ReadIsLookup(rows: seq<SecretRow>, kek: Key, name: Name)
    requires RowsOk(rows, kek)
    ensures ReadValue(rows, kek, name) == if name in View(rows, kek) then Ok(View(rows, kek)[name]) else Err(SecretNotFound)
  {
    hide Decrypt, RowOk;
    if rows != [] {
      ReadIsLookup(rows[..|rows| - 1], kek, name);
      RowOkDecrypts(rows[|rows| - 1], kek);
    }
  }

  // ------------------------------------------------------------------ writing

  function MakeRow(id: string, name: Name, value: string, dek: Key, kek: Key): SecretRow {
    SecretRow(id, name.0, name.1, Redact.Fingerprint(value),
              Seal(kek, KeyBytes(dek), ForRow(id)), Seal(dek, Value(value), ForRow(id)))
  }

  predicate HasId(rows: seq<SecretRow>, id: string) {
    exists i :: 0 <= i < |rows| && rows[i].id == id
  }

  /** `INSERT .. ON CONFLICT(service, key_type) DO UPDATE`: an existing row keeps its id. */
  function Upsert(rows: seq<SecretRow>, row: SecretRow): (r: seq<SecretRow>)
  {
    if Find(rows, NameOf(row)).None? then rows + [row]
    else
      seq(|rows|, i requires 0 <= i < |rows| =>
        if NameOf(rows[i]) == NameOf(row)
        then rows[i].(fingerprint := row.fingerprint, wrapped := row.wrapped, ciphertext := row.ciphertext)
        else rows[i])
  }

  /** `UPDATE secrets SET wrapped_dek = ? WHERE id = ?`. */
  function SetWrapped(rows: seq<SecretRow>, id: string, wrapped: Blob): (r: seq<SecretRow>)
    ensures |r| == |rows|
    ensures forall i :: 0 <= i < |rows| ==> r[i] == if rows[i].id == id then rows[i].(wrapped := wrapped) else rows[i]
  {
    seq(|rows|, i requires 0 <= i < |rows| => if rows[i].id == id then rows[i].(wrapped := wrapped) else rows[i])
  }

  /** `DELETE FROM secrets WHERE id = ?`. */
  function Without(rows: seq<SecretRow>, id: string): seq<SecretRow> {
    if rows == [] then []
    else Without(rows[..|rows| - 1], id) + if rows[|rows| - 1].id == id then [] else [rows[|rows| - 1]]
  }

  lemma MadeRowDecrypts(id: string, name: Name, value: string, dek: Key, kek: Key)
    ensures Decrypt(MakeRow(id, name, value, dek, kek), kek) == Ok(value)
  {
  }

  lemma {:induction false} ViewSame(rows: seq<SecretRow>, rows': seq<SecretRow>, kek: Key, kek': Key)
    requires RowsOk(rows, kek) && |rows| == |rows'|
    requires forall i :: 0 <= i < |rows| ==>
      NameOf(rows'[i]) == NameOf(rows[i]) && rows'[i].fingerprint == rows[i].fingerprint
      && Decrypt(rows'[i], kek') == Decrypt(rows[i], kek)
    ensures RowsOk(rows', kek') && View(rows', kek') == View(rows, kek)
  {
    hide Decrypt, RowOk;
    forall i | 0 <= i < |rows'| ensures RowOk(rows'[i], kek') {
      RowOkSame(rows[i], rows'[i], kek, kek');
    }
    if rows != [] {
      RowOkDecrypts(rows[|rows| - 1], kek);
      ViewSame(rows[..|rows| - 1], rows'[..|rows| - 1], kek, kek');
    }
  }

  lemma {:induction false} ViewUpdate(rows: seq<SecretRow>, rows': seq<SecretRow>, kek: Key, n: nat, v: string)
    requires RowsOk(rows, kek) && RowsOk(rows', kek) && Unique(rows)
    requires n < |rows| == |rows'|
    requires forall i :: 0 <= i < |rows| && i != n ==> rows'[i] == rows[i]
    requires NameOf(rows'[n]) == NameOf(rows[n]) && Decrypt(rows'[n], kek) == Ok(v)
    ensures View(rows', kek) == View(rows, kek)[NameOf(rows[n]) := v]
  {
    hide Decrypt, RowOk;
    var last := |rows| - 1;
    if n == last {
      assert rows'[..last] == rows[..last];
    } else {
      ViewUpdate(rows[..last], rows'[..last], kek, n, v);
      assert NameOf(rows[n]) != NameOf(rows[last]);
      assert rows'[last] == rows[last];
    }
  }

  /** Storing a value overrides one entry of the plain map, whether its row is new or overwritten. */
  lemma UpsertOverrides(rows: seq<SecretRow>, kek: Key, id: string, name: Name, value: string, dek: Key)
    requires Unique(rows) && RowsOk(rows, kek)
    requires value == Trim(value) && value != ""
    requires match Find(rows, name) case None => !HasId(rows, id) case Some(row) => id == row.id
    ensures var rows' := Upsert(rows, MakeRow(id, name, value, dek, kek));
            Unique(rows') && RowsOk(rows', kek) && View(rows', kek) == View(rows, kek)[name := value]
  {
    var row := MakeRow(id, name, value, dek, kek);
    var rows' := Upsert(rows, row);
    MadeRowDecrypts(id, name, value, dek, kek);
    if Find(rows, name).None? {
      InsertOverrides(rows, kek, row, value);
    } else {
      var found := Find(rows, name).value;
      var n :| 0 <= n < |rows| && rows[n] == found;
      OverwriteOverrides(rows, rows', kek, n, row, value);
    }
  }

  lemma InsertOverrides(rows: seq<SecretRow>, kek: Key, row: SecretRow, value: string)
    requires Unique(rows) && RowsOk(rows, kek)
    requires RowOk(row, kek) && Decrypt(row, kek) == Ok(value)
    requires Find(rows, NameOf(row)).None? && !HasId(rows, row.id)
    ensures var rows' := rows + [row];
            Unique(rows') && RowsOk(rows', kek) && View(rows', kek) == View(rows, kek)[NameOf(row) := value]
  {
    hide Decrypt, RowOk;
    var rows' := rows + [row];
    assert rows'[..|rows|] == rows && rows'[|rows|] == row;
    forall i | 0 <= i < |rows| ensures NameOf(rows[i]) != NameOf(row) && rows[i].id != row.id {
      assert rows[i] in rows;
    }
  }

  lemma OverwriteOverrides(rows: seq<SecretRow>, rows': seq<SecretRow>, kek: Key, n: nat, row: SecretRow, value: string)
    requires Unique(rows) && RowsOk(rows, kek) && n < |rows|
    requires rows[n].id == row.id && NameOf(rows[n]) == NameOf(row)
    requires RowOk(row, kek) && Decrypt(row, kek) == Ok(value)
    requires rows' == Upsert(rows, row) && Find(rows, NameOf(row)).Some?
    ensures Unique(rows') && RowsOk(rows', kek) && View(rows', kek) == View(rows, kek)[NameOf(row) := value]
  {
    hide Decrypt, RowOk;
    assert rows'[n] == row;
    forall i | 0 <= i < |rows| && i != n ensures rows'[i] == rows[i] {
      assert NameOf(rows[i]) != NameOf(rows[n]);
    }
    assert RowsOk(rows', kek);
    ViewUpdate(rows, rows', kek, n, value);
  }

  lemma {:induction false} WithoutIs(rows: seq<SecretRow>, id: string, row: SecretRow)
    ensures row in Without(rows, id) <==> row in rows && row.id != id
  {
    if rows != [] {
      WithoutIs(rows[..|rows| - 1], id, row);
      assert row in rows <==> row in rows[..|rows| - 1] || row == rows[|rows| - 1];
    }
  }

  lemma {:induction false} WithoutUnique(rows: seq<SecretRow>, id: string)
    requires Unique(rows)
    ensures Unique(Without(rows, id))
  {
    if rows != [] {
      var front, last := rows[..|rows| - 1], rows[|rows| - 1];
      WithoutUnique(front, id);
      var kept := Without(front, id);
      forall i | 0 <= i < |kept| ensures kept[i].id != last.id && NameOf(kept[i]) != NameOf(last) {
        WithoutIs(front, id, kept[i]);
        assert kept[i] in kept;
        var j :| 0 <= j < |front| && front[j] == kept[i];
        assert rows[j] == kept[i];
      }
    }
  }

  lemma WithoutOk(rows: seq<SecretRow>, id: string, kek: Key)
    requires RowsOk(rows, kek)
    ensures RowsOk(Without(rows, id), kek)
  {
    hide RowOk;
    var kept := Without(rows, id);
    forall i | 0 <= i < |kept| ensures RowOk(kept[i], kek) {
      WithoutIs(rows, id, kept[i]);
      assert kept[i] in kept;
      assert kept[i] in rows;
    }
  }

  /** Deleting a row removes exactly its entry of the plain map. */
  lemma {:induction false} WithoutRemoves(rows: seq<SecretRow>, id: string, kek: Key, n: nat)
    requires Unique(rows) && RowsOk(rows, kek) && n < |rows| && rows[n].id == id
    ensures RowsOk(Without(rows, id), kek)
    ensures View(Without(rows, id), kek) == View(rows, kek) - {NameOf(rows[n])}
  {
    hide RowOk, Decrypt;
    WithoutOk(rows, id, kek);
    var front, last := rows[..|rows| - 1], rows[|rows| - 1];
    if n == |front| {
      WithoutNothing(front, id);
      ViewKeys(front, kek, NameOf(last));
      assert forall i :: 0 <= i < |front| ==> front[i] == rows[i];
      assert Without(rows, id) == front;
      RowOkDecrypts(last, kek);
      RemoveSame(View(front, kek), NameOf(last), Decrypt(last, kek).value);
    } else {
      WithoutRemoves(front, id, kek, n);
      assert last.id != id && NameOf(last) != NameOf(rows[n]);
      var kept := Without(front, id) + [last];
      assert Without(rows, id) == kept;
      assert kept[..|kept| - 1] == Without(front, id);
      RowOkDecrypts(last, kek);
      RemoveOther(View(front, kek), NameOf(rows[n]), NameOf(last), Decrypt(last, kek).value);
    }
  }

  lemma {:induction false} WithoutNothing(rows: seq<SecretRow>, id: string)
    requires forall i :: 0 <= i < |rows| ==> rows[i].id != id
    ensures Without(rows, id) == rows
  {
    if rows != [] {
      WithoutNothing(rows[..|rows| - 1], id);
      assert rows == rows[..|rows| - 1] + [rows[|rows| - 1]];
    }
  }

  /** Every box is bound to its row: a row moved under another id opens for nobody... */
  lemma MovedRowStaysShut(row: SecretRow, id: string, kek: Key, k: Key)
    requires Decrypt(row, kek).Ok? && row.id != id
    ensures Decrypt(row.(id := id), k).Err?
  {
  }

  /** ...and neither does one that is given the key or, under its own key, the value of another row. */
  lemma SwappedBoxesStayShut(row: SecretRow, other: SecretRow, kek: Key, k: Key, v: Blob)
    requires Decrypt(row, kek).Ok? && Decrypt(other, kek).Ok? && row.id != other.id
    requires v == other.ciphertext || (v.Sealed? && v == other.ciphertext.(key := row.ciphertext.key))
    ensures Decrypt(row.(wrapped := other.wrapped), k).Err?
    ensures Decrypt(row.(ciphertext := v), k).Err?
  {
  }

  // ------------------------------------------------------------------ rewrapping

  /** A row whose key is wrapped anew. */
  function Rewrapped(row: SecretRow, old': Key, new': Key): SecretRow {
    match OpenKey(old', row.wrapped, ForRow(row.id))
    case Err(_) => row
    case Ok(dek) => row.(wrapped := Seal(new', KeyBytes(dek), ForRow(row.id)))
  }

  function RewrapAll(rows: seq<SecretRow>, old': Key, new': Key): (r: seq<SecretRow>)
    ensures |r| == |rows| && forall i :: 0 <= i < |rows| ==> r[i] == Rewrapped(rows[i], old', new')
  {
    seq(|rows|, i requires 0 <= i < |rows| => Rewrapped(rows[i], old', new'))
  }

  lemma RewrappedDecrypts(row: SecretRow, old': Key, new': Key)
    requires Decrypt(row, old').Ok?
    ensures Decrypt(Rewrapped(row, old', new'), new') == Decrypt(row, old')
  {
  }

  /** Changing the KEK rewraps the row keys and leaves the plain map as it is. */
  lemma RewrapKeepsView(rows: seq<SecretRow>, old': Key, new': Key)
    requires Unique(rows) && RowsOk(rows, old')
    ensures var rows' := RewrapAll(rows, old', new');
            Unique(rows') && RowsOk(rows', new') && View(rows', new') == View(rows, old')
  {
    hide Decrypt, RowOk;
    var rows' := RewrapAll(rows, old', new');
    forall i | 0 <= i < |rows|
      ensures Decrypt(rows'[i], new') == Decrypt(rows[i], old')
    {
      RowOkDecrypts(rows[i], old');
      RewrappedDecrypts(rows[i], old', new');
    }
    ViewSame(rows, rows', old', new');
  }

  /** After rewrapping, the old KEK reads none of the rows. */
  lemma OldKekReadsNothing(rows: seq<SecretRow>, old': Key, new': Key, name: Name)
    requires RowsOk(rows, old') && old' != new'
    ensures ReadValue(RewrapAll(rows, old', new'), old', name).Err?
  {
    var rows' := RewrapAll(rows, old', new');
    if Find(rows', name).Some? {
      var row' := Find(rows', name).value;
      var i :| 0 <= i < |rows'| && rows'[i] == row';
      assert RowOk(rows[i], old');
    }
  }
}
