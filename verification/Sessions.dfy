/** Agent sessions: what a token may read, for how long, and how every read is accounted for. */
module Sessions {
  import opened Prelude
  import opened Crypto
  import opened Tables
  import opened VaultStore
  import opened Timestamps
  import opened Manifest
  import opened Text

  /** A stored session. The timestamp columns hold the rendered instants. */
  datatype SessionRow = SessionRow(
    id: string,
    token: string,
    grants: seq<Name>,
    createdAt: Instant,
    expiresAt: Instant,
    revoked: bool,
    readCount: nat)

  /** `Session::is_active`. */
  predicate IsActive(s: SessionRow, now: Instant) {
    !s.revoked && s.expiresAt > now
  }

  /** `revoked = 0 AND expires_at > ?`, on text. */
  predicate SqlActive(s: SessionRow, now: Instant) {
    !s.revoked && Less(Render(now), Render(s.expiresAt))
  }

  const TOKEN_PREFIX: string := "pv_sess_"

  predicate LooksLikeToken(t: string) {
    Utf8Len(t) > |TOKEN_PREFIX| + 20 && TOKEN_PREFIX <= t
  }

  function FindToken(rows: seq<SessionRow>, token: string): (r: Option<nat>)
    ensures r.Some? ==> r.value < |rows| && rows[r.value].token == token
    ensures r.None? ==> forall i :: 0 <= i < |rows| ==> rows[i].token != token
  {
    if rows == [] then None
    else if rows[|rows| - 1].token == token then Some(|rows| - 1)
    else FindToken(rows[..|rows| - 1], token)
  }

  function CountActive(rows: seq<SessionRow>, now: Instant): nat {
    if rows == [] then 0
    else CountActive(rows[..|rows| - 1], now) + if IsActive(rows[|rows| - 1], now) then 1 else 0
  }

  function CountSqlActive(rows: seq<SessionRow>, now: Instant): nat {
    if rows == [] then 0
    else CountSqlActive(rows[..|rows| - 1], now) + if SqlActive(rows[|rows| - 1], now) then 1 else 0
  }

  ghost predicate InRange(rows: seq<SessionRow>) {
    forall i :: 0 <= i < |rows| ==> FourDigitYear(rows[i].expiresAt)
  }

  lemma SqlActiveIsActive(s: SessionRow, now: Instant)
    requires FourDigitYear(now) && FourDigitYear(s.expiresAt)
    ensures SqlActive(s, now) <==> IsActive(s, now)
  {
    hide Less, Render;
    TextOrderIsTimeOrder(now, s.expiresAt);
  }

  /** The count the vault reports from SQL is the number of sessions the program calls active. */
  lemma {:induction false} ActiveCountsAgree(rows: seq<SessionRow>, now: Instant)
    requires FourDigitYear(now) && InRange(rows)
    ensures CountSqlActive(rows, now) == CountActive(rows, now)
  {
    hide FourDigitYear, SqlActive, IsActive;
    if rows != [] {
      ActiveCountsAgree(rows[..|rows| - 1], now);
      SqlActiveIsActive(rows[|rows| - 1], now);
    }
  }

  // ------------------------------------------------------------------ updates

  /** `UPDATE sessions SET revoked = 1 WHERE revoked = 0 AND expires_at > ?`. */
  function RevokeActive(rows: seq<SessionRow>, now: Instant): (r: seq<SessionRow>)
    ensures |r| == |rows|
    ensures forall i :: 0 <= i < |rows| ==> r[i] == if SqlActive(rows[i], now) then rows[i].(revoked := true) else rows[i]
  {
    seq(|rows|, i requires 0 <= i < |rows| => if SqlActive(rows[i], now) then rows[i].(revoked := true) else rows[i])
  }

  function RevokeId(rows: seq<SessionRow>, id: string): (r: seq<SessionRow>)
    ensures |r| == |rows|
    ensures forall i :: 0 <= i < |rows| ==> r[i] == if rows[i].id == id then rows[i].(revoked := true) else rows[i]
  {
    seq(|rows|, i requires 0 <= i < |rows| => if rows[i].id == id then rows[i].(revoked := true) else rows[i])
  }

  function CountRead(rows: seq<SessionRow>, id: string): (r: seq<SessionRow>)
    ensures |r| == |rows|
    ensures forall i :: 0 <= i < |rows| ==> r[i] == if rows[i].id == id then rows[i].(readCount := rows[i].readCount + 1) else rows[i]
  {
    seq(|rows|, i requires 0 <= i < |rows| => if rows[i].id == id then rows[i].(readCount := rows[i].readCount + 1) else rows[i])
  }

  /** `DELETE FROM sessions WHERE expires_at < ?`. */
  function Unexpired(rows: seq<SessionRow>, cutoff: Instant): seq<SessionRow> {
    if rows == [] then []
    else
      Unexpired(rows[..|rows| - 1], cutoff)
      + if Less(Render(rows[|rows| - 1].expiresAt), Render(cutoff)) then [] else [rows[|rows| - 1]]
  }

  /** The sessions whose expiry is at the cutoff or later. */
  function ExpiringFrom(rows: seq<SessionRow>, cutoff: Instant): seq<SessionRow> {
    if rows == [] then []
    else
      var last := rows[|rows| - 1];
      ExpiringFrom(rows[..|rows| - 1], cutoff) + if last.expiresAt < cutoff then [] else [last]
  }

  /** Deleting by text is deleting by instant. */
  lemma {:induction false} UnexpiredAreLater(rows: seq<SessionRow>, cutoff: Instant)
    requires InRange(rows) && FourDigitYear(cutoff)
    ensures Unexpired(rows, cutoff) == ExpiringFrom(rows, cutoff)
  {
    hide Less, Render, FourDigitYear;
    if rows != [] {
      var n := |rows| - 1;
      UnexpiredAreLater(rows[..n], cutoff);
      TextOrderIsTimeOrder(rows[n].expiresAt, cutoff);
    }
  }

  lemma {:induction false} UnexpiredKeeps(rows: seq<SessionRow>, cutoff: Instant)
    requires Distinct(rows)
    ensures Distinct(Unexpired(rows, cutoff))
    ensures forall s :: s in Unexpired(rows, cutoff) ==> s in rows
  {
    hide Less, Render;
    if rows != [] {
      var front, last := rows[..|rows| - 1], rows[|rows| - 1];
      UnexpiredKeeps(front, cutoff);
      var kept := Unexpired(front, cutoff);
      forall i | 0 <= i < |kept| ensures kept[i].id != last.id && kept[i].token != last.token {
        assert kept[i] in front;
        var j :| 0 <= j < |front| && front[j] == kept[i];
        assert rows[j] == kept[i];
      }
      forall s | s in Unexpired(rows, cutoff) ensures s in rows {
        assert s in kept || s == last;
      }
    }
  }

  // ------------------------------------------------------------------ accounting

  /** PRIMARY KEY (id) and UNIQUE (token_hash). */
  predicate Distinct(rows: seq<SessionRow>) {
    forall i, j :: 0 <= i < j < |rows| ==> rows[i].id != rows[j].id && rows[i].token != rows[j].token
  }

  /** The KeyRead rows of one session. */
  function AuditedReads(audit: seq<AuditRow>, id: string): nat {
    if audit == [] then 0
    else AuditedReads(audit[..|audit| - 1], id)
         + if audit[|audit| - 1].event == KeyRead && audit[|audit| - 1].session == Some(id) then 1 else 0
  }

  /** A value handed out: through which session, which key, when, and what the session row said then. */
  datatype Served = Served(session: SessionRow, name: Name, at: Instant)

  function ServedReads(log: seq<Served>, id: string): nat {
    if log == [] then 0
    else ServedReads(log[..|log| - 1], id) + if log[|log| - 1].session.id == id then 1 else 0
  }

  /** What a token was created from: the session's id, the manifest, and when. */
  datatype Origin = Origin(id: string, manifest: Manifest, at: Instant)

  type Origins = map<string, Origin>

  /** The lifetime, in nanoseconds, that a request for so many seconds gets: as asked, or the nearer bound of a minute
      and seven days; an hour if nothing is asked. */
  ghost predicate IsLifetime(asked: Option<nat>, nanos: nat) {
    match asked
    case None => nanos == 3600_000_000_000
    case Some(seconds) =>
      if seconds < 60 then nanos == 60_000_000_000
      else if seconds > 604800 then nanos == 604800_000_000_000
      else nanos == seconds * 1_000_000_000
  }

  /** The session grants the pairs its manifest requests and no others, for the lifetime asked for. */
  ghost predicate CreatedFrom(s: SessionRow, o: Origin) {
    && s.id == o.id && s.createdAt == o.at
    && (forall n :: n in s.grants <==> n in o.manifest.requests)
    && s.expiresAt >= o.at && IsLifetime(o.manifest.ttlSeconds, s.expiresAt - o.at)
  }

  predicate ProperLifetime(s: SessionRow) {
    s.createdAt + MIN_TTL * SECOND <= s.expiresAt <= s.createdAt + MAX_TTL * SECOND
  }

  /** A granted pair, an unrevoked session, inside its lifetime of one minute to seven days. */
  predicate ProperlyServed(e: Served) {
    e.name in e.session.grants && !e.session.revoked && ProperLifetime(e.session)
    && e.session.createdAt <= e.at < e.session.expiresAt
  }

  /** Values returned, audit rows and the stored counter of one session. */
  ghost predicate Accounted(rows: seq<SessionRow>, log: seq<Served>, audit: seq<AuditRow>, faulted: bool) {
    forall i :: 0 <= i < |rows| ==>
      && ServedReads(log, rows[i].id) == AuditedReads(audit, rows[i].id) <= rows[i].readCount
      && (!faulted ==> AuditedReads(audit, rows[i].id) == rows[i].readCount)
  }

  lemma AccountedOtherEvent(rows: seq<SessionRow>, log: seq<Served>, audit: seq<AuditRow>, faulted: bool, row: AuditRow)
    requires Accounted(rows, log, audit, faulted) && row.event != KeyRead
    ensures Accounted(rows, log, audit + [row], faulted)
  {
  }

  lemma AccountedRead(rows: seq<SessionRow>, log: seq<Served>, audit: seq<AuditRow>, faulted: bool, e: Served)
    requires Accounted(rows, log, audit, faulted)
    ensures Accounted(CountRead(rows, e.session.id), log + [e], audit + [AuditRow(KeyRead, Some(e.session.id), Some(e.name))], faulted)
  {
  }

  lemma {:induction false} NothingServed(log: seq<Served>, audit: seq<AuditRow>, ids: set<string>, id: string)
    requires id !in ids
    requires forall i :: 0 <= i < |log| ==> log[i].session.id in ids
    requires forall i :: 0 <= i < |audit| && audit[i].session.Some? ==> audit[i].session.value in ids
    ensures ServedReads(log, id) == 0 && AuditedReads(audit, id) == 0
    decreases |log| + |audit|
  {
    if log != [] {
      NothingServed(log[..|log| - 1], audit, ids, id);
    } else if audit != [] {
      NothingServed(log, audit[..|audit| - 1], ids, id);
    }
  }

  // ------------------------------------------------------------------ the invariant

  /** One stored session: proper lifetime, known id and token; and no active session has a dead token. */
  ghost predicate RowGood(s: SessionRow, clock: Instant, ids: set<string>, issued: Origins, dead: set<string>) {
    && ProperLifetime(s) && s.createdAt <= clock && FourDigitYear(s.expiresAt)
    && s.id in ids && s.token in issued && CreatedFrom(s, issued[s.token])
    && (s.token in dead ==> !IsActive(s, clock))
  }

  ghost predicate RowsGood(rows: seq<SessionRow>, clock: Instant, ids: set<string>, issued: Origins, dead: set<string>) {
    forall i :: 0 <= i < |rows| ==> RowGood(rows[i], clock, ids, issued, dead)
  }

  ghost predicate LogGood(log: seq<Served>, ids: set<string>, issued: Origins) {
    forall i :: 0 <= i < |log| ==>
      && ProperlyServed(log[i]) && log[i].session.id in ids
      && log[i].session.token in issued && CreatedFrom(log[i].session, issued[log[i].session.token])
  }

  ghost predicate AuditGood(audit: seq<AuditRow>, ids: set<string>) {
    forall i :: 0 <= i < |audit| && audit[i].session.Some? ==> audit[i].session.value in ids
  }

  lemma RowsLater(rows: seq<SessionRow>, clock: Instant, now: Instant, ids: set<string>, issued: Origins, dead: set<string>)
    requires RowsGood(rows, clock, ids, issued, dead) && clock <= now
    ensures RowsGood(rows, now, ids, issued, dead)
  {
    hide FourDigitYear;
  }

  /** Same rows, except that some are revoked and some counted. */
  ghost predicate Touched(rows: seq<SessionRow>, rows': seq<SessionRow>) {
    |rows'| == |rows| && forall i :: 0 <= i < |rows| ==>
      && rows'[i] == rows[i].(revoked := rows'[i].revoked, readCount := rows'[i].readCount)
      && (rows[i].revoked ==> rows'[i].revoked)
  }

  lemma TouchedGood(rows: seq<SessionRow>, rows': seq<SessionRow>, clock: Instant, ids: set<string>, issued: Origins, dead: set<string>)
    requires Touched(rows, rows') && Distinct(rows) && RowsGood(rows, clock, ids, issued, dead)
    ensures Distinct(rows') && RowsGood(rows', clock, ids, issued, dead)
  {
  }

  /** Revocation changes no count. */
  lemma RevokedAccounted(rows: seq<SessionRow>, rows': seq<SessionRow>, log: seq<Served>, audit: seq<AuditRow>, faulted: bool)
    requires Accounted(rows, log, audit, faulted) && |rows'| == |rows|
    requires forall i :: 0 <= i < |rows| ==> rows'[i].id == rows[i].id && rows'[i].readCount == rows[i].readCount
    ensures Accounted(rows', log, audit, faulted)
  {
    hide ServedReads, AuditedReads;
  }

  lemma FaultAccounted(rows: seq<SessionRow>, log: seq<Served>, audit: seq<AuditRow>, faulted: bool)
    requires Accounted(rows, log, audit, faulted)
    ensures Accounted(rows, log, audit, true)
  {
    hide ServedReads, AuditedReads;
  }

  /** A read that was counted but whose audit row failed returns no value. */
  lemma CountedAccounted(rows: seq<SessionRow>, log: seq<Served>, audit: seq<AuditRow>, faulted: bool, id: string)
    requires Accounted(rows, log, audit, faulted)
    ensures Accounted(CountRead(rows, id), log, audit, true)
  {
    hide ServedReads, AuditedReads;
  }

  /** A session that is new has no reads yet. */
  lemma NewAccounted(rows: seq<SessionRow>, log: seq<Served>, audit: seq<AuditRow>, faulted: bool, ids: set<string>, issued: Origins, s: SessionRow)
    requires Accounted(rows, log, audit, faulted) && LogGood(log, ids, issued) && AuditGood(audit, ids)
    requires s.id !in ids && s.readCount == 0
    ensures Accounted(rows + [s], log, audit, faulted)
  {
    NothingServed(log, audit, ids, s.id);
  }

  ghost predicate Extends(issued: Origins, issued': Origins) {
    forall t :: t in issued ==> t in issued' && issued'[t] == issued[t]
  }

  lemma MoreIds(rows: seq<SessionRow>, log: seq<Served>, audit: seq<AuditRow>, clock: Instant,
      ids: set<string>, issued: Origins, dead: set<string>, ids': set<string>, issued': Origins)
    requires RowsGood(rows, clock, ids, issued, dead) && LogGood(log, ids, issued) && AuditGood(audit, ids)
    requires ids <= ids' && Extends(issued, issued')
    ensures RowsGood(rows, clock, ids', issued', dead) && LogGood(log, ids', issued') && AuditGood(audit, ids')
  {
    hide FourDigitYear, ProperlyServed;
  }

  /** After revoking what is active now, no issued token belongs to an active session. */
  lemma AllDead(rows: seq<SessionRow>, now: Instant, ids: set<string>, issued: Origins, dead: set<string>)
    requires RowsGood(rows, now, ids, issued, dead) && FourDigitYear(now)
    ensures Touched(rows, RevokeActive(rows, now))
    ensures RowsGood(RevokeActive(rows, now), now, ids, issued, issued.Keys)
  {
    hide FourDigitYear, SqlActive;
    forall i | 0 <= i < |rows| ensures RowGood(RevokeActive(rows, now)[i], now, ids, issued, issued.Keys) {
      assert RowGood(rows[i], now, ids, issued, dead);
      SqlActiveIsActive(rows[i], now);
    }
  }

  /** Exactly the sessions `which` picks are revoked now, besides those that were; nothing else about them changed. */
  ghost predicate RevokedBy(was: seq<SessionRow>, now: seq<SessionRow>, which: SessionRow -> bool) {
    && |now| == |was|
    && forall i :: 0 <= i < |was| ==> now[i] == was[i].(revoked := was[i].revoked || which(was[i]))
  }

  predicate HasSession(rows: seq<SessionRow>, id: string) {
    exists i :: 0 <= i < |rows| && rows[i].id == id
  }

  lemma RevokesActive(rows: seq<SessionRow>, now: Instant, ids: set<string>, issued: Origins, dead: set<string>)
    requires RowsGood(rows, now, ids, issued, dead) && FourDigitYear(now)
    ensures RevokedBy(rows, RevokeActive(rows, now), (s: SessionRow) => IsActive(s, now))
  {
    hide FourDigitYear, SqlActive, IsActive, CreatedFrom;
    forall i | 0 <= i < |rows| ensures RevokeActive(rows, now)[i] == rows[i].(revoked := rows[i].revoked || IsActive(rows[i], now)) {
      assert RowGood(rows[i], now, ids, issued, dead);
      SqlActiveIsActive(rows[i], now);
    }
  }

  function TokensOfId(issued: Origins, id: string): set<string> {
    set t | t in issued && issued[t].id == id
  }

  /** After revoking a session, the tokens created with its id belong to no active session. */
  lemma IdDead(rows: seq<SessionRow>, id: string, now: Instant, ids: set<string>, issued: Origins, dead: set<string>)
    requires RowsGood(rows, now, ids, issued, dead)
    ensures RowsGood(RevokeId(rows, id), now, ids, issued, dead + TokensOfId(issued, id))
  {
    hide FourDigitYear, IsLifetime;
    forall i | 0 <= i < |rows| ensures RowGood(RevokeId(rows, id)[i], now, ids, issued, dead + TokensOfId(issued, id)) {
      assert RowGood(rows[i], now, ids, issued, dead);
    }
  }

  lemma GoodInRange(rows: seq<SessionRow>, clock: Instant, ids: set<string>, issued: Origins, dead: set<string>)
    requires RowsGood(rows, clock, ids, issued, dead)
    ensures InRange(rows)
  {
    hide FourDigitYear;
  }

  /** The session a token names is the only one with that token. */
  lemma OnlyOne(rows: seq<SessionRow>, i: nat, j: nat)
    requires Distinct(rows) && i < |rows| && j < |rows| && rows[i].token == rows[j].token
    ensures i == j
  {
  }

  lemma NewGood(rows: seq<SessionRow>, s: SessionRow, o: Origin, now: Instant, ids: set<string>, issued: Origins, dead: set<string>)
    requires Distinct(rows) && RowsGood(rows, now, ids, issued, dead) && dead <= issued.Keys
    requires s.id !in ids && s.token !in issued && s.createdAt == now && ProperLifetime(s) && FourDigitYear(s.expiresAt)
    requires CreatedFrom(s, o)
    ensures Distinct(rows + [s]) && RowsGood(rows + [s], now, ids + {s.id}, issued[s.token := o], dead)
  {
  }

  lemma KnownId(rows: seq<SessionRow>, i: nat, now: Instant, ids: set<string>, issued: Origins, dead: set<string>)
    requires RowsGood(rows, now, ids, issued, dead) && i < |rows|
    ensures rows[i].id in ids
  {
    assert RowGood(rows[i], now, ids, issued, dead);
  }

  lemma GoodSession(rows: seq<SessionRow>, s: SessionRow, now: Instant, ids: set<string>, issued: Origins, dead: set<string>)
    requires RowsGood(rows, now, ids, issued, dead) && s in rows
    ensures s.id in ids && ProperLifetime(s) && s.createdAt <= now
    ensures s.token in issued && CreatedFrom(s, issued[s.token])
  {
    var i :| 0 <= i < |rows| && rows[i] == s;
    assert RowGood(rows[i], now, ids, issued, dead);
  }

  lemma MoreServed(log: seq<Served>, audit: seq<AuditRow>, ids: set<string>, issued: Origins, e: Served)
    requires LogGood(log, ids, issued) && AuditGood(audit, ids) && ProperlyServed(e) && e.session.id in ids
    requires e.session.token in issued && CreatedFrom(e.session, issued[e.session.token])
    ensures LogGood(log + [e], ids, issued)
    ensures AuditGood(audit + [AuditRow(KeyRead, Some(e.session.id), Some(e.name))], ids)
  {
    hide ProperlyServed;
  }

  lemma SubsetGood(rows: seq<SessionRow>, kept: seq<SessionRow>, log: seq<Served>, audit: seq<AuditRow>, faulted: bool,
      now: Instant, ids: set<string>, issued: Origins, dead: set<string>)
    requires RowsGood(rows, now, ids, issued, dead) && Accounted(rows, log, audit, faulted)
    requires forall s :: s in kept ==> s in rows
    ensures RowsGood(kept, now, ids, issued, dead) && Accounted(kept, log, audit, faulted)
  {
    hide RowGood, ServedReads, AuditedReads;
    forall i | 0 <= i < |kept| ensures exists j :: 0 <= j < |rows| && rows[j] == kept[i] {
      assert kept[i] in rows;
    }
  }

  /** A token is known if it has the form of one and a session stores it. */
  ghost predicate Known(rows: seq<SessionRow>, token: string) {
    Utf8Len(token) > 28 && "pv_sess_" <= token && exists s :: s in rows && s.token == token
  }

  /** An unknown token, then a revoked session, then an expired one are refused; any other resolves to its session. */
  ghost predicate Resolved(rows: seq<SessionRow>, token: string, now: Instant, r: Result<SessionRow, CoreError>) {
    if !Known(rows, token) then r == Err(SessionNotFound)
    else
      forall s :: s in rows && s.token == token ==>
        r == if s.revoked then Err(CoreError.SessionRevoked) else if now >= s.expiresAt then Err(SessionExpired) else Ok(s)
  }

  /** What a read returns if no write fails, and what it may write to the audit log. */
  ghost predicate ReadResult(s: SessionRow, name: Name, now: Instant, kek: Option<Key>, contents: map<Name, string>,
      r: Result<string, CoreError>)
  {
    r == if s.revoked then Err(CoreError.SessionRevoked)
         else if now >= s.expiresAt then Err(SessionExpired)
         else if name !in s.grants then Err(NotGranted)
         else if kek.None? then Err(Locked)
         else if name !in contents then Err(SecretNotFound)
         else Ok(contents[name])
  }

  function NewSession(m: Manifest, now: Instant, id: string, token: string): SessionRow {
    SessionRow(id, token, m.requests, now, now + ClampTtl(m.ttlSeconds) * SECOND, false, 0)
  }

  lemma NewSessionProper(m: Manifest, now: Instant, id: string, token: string)
    ensures ProperLifetime(NewSession(m, now, id, token)) && IsActive(NewSession(m, now, id, token), now)
    ensures CreatedFrom(NewSession(m, now, id, token), Origin(id, m, now))
  {
  }

  class SessionTable {
    const vault: Vault
    var rows: seq<SessionRow>
    /** Everything handed out so far, every id ever drawn, every token with what it was created from, the tokens that
        were revoked, the time of the last call, and how many writes have failed. */
    ghost var served: seq<Served>
    ghost var ids: set<string>
    ghost var issued: Origins
    ghost var dead: set<string>
    ghost var clock: Instant
    ghost var faults: nat

    ghost predicate Valid()
      reads this, vault
    {
      && vault.Valid()
      && Distinct(rows)
      && RowsGood(rows, clock, ids, issued, dead)
      && LogGood(served, ids, issued) && AuditGood(vault.audit, ids)
      && Accounted(rows, served, vault.audit, faults > 0)
      && dead <= issued.Keys
    }

    constructor (vault: Vault)
      requires vault.Valid() && vault.audit == []
      ensures Valid() && this.vault == vault && rows == [] && served == [] && clock == 0 && faults == 0
    {
      this.vault := vault;
      rows, served, ids, issued, dead, clock, faults := [], [], {}, map[], {}, 0, 0;
    }

    /** Write one audit row about sessions. */
    method Audit(row: AuditRow) returns (ok: bool)
      requires Valid() && row.event != KeyRead && (row.session.Some? ==> row.session.value in ids)
      modifies this`faults, vault`audit, vault`faults
      ensures Valid()
      ensures vault.audit == if ok then old(vault.audit) + [row] else old(vault.audit)
      ensures faults == old(faults) + if ok then 0 else 1
    {
      hide RowsGood, LogGood, AuditedReads, ServedReads, Accounted, Distinct, Sound;
      AccountedOtherEvent(rows, served, vault.audit, faults > 0, row);
      FaultAccounted(rows, served, vault.audit, faults > 0);
      ok := vault.Audit(row);
      if !ok {
        faults := faults + 1;
      }
    }

    /** Approving a manifest: a session for exactly the pairs asked for, for a lifetime within bounds. */
    method CreateSession(m: Manifest, now: Instant, id: string, token: string) returns (r: Result<SessionRow, CoreError>)
      requires Valid() && clock <= now && LooksLikeToken(token)
      requires id !in ids && token !in issued
      requires FourDigitYear(now + ClampTtl(m.ttlSeconds) * SECOND)
      modifies this, vault`audit, vault`faults
      ensures Valid() && clock == now && served == old(served) && dead == old(dead)
      ensures ids <= old(ids) + {id} && (issued == old(issued) || issued == old(issued)[token := Origin(id, m, now)])
      ensures r.Ok? ==> issued == old(issued)[token := Origin(id, m, now)]
      ensures !Acceptable(m) ==> r == Err(InvalidManifest) && rows == old(rows) && vault.audit == old(vault.audit)
      ensures Acceptable(m) ==> r.Ok? || (r.error == Db && faults > old(faults))
      ensures rows == old(rows) || rows == old(rows) + [NewSession(m, now, id, token)]
      ensures r.Ok? ==>
        && rows == old(rows) + [r.value] && r.value.id == id && r.value.token == token && r.value.createdAt == now
        && !r.value.revoked && r.value.readCount == 0 && (forall n :: n in r.value.grants <==> n in m.requests)
        && r.value.expiresAt >= now && IsLifetime(m.ttlSeconds, r.value.expiresAt - now)
        && vault.audit == old(vault.audit) + [AuditRow(SessionApproved, Some(id), None)]
    {
      hide RowsGood, LogGood, AuditGood, Accounted, Distinct, Sound, Acceptable, LooksLikeToken, FourDigitYear, ProperLifetime, IsActive, ClampTtl, CreatedFrom;
      RowsLater(rows, clock, now, ids, issued, dead);
      clock := now;
      var acceptable := Validate(m);
      if !acceptable {
        return Err(InvalidManifest);
      }
      var s := NewSession(m, now, id, token);
      NewSessionProper(m, now, id, token);
      NewAccounted(rows, served, vault.audit, faults > 0, ids, issued, s);
      FaultAccounted(rows, served, vault.audit, faults > 0);
      NewGood(rows, s, Origin(id, m, now), now, ids, issued, dead);
      MoreIds(rows, served, vault.audit, now, ids, issued, dead, ids + {id}, issued[token := Origin(id, m, now)]);
      ids, issued := ids + {id}, issued[token := Origin(id, m, now)];
      var inserted: bool := *;
      if !inserted {
        faults := faults + 1;
        return Err(Db);
      }
      rows := rows + [s];
      var ok := Audit(AuditRow(SessionApproved, Some(id), None));
      return if ok then Ok(s) else Err(Db);
    }

    method RevokeSession(id: string, now: Instant) returns (r: Result<(), CoreError>)
      requires Valid() && clock <= now
      modifies this, vault`audit, vault`faults
      ensures Valid() && clock == now && served == old(served)
      ensures ids == old(ids) && issued == old(issued) && old(dead) <= dead
      ensures r.Ok? ==> HasSession(rows, id) && RevokedBy(old(rows), rows, (s: SessionRow) => s.id == id)
      ensures r.Ok? ==> vault.audit == old(vault.audit) + [AuditRow(AuditEvent.SessionRevoked, Some(id), None)]
      ensures r.Ok? ==> forall t :: t in issued && issued[t].id == id ==> t in dead
      ensures r.Err? ==> rows == old(rows) || RevokedBy(old(rows), rows, (s: SessionRow) => s.id == id)
      ensures r.Err? ==> (r.error == SessionNotFound && !HasSession(rows, id) && rows == old(rows)) || (r.error == Db && faults > old(faults))
    {
      hide RowsGood, LogGood, AuditGood, Accounted, Distinct, Sound;
      RowsLater(rows, clock, now, ids, issued, dead);
      FaultAccounted(rows, served, vault.audit, faults > 0);
      clock := now;
      var written: bool := *;
      if !written {
        faults := faults + 1;
        return Err(Db);
      }
      if i :| 0 <= i < |rows| && rows[i].id == id {
        KnownId(rows, i, now, ids, issued, dead);
        TouchedGood(rows, RevokeId(rows, id), now, ids, issued, dead);
        RevokedAccounted(rows, RevokeId(rows, id), served, vault.audit, faults > 0);
        assert RevokeId(rows, id)[i].id == id;
        IdDead(rows, id, now, ids, issued, dead);
        rows := RevokeId(rows, id);
        dead := dead + TokensOfId(issued, id);
        var ok := Audit(AuditRow(AuditEvent.SessionRevoked, Some(id), None));
        return if ok then Ok(()) else Err(Db);
      }
      return Err(SessionNotFound);
    }

    /** Revoking everything revokes exactly the active sessions; every token issued so far is dead from then on. */
    method RevokeAllSessions(now: Instant) returns (r: Result<nat, CoreError>)
      requires Valid() && clock <= now && FourDigitYear(now)
      modifies this, vault`audit, vault`faults
      ensures Valid() && clock == now && served == old(served)
      ensures rows == old(rows) || RevokedBy(old(rows), rows, (s: SessionRow) => IsActive(s, now))
      ensures r.Ok? ==>
        && r.value == CountActive(old(rows), now) && RevokedBy(old(rows), rows, (s: SessionRow) => IsActive(s, now)) && dead == issued.Keys
        && vault.audit == old(vault.audit) + if r.value > 0 then [AuditRow(AuditEvent.SessionRevoked, None, None)] else []
      ensures r.Err? ==> r.error == Db && faults > old(faults)
      ensures ids == old(ids) && issued == old(issued) && old(dead) <= dead
    {
      hide RowsGood, LogGood, AuditGood, Accounted, Distinct, Sound, SqlActive, FourDigitYear, CountActive;
      RowsLater(rows, clock, now, ids, issued, dead);
      FaultAccounted(rows, served, vault.audit, faults > 0);
      clock := now;
      var written: bool := *;
      if !written {
        faults := faults + 1;
        return Err(Db);
      }
      var n := CountSqlActive(rows, now);
      GoodInRange(rows, now, ids, issued, dead);
      ActiveCountsAgree(rows, now);
      AllDead(rows, now, ids, issued, dead);
      RevokesActive(rows, now, ids, issued, dead);
      TouchedGood(rows, RevokeActive(rows, now), now, ids, issued, dead);
      RevokedAccounted(rows, RevokeActive(rows, now), served, vault.audit, faults > 0);
      rows := RevokeActive(rows, now);
      dead := issued.Keys;
      if n > 0 {
        var ok := Audit(AuditRow(AuditEvent.SessionRevoked, None, None));
        if !ok {
          return Err(Db);
        }
      }
      return Ok(n);
    }

    /** A token resolves exactly to its stored session while that is active; a dead token never does. */
    method ResolveSession(token: string, now: Instant) returns (r: Result<SessionRow, CoreError>)
      requires Valid() && clock <= now
      ensures Resolved(rows, token, now, r)
      ensures r.Err? ==> r.error in {SessionNotFound, CoreError.SessionRevoked, SessionExpired}
      ensures r.Ok? ==> r.value in rows && r.value.token == token && IsActive(r.value, now)
      ensures token in dead ==> r.Err?
    {
      hide LogGood, AuditGood, Accounted, Sound, Utf8Len, FourDigitYear, ProperLifetime, Distinct, CreatedFrom;
      if !LooksLikeToken(token) {
        return Err(SessionNotFound);
      }
      var found := FindToken(rows, token);
      if found.None? {
        return Err(SessionNotFound);
      }
      assert rows[found.value] in rows && Known(rows, token);
      var k, s := found.value, rows[found.value];
      assert RowGood(s, clock, ids, issued, dead);
      forall i | 0 <= i < |rows| && rows[i].token == token ensures i == k {
        OnlyOne(rows, i, k);
      }
      if s.revoked {
        return Err(CoreError.SessionRevoked);
      }
      if s.expiresAt <= now {
        return Err(SessionExpired);
      }
      return Ok(s);
    }

    /** The counter and the audit row of one read, without both of which no value is returned. */
    method RecordRead(e: Served) returns (ok: bool)
      requires Valid() && clock == e.at && e.session in rows && IsActive(e.session, e.at) && e.name in e.session.grants
      modifies this`rows, this`served, this`faults, vault`audit, vault`faults
      ensures Valid()
      ensures if ok then served == old(served) + [e] && rows == CountRead(old(rows), e.session.id)
                         && vault.audit == old(vault.audit) + [AuditRow(KeyRead, Some(e.session.id), Some(e.name))]
              else served == old(served) && faults > old(faults) && (rows == old(rows) || rows == CountRead(old(rows), e.session.id))
    {
      hide RowsGood, LogGood, AuditGood, Accounted, Distinct, Sound, CreatedFrom, ProperLifetime;
      GoodSession(rows, e.session, clock, ids, issued, dead);
      FaultAccounted(rows, served, vault.audit, faults > 0);
      CountedAccounted(rows, served, vault.audit, faults > 0, e.session.id);
      AccountedRead(rows, served, vault.audit, faults > 0, e);
      TouchedGood(rows, CountRead(rows, e.session.id), clock, ids, issued, dead);
      MoreServed(served, vault.audit, ids, issued, e);
      var counted: bool := *;
      if !counted {
        faults := faults + 1;
        return false;
      }
      rows := CountRead(rows, e.session.id);
      ok := vault.Audit(AuditRow(KeyRead, Some(e.session.id), Some(e.name)));
      if ok {
        served := served + [e];
      } else {
        faults := faults + 1;
      }
    }

    /** The agent's read: a value leaves only through an active session that was granted it, and is counted. */
    method ReadKey(token: string, name: Name, now: Instant) returns (r: Result<string, CoreError>)
      requires Valid() && clock <= now
      modifies this, vault`audit, vault`faults
      ensures Valid() && clock == now && dead == old(dead) && vault.tables == old(vault.tables)
      ensures ids == old(ids) && issued == old(issued)
      ensures token in dead ==> r.Err?
      ensures !Known(old(rows), token) ==> r == Err(SessionNotFound)
      ensures Known(old(rows), token) ==>
        || (r == Err(Db) && faults > old(faults))
        || forall s :: s in old(rows) && s.token == token ==> ReadResult(s, name, now, vault.kek, Contents(vault.tables), r)
      ensures r.Ok? ==>
        && |served| == |old(served)| + 1 && served == old(served) + [served[|old(served)|]]
        && var e := served[|old(served)|];
        && e.session in old(rows) && e.session.token == token && e.name == name && e.at == now
        && vault.kek.Some? && name in Contents(vault.tables) && r.value == Contents(vault.tables)[name]
        && rows == CountRead(old(rows), e.session.id)
        && vault.audit == old(vault.audit) + [AuditRow(KeyRead, Some(e.session.id), Some(name))]
      ensures r.Err? ==> served == old(served)
      ensures r.Err? && rows != old(rows) ==>
        r.error == Db && exists s :: s in old(rows) && s.token == token && rows == CountRead(old(rows), s.id)
      ensures r.Err? && r.error in {NotGranted, Locked, SecretNotFound} ==>
        exists s :: s in old(rows) && s.token == token
                    && vault.audit == old(vault.audit) + [AuditRow(KeyDenied, Some(s.id), Some(name))]
    {
      hide RowsGood, LogGood, AuditGood, Accounted, Distinct, Sound, Contents, Known, CreatedFrom, ProperLifetime, Unlocks;
      RowsLater(rows, clock, now, ids, issued, dead);
      clock := now;
      var session := ResolveSession(token, now);
      if session.Err? {
        return Err(session.error);
      }
      var s := session.value;
      GoodSession(rows, s, now, ids, issued, dead);
      if name !in s.grants {
        var ok := Audit(AuditRow(KeyDenied, Some(s.id), Some(name)));
        return Err(if ok then NotGranted else Db);
      }
      var value := vault.ReadSecretValue(name);
      if value.Err? {
        var ok := Audit(AuditRow(KeyDenied, Some(s.id), Some(name)));
        return Err(if ok then value.error else Db);
      }
      var recorded := RecordRead(Served(s, name, now));
      return if recorded then Ok(value.value) else Err(Db);
    }

    /** Old expired sessions are deleted; the rest is untouched. */
    method PurgeOldSessions(cutoff: Instant, now: Instant) returns (r: Result<(), CoreError>)
      requires Valid() && clock <= now
      modifies this
      ensures Valid() && clock == now && served == old(served) && dead == old(dead)
      ensures ids == old(ids) && issued == old(issued)
      ensures rows == if r.Ok? then Unexpired(old(rows), cutoff) else old(rows)
      ensures r.Err? ==> r.error == Db && faults > old(faults)
      ensures r.Ok? && FourDigitYear(cutoff) ==> rows == ExpiringFrom(old(rows), cutoff)
    {
      hide RowsGood, LogGood, AuditGood, Accounted, Distinct, Sound, Unexpired, ExpiringFrom, FourDigitYear;
      GoodInRange(rows, clock, ids, issued, dead);
      if FourDigitYear(cutoff) {
        UnexpiredAreLater(rows, cutoff);
      }
      RowsLater(rows, clock, now, ids, issued, dead);
      FaultAccounted(rows, served, vault.audit, faults > 0);
      clock := now;
      var deleted: bool := *;
      if !deleted {
        faults := faults + 1;
        return Err(Db);
      }
      UnexpiredKeeps(rows, cutoff);
      SubsetGood(rows, Unexpired(rows, cutoff), served, vault.audit, faults > 0, now, ids, issued, dead);
      rows := Unexpired(rows, cutoff);
      return Ok(());
    }
  }
}
