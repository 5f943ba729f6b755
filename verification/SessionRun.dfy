/** Whole runs of the sessions and the vault under them: any calls in any order, with any writes failing. */
module SessionRun {
  import opened Prelude
  import opened Tables
  import opened Timestamps
  import M = Manifest
  import opened VaultStore
  import opened Sessions
  import VaultRun

  datatype Request =
    | Create(m: M.Manifest, id: string, token: string)
    | Revoke(id: string)
    | RevokeAll
    | Read(token: string, name: Name)
    | Purge(cutoff: Instant)
    | Work(req: VaultRun.Request)

  datatype Call = Call(now: Instant, req: Request)

  /** The clock never goes back, and stays in the years it can print. */
  ghost predicate Timely(calls: seq<Call>, clock: Instant) {
    && (forall i :: 0 <= i < |calls| ==> clock <= calls[i].now && FourDigitYear(calls[i].now + M.MAX_TTL * SECOND))
    && (forall i, j :: 0 <= i < j < |calls| ==> calls[i].now <= calls[j].now)
  }

  /** Ids and tokens are drawn afresh. */
  ghost predicate Fresh(calls: seq<Call>, ids: set<string>, issued: set<string>) {
    && (forall i :: 0 <= i < |calls| && calls[i].req.Create? ==>
          calls[i].req.id !in ids && calls[i].req.token !in issued && LooksLikeToken(calls[i].req.token))
    && (forall i, j :: 0 <= i < j < |calls| && calls[i].req.Create? && calls[j].req.Create? ==>
          calls[i].req.id != calls[j].req.id && calls[i].req.token != calls[j].req.token)
  }

  ghost function IdsOf(calls: seq<Call>): set<string> {
    set i | 0 <= i < |calls| && calls[i].req.Create? :: calls[i].req.id
  }

  ghost function TokensOf(calls: seq<Call>): set<string> {
    set i | 0 <= i < |calls| && calls[i].req.Create? :: calls[i].req.token
  }

  lemma {:induction false} QuietReads(was: seq<AuditRow>, audit: seq<AuditRow>, id: string)
    requires Quiet(was, audit)
    ensures AuditedReads(audit, id) == AuditedReads(was, id)
    decreases |audit|
  {
    if |audit| > |was| {
      QuietReads(was, audit[..|audit| - 1], id);
    } else {
      assert audit == was;
    }
  }

  /** Work on the vault disturbs no session. */
  lemma QuietKeeps(rows: seq<SessionRow>, log: seq<Served>, was: seq<AuditRow>, audit: seq<AuditRow>, faulted: bool, ids: set<string>)
    requires Quiet(was, audit) && Accounted(rows, log, was, faulted) && AuditGood(was, ids)
    ensures Accounted(rows, log, audit, faulted) && AuditGood(audit, ids)
  {
    hide AuditedReads, ServedReads;
    forall i | 0 <= i < |rows| ensures AuditedReads(audit, rows[i].id) == AuditedReads(was, rows[i].id) {
      QuietReads(was, audit, rows[i].id);
    }
  }

  /** Values handed out since `from` went out through tokens that were not dead then. */
  ghost predicate NoneThroughDead(served: seq<Served>, from: nat, dead: set<string>) {
    from <= |served| && forall i :: from <= i < |served| ==> served[i].session.token !in dead
  }

  /** Every token is one that was there before, or was created by one of the calls, from what that call gave. */
  ghost predicate Issued(before: Origins, calls: seq<Call>, issued: Origins) {
    forall token :: token in issued ==>
      || (token in before && issued[token] == before[token])
      || exists k :: 0 <= k < |calls| && Creates(calls[k], token, issued[token])
  }

  predicate Creates(c: Call, token: string, o: Origin) {
    c.req.Create? && c.req.token == token && o == Origin(c.req.id, c.req.m, c.now)
  }

  lemma IssuedMore(before: Origins, calls: seq<Call>, issued: Origins, c: Call, issued': Origins)
    requires Issued(before, calls, issued) && Issued(issued, [c], issued')
    ensures Issued(before, calls + [c], issued')
  {
    var all := calls + [c];
    forall token | token in issued'
      ensures (token in before && issued'[token] == before[token])
              || exists k :: 0 <= k < |all| && Creates(all[k], token, issued'[token])
    {
      if token in issued && issued'[token] == issued[token] {
        if k :| 0 <= k < |calls| && Creates(calls[k], token, issued[token]) {
          assert all[k] == calls[k];
        }
      } else {
        assert all[|calls|] == c && Creates([c][0], token, issued'[token]);
      }
    }
  }

  /** A successful revocation kills the tokens it names. */
  ghost predicate KilledBy(c: Call, issued: Origins, dead: set<string>) {
    && (c.req.RevokeAll? ==> issued.Keys <= dead)
    && (c.req.Revoke? ==> forall t :: t in issued && issued[t].id == c.req.id ==> t in dead)
  }

  /** One call; `done` says that it succeeded. */
  method Serve(t: SessionTable, c: Call) returns (done: bool)
    requires t.Valid() && t.clock <= c.now && FourDigitYear(c.now + M.MAX_TTL * SECOND)
    requires c.req.Create? ==> c.req.id !in t.ids && c.req.token !in t.issued && LooksLikeToken(c.req.token)
    modifies t, t.vault
    ensures t.Valid() && t.clock <= c.now && old(t.dead) <= t.dead
    ensures t.ids <= old(t.ids) + IdsOf([c]) && t.issued.Keys <= old(t.issued).Keys + TokensOf([c])
    ensures Extends(old(t.issued), t.issued) && Issued(old(t.issued), [c], t.issued)
    ensures done && c.req.Create? ==> c.req.token in t.issued
    ensures done ==> KilledBy(c, t.issued, t.dead)
    ensures old(t.served) <= t.served && NoneThroughDead(t.served, |old(t.served)|, old(t.dead))
  {
    hide RowsGood, LogGood, AuditGood, Accounted, Distinct, Sound, FourDigitYear, LooksLikeToken, M.ClampTtl, IsActive, Quiet, Unexpired, ExpiringFrom, RevokedBy, Known, Contents, IsLifetime,
         ReadResult, VaultRun.Binds, VaultRun.Allowed, VaultRun.Apply, HasSession, M.Acceptable, NewSession;
    match c.req {
      case Create(m, id, token) =>
        EarlierYear(c.now + M.ClampTtl(m.ttlSeconds) * SECOND, c.now + M.MAX_TTL * SECOND);
        assert [c][0].req.Create?;
        assert id in IdsOf([c]) && token in TokensOf([c]);
        var r := t.CreateSession(m, c.now, id, token);
        done := r.Ok?;
      case Revoke(id) =>
        var r := t.RevokeSession(id, c.now);
        done := r.Ok?;
      case RevokeAll =>
        EarlierYear(c.now, c.now + M.MAX_TTL * SECOND);
        var r := t.RevokeAllSessions(c.now);
        done := r.Ok?;
      case Read(token, name) =>
        var r := t.ReadKey(token, name, c.now);
        done := r.Ok?;
      case Purge(cutoff) =>
        var r := t.PurgeOldSessions(cutoff, c.now);
        done := r.Ok?;
      case Work(req) =>
        ghost var was := t.vault.audit;
        ghost var change;
        done, change := VaultRun.Serve(t.vault, req);
        QuietKeeps(t.rows, t.served, was, t.vault.audit, t.faults > 0, t.ids);
    }
  }

  lemma EarlierYear(a: Instant, b: Instant)
    requires a <= b && FourDigitYear(b)
    ensures FourDigitYear(a)
  {
    var da, db := a / SECOND / 86400, b / SECOND / 86400;
    if da < db {
      DateFromOrder(da, db, 0);
    }
  }

  /** The next call draws an id and a token that no earlier call of the run drew. */
  lemma NextIsFresh(calls: seq<Call>, i: nat, ids0: set<string>, issued0: set<string>)
    requires Fresh(calls, ids0, issued0) && i < |calls| && calls[i].req.Create?
    ensures calls[i].req.id !in ids0 + IdsOf(calls[..i]) && calls[i].req.token !in issued0 + TokensOf(calls[..i])
    ensures LooksLikeToken(calls[i].req.token)
  {
    hide LooksLikeToken;
  }

  lemma DrawnSoFar(calls: seq<Call>, i: nat)
    requires i < |calls|
    ensures IdsOf(calls[..i]) + IdsOf([calls[i]]) <= IdsOf(calls[..i + 1])
    ensures TokensOf(calls[..i]) + TokensOf([calls[i]]) <= TokensOf(calls[..i + 1])
  {
  }

  /** What validity says about the reads of the stored sessions. */
  ghost predicate Balanced(t: SessionTable)
    reads t, t.vault
  {
    && (forall i :: 0 <= i < |t.rows| ==>
          && ServedReads(t.served, t.rows[i].id) == AuditedReads(t.vault.audit, t.rows[i].id) <= t.rows[i].readCount
          && (t.faults == 0 ==> AuditedReads(t.vault.audit, t.rows[i].id) == t.rows[i].readCount))
    && (forall i :: 0 <= i < |t.served| ==> ProperlyServed(t.served[i]))
  }

  lemma ValidIsBalanced(t: SessionTable)
    requires t.Valid()
    ensures Balanced(t)
  {
    hide RowsGood, AuditGood, Distinct, Sound, ServedReads, AuditedReads, ProperlyServed;
  }

  /** A point of a run: how many values had been handed out, and the tokens dead by then. */
  datatype Point = Point(served: nat, dead: set<string>)

  /** From every point on, nothing was handed out through a token that was dead there. */
  ghost predicate DeadStayDead(points: seq<Point>, served: seq<Served>, dead: set<string>) {
    forall i :: 0 <= i < |points| ==> points[i].dead <= dead && NoneThroughDead(served, points[i].served, points[i].dead)
  }

  lemma LaterPoints(points: seq<Point>, served: seq<Served>, dead: set<string>, served': seq<Served>, dead': set<string>)
    requires DeadStayDead(points, served, dead) && dead <= dead'
    requires served <= served' && NoneThroughDead(served', |served|, dead)
    ensures DeadStayDead(points + [Point(|served'|, dead')], served', dead')
  {
    var all := points + [Point(|served'|, dead')];
    forall i | 0 <= i < |all| ensures all[i].dead <= dead' && NoneThroughDead(served', all[i].served, all[i].dead) {
      if i < |points| {
        assert all[i] == points[i];
      }
    }
  }

  predicate Names(c: Call, id: string) {
    c.req.RevokeAll? || (c.req.Revoke? && c.req.id == id)
  }

  /** Every successful revocation kills the token of each session created, successfully, before it that it names. */
  ghost predicate Kills(calls: seq<Call>, done: seq<bool>, points: seq<Point>)
    requires |calls| == |done| == |points|
  {
    forall i, k :: 0 <= i < k < |calls| && calls[i].req.Create? && done[i] && Names(calls[k], calls[i].req.id) && done[k] ==>
      calls[i].req.token in points[k].dead
  }

  predicate KnownOrigin(issued: Origins, c: Call)
    requires c.req.Create?
  {
    c.req.token in issued && issued[c.req.token].id == c.req.id
  }

  lemma KillsMore(calls: seq<Call>, done: seq<bool>, points: seq<Point>, c: Call, ok: bool, p: Point, issued: Origins)
    requires |calls| == |done| == |points| && Kills(calls, done, points)
    requires forall i :: 0 <= i < |calls| && calls[i].req.Create? && done[i] ==> KnownOrigin(issued, calls[i])
    requires ok ==> KilledBy(c, issued, p.dead)
    ensures Kills(calls + [c], done + [ok], points + [p])
  {
  }

  /** A value that was handed out was asked for: its pair is in the manifest, and its time in the lifetime, of the call
      that created the token. */
  ghost predicate AskedFor(c: Call, e: Served) {
    && c.req.Create? && c.req.token == e.session.token && c.req.id == e.session.id
    && e.name in c.req.m.requests
    && exists nanos :: IsLifetime(c.req.m.ttlSeconds, nanos) && c.now <= e.at < c.now + nanos
  }

  lemma ServedIsAskedFor(t: SessionTable, before: Origins, calls: seq<Call>, i: nat)
    requires t.Valid() && Issued(before, calls, t.issued) && i < |t.served| && t.served[i].session.token !in before
    ensures exists k :: 0 <= k < |calls| && AskedFor(calls[k], t.served[i])
  {
    hide RowsGood, AuditGood, Accounted, Distinct, Sound, IsLifetime, ProperLifetime;
    var e := t.served[i];
    var token := e.session.token;
    var k :| 0 <= k < |calls| && Creates(calls[k], token, t.issued[token]);
    assert IsLifetime(calls[k].req.m.ttlSeconds, e.session.expiresAt - calls[k].now);
    assert AskedFor(calls[k], e);
  }

  /**
   * In every run: for each stored session the values returned through its token are its KeyRead audit rows and at most
   * its read count, all three equal unless a write has failed; each value returned was for a granted pair, while the
   * session was unrevoked and inside its lifetime; each value returned through a token of this run was for a pair of the
   * manifest that created the token, within the lifetime asked for; and after each call nothing more is returned through
   * a token that is dead by then, which includes those that a successful revocation named, or all if it was of everything.
   */
  method Run(t: SessionTable, calls: seq<Call>) returns (done: seq<bool>, ghost points: seq<Point>)
    requires t.Valid() && Timely(calls, t.clock) && Fresh(calls, t.ids, t.issued.Keys)
    modifies t, t.vault
    ensures t.Valid() && Balanced(t)
    ensures |done| == |points| == |calls| && Kills(calls, done, points)
    ensures DeadStayDead([Point(|old(t.served)|, old(t.dead))] + points, t.served, t.dead)
    ensures forall i :: 0 <= i < |t.served| && t.served[i].session.token !in old(t.issued) ==>
      exists k :: 0 <= k < |calls| && AskedFor(calls[k], t.served[i])
  {
    hide SessionTable.Valid, FourDigitYear, LooksLikeToken, Fresh, IdsOf, TokensOf, Balanced, Kills, DeadStayDead,
         NoneThroughDead, Issued, Extends, AskedFor, KilledBy, KnownOrigin;
    ghost var ids0, issued0, start := t.ids, t.issued, Point(|t.served|, t.dead);
    done, points := [], [];
    StartPoint(t.served, t.dead);
    NoKills();
    NoneIssued(issued0);
    assert calls[..0] == [] && [start] + points == [start];
    for i := 0 to |calls|
      invariant t.Valid() && (i < |calls| ==> t.clock <= calls[i].now)
      invariant t.ids <= ids0 + IdsOf(calls[..i]) && t.issued.Keys <= issued0.Keys + TokensOf(calls[..i])
      invariant Issued(issued0, calls[..i], t.issued)
      invariant |done| == |points| == i && Kills(calls[..i], done, points)
      invariant forall k :: 0 <= k < i && calls[k].req.Create? && done[k] ==> KnownOrigin(t.issued, calls[k])
      invariant DeadStayDead([start] + points, t.served, t.dead)
    {
      if calls[i].req.Create? {
        NextIsFresh(calls, i, ids0, issued0.Keys);
      }
      DrawnSoFar(calls, i);
      ghost var served, dead, issued := t.served, t.dead, t.issued;
      var ok := Serve(t, calls[i]);
      ghost var p := Point(|t.served|, t.dead);
      LaterPoints([start] + points, served, dead, t.served, t.dead);
      assert [start] + points + [p] == [start] + (points + [p]);
      assert calls[..i + 1] == calls[..i] + [calls[i]];
      IssuedMore(issued0, calls[..i], issued, calls[i], t.issued);
      OriginsStay(calls[..i], done, issued, t.issued);
      NewOrigin(issued, calls[i], ok, t.issued);
      KillsMore(calls[..i], done, points, calls[i], ok, p, t.issued);
      done, points := done + [ok], points + [p];
    }
    assert calls[..|calls|] == calls;
    ValidIsBalanced(t);
    forall i | 0 <= i < |t.served| && t.served[i].session.token !in issued0
      ensures exists k :: 0 <= k < |calls| && AskedFor(calls[k], t.served[i])
    {
      ServedIsAskedFor(t, issued0, calls, i);
    }
  }

  lemma OriginsStay(calls: seq<Call>, done: seq<bool>, issued: Origins, issued': Origins)
    requires |done| == |calls| && Extends(issued, issued')
    requires forall k :: 0 <= k < |calls| && calls[k].req.Create? && done[k] ==> KnownOrigin(issued, calls[k])
    ensures forall k :: 0 <= k < |calls| && calls[k].req.Create? && done[k] ==> KnownOrigin(issued', calls[k])
  {
  }

  lemma NewOrigin(issued: Origins, c: Call, ok: bool, issued': Origins)
    requires Issued(issued, [c], issued') && (c.req.Create? ==> c.req.token !in issued)
    requires ok && c.req.Create? ==> c.req.token in issued'
    ensures ok && c.req.Create? ==> KnownOrigin(issued', c)
  {
  }

  lemma NoneIssued(issued: Origins)
    ensures Issued(issued, [], issued)
  {
  }

  lemma StartPoint(served: seq<Served>, dead: set<string>)
    ensures DeadStayDead([Point(|served|, dead)], served, dead)
  {
  }

  lemma NoKills()
    ensures Kills([], [], [])
  {
  }
}
