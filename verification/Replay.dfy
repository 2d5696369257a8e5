/** Single use of signed settlement reports over time: the `reported_at` window of
    apps/web/src/lib/settlement-report.ts and the nonce table of apps/web/src/lib/db.ts, as
    apps/web/src/app/api/hook/settle/route.ts composes them. Times are milliseconds. */
module Replay {
  import opened Wrappers
  import opened Store

  const SETTLE_NONCE_RETENTION_MS := 30 * 24 * 60 * 60 * 1000
  const DEFAULT_MAX_AGE_MS := 300_000
  const CLOCK_SKEW_MS := 300_000
  /** 2027-01-01T00:00:00Z. */
  const REPORTED_AT_REQUIRED_FROM := 1_798_761_600_000

  datatype Window = InWindow | TooOld | FutureDated | Missing

  /** `HOOK_MAX_AGE_MS`; None is an unset, non-numeric or infinite value. The age is a whole number
      of milliseconds, so only the floor of the bound can be told. */
  function MaxAge(configured: Option<real>): int {
    if configured.Some? && configured.value > 0.0 then configured.value.Floor else DEFAULT_MAX_AGE_MS
  }

  /** The timestamp half of `parseSettlementReport`. */
  function CheckWindow(reportedAt: Option<int>, now: int, configured: Option<real>): Window {
    match reportedAt
    case Some(d) =>
      var limit := if configured.Some? && configured.value > 0.0 then configured.value else DEFAULT_MAX_AGE_MS as real;
      if (now - d) as real > limit then TooOld
      else if d > now + CLOCK_SKEW_MS then FutureDated
      else InWindow
    case None => if now > REPORTED_AT_REQUIRED_FROM then Missing else InWindow
  }

  /** A signed report is accepted from five minutes before its time to its maximum age after, which is five
      minutes unless configured; earlier it is future-dated, later too old. */
  lemma WindowIsAnInterval(d: int, now: int, configured: Option<real>)
    ensures CheckWindow(Some(d), now, configured) == InWindow <==> d - 300_000 <= now <= d + MaxAge(configured)
    ensures CheckWindow(Some(d), now, configured) == TooOld <==> now > d + MaxAge(configured)
    ensures CheckWindow(Some(d), now, configured) == FutureDated <==> now < d - 300_000
    ensures if configured.Some? && configured.value > 0.0
            then MaxAge(configured) as real <= configured.value < MaxAge(configured) as real + 1.0
            else MaxAge(configured) == 300_000
  {
  }

  /** One without a time is accepted up to the first of January 2027, 57 years of 14 leap days after 1970. */
  lemma UndatedWindow(now: int, configured: Option<real>)
    ensures CheckWindow(None, now, configured) ==
            if now <= (57 * 365 + 14) * 24 * 60 * 60 * 1000 then InWindow else Missing
  {
  }

  /** The opportunistic sweep at time `now`. */
  function SweepNonces(nonces: Nonces, now: int): Nonces {
    map n | n in nonces && nonces[n] >= now - SETTLE_NONCE_RETENTION_MS :: nonces[n]
  }

  /** The sweep drops what is older than thirty days. */
  lemma SweepNoncesAt(nonces: Nonces, now: int, n: string)
    ensures n in SweepNonces(nonces, now) <==> n in nonces && now - nonces[n] <= 30 * 24 * 3600 * 1000
    ensures n in SweepNonces(nonces, now) ==> SweepNonces(nonces, now)[n] == nonces[n]
  {
  }

  method ConsumeSettlementNonce(db: Database, nonce: string, now: int) returns (claimed: bool)
    modifies db`nonces
    ensures claimed <==> nonce !in SweepNonces(old(db.nonces), now)
    ensures db.nonces ==
            if claimed then SweepNonces(old(db.nonces), now)[nonce := now] else SweepNonces(old(db.nonces), now)
  {
    db.nonces := SweepNonces(db.nonces, now);
    if nonce in db.nonces {
      return false;
    }
    db.nonces := db.nonces[nonce := now];
    return true;
  }

  /** One request: its signature, the time inside the signed bytes, when the window was checked,
      when its transaction began, and whether the attribution write then failed. */
  datatype Attempt = Attempt(nonce: string, reportedAt: Option<int>, checkedAt: int, claimedAt: int, writeFails: bool)

  datatype Outcome = Rejected | Replayed | Failed | Accepted

  /** The route's handling: a claim is kept only if the attribution commits with it. */
  method HandleReport(db: Database, a: Attempt, configured: Option<real>) returns (o: Outcome)
    modifies db`nonces
    ensures (db.nonces, o) == Handle(old(db.nonces), a, configured)
  {
    if CheckWindow(a.reportedAt, a.checkedAt, configured) != InWindow {
      return Rejected;
    }
    var before := db.nonces;
    var claimed := ConsumeSettlementNonce(db, a.nonce, a.claimedAt);
    if !claimed {
      db.nonces := before;
      return Replayed;
    }
    if a.writeFails {
      db.nonces := before;
      return Failed;
    }
    return Accepted;
  }

  function Handle(nonces: Nonces, a: Attempt, configured: Option<real>): (Nonces, Outcome) {
    var swept := SweepNonces(nonces, a.claimedAt);
    if CheckWindow(a.reportedAt, a.checkedAt, configured) != InWindow then (nonces, Rejected)
    else if a.nonce in swept then (nonces, Replayed)
    else if a.writeFails then (nonces, Failed)
    else (swept[a.nonce := a.claimedAt], Accepted)
  }

  /** Which outcome a request has, and what it leaves in the table: nothing unless it is accepted, and then its
      nonce beside those that the sweep keeps. */
  lemma HandleExactly(nonces: Nonces, a: Attempt, configured: Option<real>, n: string)
    ensures var (after, o) := Handle(nonces, a, configured);
            var admitted := CheckWindow(a.reportedAt, a.checkedAt, configured).InWindow?;
            var seen := a.nonce in nonces && a.claimedAt - nonces[a.nonce] <= 30 * 24 * 3600 * 1000;
            && (o == Rejected <==> !admitted)
            && (o == Replayed <==> admitted && seen)
            && (o == Failed <==> admitted && !seen && a.writeFails)
            && (o == Accepted <==> admitted && !seen && !a.writeFails)
            && (o != Accepted ==> after == nonces)
            && (o == Accepted ==> a.nonce in after && after[a.nonce] == a.claimedAt &&
                                  (n != a.nonce ==>
                                     (n in after <==>
                                        n in nonces && a.claimedAt - nonces[n] <= 30 * 24 * 3600 * 1000) &&
                                     (n in after ==> after[n] == nonces[n])))
  {
    SweepNoncesAt(nonces, a.claimedAt, a.nonce);
    SweepNoncesAt(nonces, a.claimedAt, n);
    hide CheckWindow;
  }

  function NoncesAfter(nonces: Nonces, attempts: seq<Attempt>, configured: Option<real>): Nonces
    decreases |attempts|
  {
    if attempts == [] then nonces
    else Handle(NoncesAfter(nonces, attempts[..|attempts| - 1], configured), attempts[|attempts| - 1], configured).0
  }

  function OutcomeOf(nonces: Nonces, attempts: seq<Attempt>, configured: Option<real>, i: nat): Outcome
    requires i < |attempts|
  {
    Handle(NoncesAfter(nonces, attempts[..i], configured), attempts[i], configured).1
  }

  /* ----- runs ----- */

  /** The database clock does not go back, a window is checked before its transaction begins and at
      most `latency` before, and equal signatures sign equal bytes. */
  predicate IsRun(attempts: seq<Attempt>, latency: nat) {
    && (forall i, j :: 0 <= i < j < |attempts| ==> attempts[i].claimedAt <= attempts[j].claimedAt)
    && (forall i :: 0 <= i < |attempts| ==>
        attempts[i].checkedAt <= attempts[i].claimedAt <= attempts[i].checkedAt + latency)
    && (forall i, j :: 0 <= i < j < |attempts| && attempts[i].nonce == attempts[j].nonce ==>
        attempts[i].reportedAt == attempts[j].reportedAt)
  }

  /** A recorded nonce is still in the table, or time has passed it by more than the retention. */
  lemma {:induction false} NonceIsKept(nonces: Nonces, attempts: seq<Attempt>, configured: Option<real>, i: nat, n: nat)
    requires i < n <= |attempts| && OutcomeOf(nonces, attempts, configured, i) == Accepted
    requires forall j, k :: 0 <= j < k < |attempts| ==> attempts[j].claimedAt <= attempts[k].claimedAt
    ensures var after := NoncesAfter(nonces, attempts[..n], configured);
            (attempts[i].nonce in after && after[attempts[i].nonce] >= attempts[i].claimedAt) ||
            attempts[n - 1].claimedAt > attempts[i].claimedAt + SETTLE_NONCE_RETENTION_MS
  {
    assert attempts[..n][..n - 1] == attempts[..n - 1] && attempts[..n][n - 1] == attempts[n - 1];
    if i < n - 1 {
      NonceIsKept(nonces, attempts, configured, i, n - 1);
    }
  }

  /** Two recordings of one signature are further apart than the retention. */
  lemma RecordingsAreFarApart(nonces: Nonces, attempts: seq<Attempt>, configured: Option<real>, latency: nat, i: nat,
                              j: nat)
    requires IsRun(attempts, latency) && i < j < |attempts| && attempts[i].nonce == attempts[j].nonce
    requires OutcomeOf(nonces, attempts, configured, i) == Accepted &&
             OutcomeOf(nonces, attempts, configured, j) == Accepted
    ensures attempts[j].claimedAt > attempts[i].claimedAt + SETTLE_NONCE_RETENTION_MS
  {
    NonceIsKept(nonces, attempts, configured, i, j);
  }

  /** The longest a report can stay acceptable, counted from its first claim. */
  function Acceptable(configured: Option<real>, latency: nat): int {
    MaxAge(configured) + CLOCK_SKEW_MS + latency
  }

  /** Single use: while a report stays acceptable no longer than its nonce is kept, a signed body
      with a `reported_at` is recorded at most once in any run, sweeps included. */
  lemma ReportsAreSingleUse(nonces: Nonces, attempts: seq<Attempt>, configured: Option<real>, latency: nat, i: nat,
                            j: nat)
    requires IsRun(attempts, latency) && i < j < |attempts|
    requires attempts[i].nonce == attempts[j].nonce && attempts[i].reportedAt.Some?
    requires Acceptable(configured, latency) <= SETTLE_NONCE_RETENTION_MS
    ensures !(OutcomeOf(nonces, attempts, configured, i) == Accepted &&
              OutcomeOf(nonces, attempts, configured, j) == Accepted)
  {
    if OutcomeOf(nonces, attempts, configured, i) == Accepted &&
       OutcomeOf(nonces, attempts, configured, j) == Accepted {
      RecordingsAreFarApart(nonces, attempts, configured, latency, i, j);
      WindowIsAnInterval(attempts[i].reportedAt.value, attempts[i].checkedAt, configured);
      WindowIsAnInterval(attempts[j].reportedAt.value, attempts[j].checkedAt, configured);
      assert false;
    }
  }

  /** The default configuration qualifies, for any request latency up to 29 days. */
  lemma DefaultIsSingleUse(latency: nat)
    requires latency <= 29 * 24 * 60 * 60 * 1000
    ensures Acceptable(None, latency) <= SETTLE_NONCE_RETENTION_MS
  {
  }

  /** And only then: with a longer window the same report can be recorded at both ends of it. */
  function TwoEnds(nonce: string, d: int, configured: Option<real>, latency: nat): seq<Attempt> {
    var late := d + MaxAge(configured);
    [Attempt(nonce, Some(d), d - CLOCK_SKEW_MS, d - CLOCK_SKEW_MS, false),
     Attempt(nonce, Some(d), late, late + latency, false)]
  }

  lemma LongWindowsReplay(nonce: string, d: int, configured: Option<real>, latency: nat)
    requires Acceptable(configured, latency) > SETTLE_NONCE_RETENTION_MS
    ensures var run := TwoEnds(nonce, d, configured, latency);
            IsRun(run, latency) && OutcomeOf(map[], run, configured, 0) == Accepted &&
              OutcomeOf(map[], run, configured, 1) == Accepted
  {
  }

  /* ----- reports without a time ----- */

  /** A report without `reported_at` is protected by its nonce alone, so only from 30 days before
      the date on which the field becomes required. It is never recorded again when no request can
      still be accepted after its nonce is swept ... */
  lemma LegacyReportsAreSingleUse(nonces: Nonces, attempts: seq<Attempt>, configured: Option<real>, latency: nat,
                                  i: nat, j: nat)
    requires IsRun(attempts, latency) && i < j < |attempts|
    requires attempts[i].nonce == attempts[j].nonce && attempts[i].reportedAt.None?
    requires attempts[i].claimedAt + SETTLE_NONCE_RETENTION_MS >= REPORTED_AT_REQUIRED_FROM + latency
    ensures !(OutcomeOf(nonces, attempts, configured, i) == Accepted &&
              OutcomeOf(nonces, attempts, configured, j) == Accepted)
  {
    if OutcomeOf(nonces, attempts, configured, i) == Accepted &&
       OutcomeOf(nonces, attempts, configured, j) == Accepted {
      RecordingsAreFarApart(nonces, attempts, configured, latency, i, j);
      assert false;
    }
  }

  /** ... and can be recorded again whenever one can. */
  lemma EarlyLegacyReportsReplay(nonce: string, first: int, configured: Option<real>, latency: nat)
    requires first <= REPORTED_AT_REQUIRED_FROM &&
             first + SETTLE_NONCE_RETENTION_MS < REPORTED_AT_REQUIRED_FROM + latency
    ensures var again := first + SETTLE_NONCE_RETENTION_MS + 1;
            var run := [Attempt(nonce, None, first, first, false),
                        Attempt(nonce, None, if again <= REPORTED_AT_REQUIRED_FROM then again
                                else REPORTED_AT_REQUIRED_FROM, again, false)];
            IsRun(run, latency) && OutcomeOf(map[], run, configured, 0) == Accepted &&
              OutcomeOf(map[], run, configured, 1) == Accepted
  {
  }
}
