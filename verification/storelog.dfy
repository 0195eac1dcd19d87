/** Every history of store calls: any callers, any order, any clock.
    Nothing here depends on which worker makes a call, so each law holds over all interleavings. */
module StoreLog {
  import opened Options
  import opened Table

  const POLL_INTERVAL_SECONDS := 60
  const POLL_LEASE_GRACE_SECONDS := 2 * POLL_INTERVAL_SECONDS
  const CREATE_LEASE_SECONDS := 10 * 60

  const CREATE_LEASE: int := CREATE_LEASE_SECONDS * SECOND

  function LeaseSeconds(delay: int): int {
    delay + POLL_LEASE_GRACE_SECONDS
  }

  /** A new chain polls after one interval, a re-armed one at once. */
  function ArmDelay(onlyIfLost: bool): int {
    if onlyIfLost then 0 else POLL_INTERVAL_SECONDS
  }

  datatype Db = Db(now: Time, rows: Rows, issued: set<Token>)

  /** A passage of time or one committed store call, with the arguments the service passes. */
  datatype Event =
    | Elapse(d: nat)
    | UpsertCall(n: nat, patch: Patch)
    | ClaimCall(n: nat, title: string, issueUrl: string)
    | ClaimPollCall(n: nat, sid: string, token: Token, onlyIfLost: bool)
    | RenewCall(n: nat, poll: Token)
    | ReleaseCall(n: nat, owner: Option<Token>)
    | DetachCall(n: nat, pr: string)
    | ReattachCall(n: nat, pr: string, stamp: Time)

  /** Poll tokens are drawn fresh. */
  predicate Allowed(db: Db, ev: Event) {
    ev.ClaimPollCall? ==> ev.token !in db.issued
  }

  function RowsAfter(db: Db, ev: Event): Rows {
    match ev
    case Elapse(_) => db.rows
    case UpsertCall(n, patch) => Upsert(db.rows, n, patch, db.now)
    case ClaimCall(n, title, url) => ClaimRemediation(db.rows, n, title, url, CREATE_LEASE_SECONDS, db.now)
    case ClaimPollCall(n, sid, token, lost) =>
      ClaimPoll(db.rows, n, sid, token, LeaseSeconds(ArmDelay(lost)), lost, db.now)
    case RenewCall(n, token) => RenewPoll(db.rows, n, token, LeaseSeconds(POLL_INTERVAL_SECONDS), db.now)
    case ReleaseCall(n, token) => ReleasePoll(db.rows, n, token)
    case DetachCall(n, pr) => DetachClosedPr(db.rows, n, pr, db.now)
    case ReattachCall(n, pr, stamp) => ReattachClosedPr(db.rows, n, pr, stamp, db.now)
  }

  function Next(db: Db, ev: Event): Db {
    Db(if ev.Elapse? then db.now + ev.d else db.now,
       RowsAfter(db, ev),
       if ev.ClaimPollCall? then db.issued + {ev.token} else db.issued)
  }

  ghost predicate IsRun(dbs: seq<Db>, evs: seq<Event>) {
    && |dbs| == |evs| + 1
    && forall k :: 0 <= k < |evs| ==> Allowed(dbs[k], evs[k]) && dbs[k + 1] == Next(dbs[k], evs[k])
  }

  // --- the row invariant -------------------------------------------------------------------

  predicate RowOk(db: Db, row: Row) {
    && (row.pollToken.Some? ==>
          row.sessionId.Some? && row.leaseUntil.Some? && row.pollToken.value in db.issued)
    && (row.leaseUntil.Some? ==> row.leaseUntil.value <= db.now + CREATE_LEASE)
    && row.updatedAt <= db.now
  }

  predicate Valid(db: Db) {
    forall n :: n in db.rows ==> RowOk(db, db.rows[n])
  }

  lemma StepKeepsValid(db: Db, ev: Event)
    requires Valid(db)
    ensures Valid(Next(db, ev))
  {
    forall n | n in Next(db, ev).rows
      ensures RowOk(Next(db, ev), Next(db, ev).rows[n])
    {
      assert n in db.rows ==> RowOk(db, db.rows[n]);
    }
  }

  /** In every reachable table a poll token comes with a session and a lease, and no lease ends
      more than CREATE_LEASE_SECONDS from now. */
  lemma {:induction false} RowInvariant(dbs: seq<Db>, evs: seq<Event>, k: nat)
    requires IsRun(dbs, evs) && k < |dbs| && Valid(dbs[0])
    ensures Valid(dbs[k])
  {
    if k > 0 {
      RowInvariant(dbs, evs, k - 1);
      StepKeepsValid(dbs[k - 1], evs[k - 1]);
    }
  }

  lemma RowsStay(db: Db, ev: Event)
    ensures db.rows.Keys <= Next(db, ev).rows.Keys
  {
  }

  lemma {:induction false} OnlyGrows(dbs: seq<Db>, evs: seq<Event>, i: nat, j: nat)
    requires IsRun(dbs, evs) && i <= j < |dbs|
    ensures dbs[i].now <= dbs[j].now
    ensures dbs[i].issued <= dbs[j].issued
    ensures dbs[i].rows.Keys <= dbs[j].rows.Keys
  {
    if i < j {
      OnlyGrows(dbs, evs, i, j - 1);
    }
  }

  // --- sessions ----------------------------------------------------------------------------

  predicate RunsWithSession(db: Db, n: nat) {
    n in db.rows && db.rows[n].status == Running && db.rows[n].sessionId.Some?
  }

  predicate RecordsSession(ev: Event, n: nat) {
    ev.UpsertCall? && ev.n == n && ev.patch.sessionId.Some?
  }

  /** While a row stays running with a session, only an upsert that carries a session changes it. */
  lemma {:induction false} SessionKept(dbs: seq<Db>, evs: seq<Event>, n: nat, i: nat, j: nat)
    requires IsRun(dbs, evs) && i <= j < |dbs|
    requires forall k :: i <= k <= j ==> RunsWithSession(dbs[k], n)
    requires forall k :: i <= k < j ==> !RecordsSession(evs[k], n)
    ensures RunsWithSession(dbs[i], n) && RunsWithSession(dbs[j], n)
    ensures dbs[j].rows[n].sessionId == dbs[i].rows[n].sessionId
  {
    if i < j {
      SessionKept(dbs, evs, n, i, j - 1);
      assert RunsWithSession(dbs[j - 1], n) && RunsWithSession(dbs[j], n);
    }
  }

  // --- dead tokens -------------------------------------------------------------------------

  /** The token was issued and owns no row. */
  predicate Dead(db: Db, t: Token) {
    t in db.issued && forall n :: n in db.rows ==> db.rows[n].pollToken != Some(t)
  }

  /** A renewal or release made with token `t`. */
  predicate CarriedBy(ev: Event, t: Token) {
    (ev.RenewCall? && ev.poll == t) || (ev.ReleaseCall? && ev.owner == Some(t))
  }

  lemma DeadStep(db: Db, ev: Event, t: Token)
    requires Allowed(db, ev) && Dead(db, t)
    ensures Dead(Next(db, ev), t)
    ensures CarriedBy(ev, t) ==> Next(db, ev) == db
  {
    forall n | n in Next(db, ev).rows
      ensures Next(db, ev).rows[n].pollToken != Some(t)
    {
      assert n in db.rows ==> db.rows[n].pollToken != Some(t);
    }
  }

  /** A token that has left its row never returns, and calls carrying it change nothing. */
  lemma {:induction false} DeadForever(dbs: seq<Db>, evs: seq<Event>, t: Token, i: nat, j: nat)
    requires IsRun(dbs, evs) && i <= j < |dbs| && Dead(dbs[i], t)
    ensures Dead(dbs[j], t)
    ensures j < |evs| && CarriedBy(evs[j], t) ==> dbs[j + 1] == dbs[j]
  {
    if i < j {
      DeadForever(dbs, evs, t, i, j - 1);
      DeadStep(dbs[j - 1], evs[j - 1], t);
    }
    if j < |evs| {
      DeadStep(dbs[j], evs[j], t);
    }
  }

  // --- grant gap ---------------------------------------------------------------------------

  predicate Grants(db: Db, ev: Event, n: nat) {
    ev.ClaimCall? && ev.n == n && CanClaim(db.rows, n, db.now)
  }

  /** The settlement of a failed creation: `release_poll` without a token. */
  predicate BareRelease(ev: Event, n: nat) {
    ev == ReleaseCall(n, None)
  }

  predicate IsRunning(db: Db, n: nat) {
    n in db.rows && db.rows[n].status == Running
  }

  /** Running, and as long as there is no session, leased until exactly `until`. */
  predicate Held(db: Db, n: nat, until: Time) {
    && IsRunning(db, n)
    && (db.rows[n].sessionId.None? ==> db.rows[n].leaseUntil == Some(until))
  }

  /** Polling calls cannot extend, shorten or drop a creation lease. */
  lemma PollCallsSkipCreation(db: Db, ev: Event)
    requires Valid(db)
    requires ev.ClaimPollCall? || ev.RenewCall? || (ev.ReleaseCall? && ev.owner.Some?)
    requires ev.n in db.rows && db.rows[ev.n].sessionId.None?
    ensures Next(db, ev).rows == db.rows
  {
    assert RowOk(db, db.rows[ev.n]);
  }

  lemma HeldStep(db: Db, ev: Event, n: nat, until: Time)
    requires Valid(db) && Held(db, n, until)
    requires !BareRelease(ev, n) && db.now <= until
    requires IsRunning(Next(db, ev), n)
    ensures Held(Next(db, ev), n, until)
  {
    assert RowOk(db, db.rows[n]);
  }

  /** From `i` to `j` the row keeps running and no bare release hits it. */
  ghost predicate QuietRunning(dbs: seq<Db>, evs: seq<Event>, n: nat, i: nat, j: nat) {
    && i <= j < |dbs| && j <= |evs|
    && (forall k :: i <= k <= j ==> IsRunning(dbs[k], n))
    && forall k :: i <= k < j ==> !BareRelease(evs[k], n)
  }

  lemma {:induction false} HeldThrough(dbs: seq<Db>, evs: seq<Event>, n: nat, i: nat, j: nat, until: Time)
    requires IsRun(dbs, evs) && Valid(dbs[0]) && QuietRunning(dbs, evs, n, i, j)
    requires Held(dbs[i], n, until) && dbs[j].now <= until
    ensures Held(dbs[j], n, until)
  {
    if i < j {
      OnlyGrows(dbs, evs, j - 1, j);
      HeldThrough(dbs, evs, n, i, j - 1, until);
      RowInvariant(dbs, evs, j - 1);
      HeldOnce(dbs[j - 1], evs[j - 1], dbs[j], n, until);
    }
  }

  lemma HeldOnce(before: Db, ev: Event, after: Db, n: nat, until: Time)
    requires Valid(before) && Held(before, n, until) && before.now <= until
    requires !BareRelease(ev, n) && after == Next(before, ev) && IsRunning(after, n)
    ensures Held(after, n, until)
  {
    HeldStep(before, ev, n, until);
  }

  /** Two grants for one issue are separated by a non-running state, a full creation lease,
      or a settlement's bare release. */
  lemma GrantGap(dbs: seq<Db>, evs: seq<Event>, n: nat, i: nat, j: nat)
    requires IsRun(dbs, evs) && i < j < |evs| && Valid(dbs[0])
    requires Grants(dbs[i], evs[i], n) && Grants(dbs[j], evs[j], n)
    ensures
      || (exists k :: i < k <= j && !IsRunning(dbs[k], n))
      || dbs[j].now > dbs[i].now + CREATE_LEASE
      || (exists k :: i < k < j && BareRelease(evs[k], n))
  {
    if QuietRunning(dbs, evs, n, i + 1, j) {
      if dbs[j].now <= dbs[i].now + CREATE_LEASE {
        assert IsRunning(dbs[i + 1], n);
        HeldThrough(dbs, evs, n, i + 1, j, dbs[i].now + CREATE_LEASE);
      }
    }
  }

  // --- scan exclusivity --------------------------------------------------------------------

  /** A reconciliation scan wins the poll lease of the row. */
  predicate ScanWins(db: Db, ev: Event, n: nat) {
    ev.ClaimPollCall? && ev.n == n && ev.onlyIfLost && CanClaimPoll(db.rows, n, ev.sid, true, db.now)
  }

  /** The lease is given up or the issue starts over. */
  predicate LeaseGivenUp(db: Db, ev: Event, n: nat) {
    || Grants(db, ev, n)
    || (ev.ReleaseCall? && ev.n == n && CanRelease(db.rows, n, ev.owner))
  }

  const GRACE: int := POLL_LEASE_GRACE_SECONDS * SECOND
  const POLL_LEASE: int := LeaseSeconds(POLL_INTERVAL_SECONDS) * SECOND

  predicate LeaseLive(db: Db, n: nat) {
    n in db.rows && !LeaseLost(db.rows[n], db.now)
  }

  /** Time passes the end of the lease in force. */
  predicate Lapses(db: Db, ev: Event, n: nat) {
    ev.Elapse? && LeaseLive(db, n) && !LeaseLive(Next(db, ev), n)
  }

  /** The row is leased, and not for longer than a poll chain leases it. */
  predicate PollLeased(db: Db, n: nat) {
    n in db.rows && db.rows[n].leaseUntil.Some? && db.rows[n].leaseUntil.value <= db.now + POLL_LEASE
  }

  lemma LeaseOnward(db: Db, ev: Event, n: nat)
    requires PollLeased(db, n) && !LeaseGivenUp(db, ev, n)
    ensures PollLeased(Next(db, ev), n)
    ensures db.rows[n].leaseUntil.value <= Next(db, ev).rows[n].leaseUntil.value
  {
  }

  /** As long as nobody gives a poll lease up, its end never moves back. */
  lemma {:induction false} LeaseRises(dbs: seq<Db>, evs: seq<Event>, n: nat, i: nat, j: nat)
    requires IsRun(dbs, evs) && i <= j < |dbs| && PollLeased(dbs[i], n)
    requires forall k :: i <= k < j ==> !LeaseGivenUp(dbs[k], evs[k], n)
    ensures PollLeased(dbs[j], n) && dbs[i].rows[n].leaseUntil.value <= dbs[j].rows[n].leaseUntil.value
  {
    if i < j {
      LeaseRises(dbs, evs, n, i, j - 1);
      LeaseOnward(dbs[j - 1], evs[j - 1], n);
    }
  }

  /** Between two scans that win the lease of one row somebody gave it up, or every lease set in
      between, by the first scan and by each renewal and claim since, had elapsed at the second. */
  lemma ScanExclusivity(dbs: seq<Db>, evs: seq<Event>, n: nat, i: nat, j: nat)
    requires IsRun(dbs, evs) && i < j < |evs|
    requires ScanWins(dbs[i], evs[i], n) && ScanWins(dbs[j], evs[j], n)
    ensures
      || (exists k :: i < k < j && LeaseGivenUp(dbs[k], evs[k], n))
      || (forall k :: i < k <= j ==> PollLeased(dbs[k], n) && dbs[k].rows[n].leaseUntil.value < dbs[j].now)
  {
    if forall k :: i < k < j ==> !LeaseGivenUp(dbs[k], evs[k], n) {
      forall k | i < k <= j
        ensures PollLeased(dbs[k], n) && dbs[k].rows[n].leaseUntil.value < dbs[j].now
      {
        LeaseRises(dbs, evs, n, i + 1, k);
        LeaseRises(dbs, evs, n, k, j);
      }
    }
  }

  /** In particular the first scan's own lease: the whole grace period has passed. */
  lemma ScansApart(dbs: seq<Db>, evs: seq<Event>, n: nat, i: nat, j: nat)
    requires IsRun(dbs, evs) && i < j < |evs|
    requires ScanWins(dbs[i], evs[i], n) && ScanWins(dbs[j], evs[j], n)
    ensures
      || (exists k :: i < k < j && LeaseGivenUp(dbs[k], evs[k], n))
      || dbs[j].now > dbs[i].now + GRACE
  {
    ScanExclusivity(dbs, evs, n, i, j);
    if k :| i < k < j && LeaseGivenUp(dbs[k], evs[k], n) {
    } else {
      assert PollLeased(dbs[i + 1], n) && dbs[i + 1].rows[n].leaseUntil.value < dbs[j].now;
    }
  }

  function Wins(dbs: seq<Db>, evs: seq<Event>, n: nat, k: nat): nat
    requires k <= |evs| <= |dbs|
  {
    if k == 0 then 0 else Wins(dbs, evs, n, k - 1) + (if ScanWins(dbs[k - 1], evs[k - 1], n) then 1 else 0)
  }

  function GiveUps(dbs: seq<Db>, evs: seq<Event>, n: nat, k: nat): nat
    requires k <= |evs| <= |dbs|
  {
    if k == 0 then 0 else GiveUps(dbs, evs, n, k - 1) + (if LeaseGivenUp(dbs[k - 1], evs[k - 1], n) then 1 else 0)
  }

  function LapseCount(dbs: seq<Db>, evs: seq<Event>, n: nat, k: nat): nat
    requires k <= |evs| <= |dbs|
  {
    if k == 0 then 0 else LapseCount(dbs, evs, n, k - 1) + (if Lapses(dbs[k - 1], evs[k - 1], n) then 1 else 0)
  }

  function Live(db: Db, n: nat): nat {
    if LeaseLive(db, n) then 1 else 0
  }

  lemma WinUsesUp(db: Db, ev: Event, n: nat)
    ensures (if ScanWins(db, ev, n) then 1 else 0) + Live(db, n)
            <= Live(Next(db, ev), n) + (if LeaseGivenUp(db, ev, n) then 1 else 0) + (if Lapses(db, ev, n) then 1 else 0)
  {
  }

  /** One chain per lost lease: however many scans overlap, from whatever table on, the chains they
      start for a row are at most the leases given up and the leases that ran out, and one more while
      the last one is in force. */
  lemma {:induction false} ScanBudget(dbs: seq<Db>, evs: seq<Event>, n: nat, k: nat)
    requires IsRun(dbs, evs) && k <= |evs|
    ensures Wins(dbs, evs, n, k) + Live(dbs[0], n)
            <= Live(dbs[k], n) + GiveUps(dbs, evs, n, k) + LapseCount(dbs, evs, n, k)
  {
    if k > 0 {
      ScanBudget(dbs, evs, n, k - 1);
      WinUsesUp(dbs[k - 1], evs[k - 1], n);
    }
  }

  lemma {:induction false} GiveUpsGrow(dbs: seq<Db>, evs: seq<Event>, n: nat, i: nat, j: nat)
    requires i <= j <= |evs| <= |dbs|
    ensures GiveUps(dbs, evs, n, i) <= GiveUps(dbs, evs, n, j)
    ensures (exists k :: i <= k < j && LeaseGivenUp(dbs[k], evs[k], n))
            ==> GiveUps(dbs, evs, n, i) < GiveUps(dbs, evs, n, j)
  {
    if i < j {
      GiveUpsGrow(dbs, evs, n, i, j - 1);
    }
  }

  /** `last` is the latest win before `k`. */
  lemma {:induction false} LastWin(dbs: seq<Db>, evs: seq<Event>, n: nat, k: nat) returns (last: nat)
    requires IsRun(dbs, evs) && k <= |evs| && Wins(dbs, evs, n, k) > 0
    ensures last < k && ScanWins(dbs[last], evs[last], n)
    ensures Wins(dbs, evs, n, last + 1) == Wins(dbs, evs, n, k)
  {
    if ScanWins(dbs[k - 1], evs[k - 1], n) {
      last := k - 1;
    } else {
      last := LastWin(dbs, evs, n, k - 1);
    }
  }

  lemma OneMore(before: int, after: int, t0: int, t1: int)
    requires before * GRACE <= t0
    requires after <= before || (after <= before + 1 && t1 >= t0 + GRACE)
    requires t0 <= t1
    ensures after * GRACE <= t1
  {
  }

  lemma GapPaidFor(dbs: seq<Db>, evs: seq<Event>, n: nat, i: nat, j: nat)
    requires IsRun(dbs, evs) && i < j < |evs|
    requires ScanWins(dbs[i], evs[i], n) && ScanWins(dbs[j], evs[j], n)
    ensures GiveUps(dbs, evs, n, i) <= GiveUps(dbs, evs, n, j)
    ensures GiveUps(dbs, evs, n, i) < GiveUps(dbs, evs, n, j) || dbs[j].now > dbs[i].now + GRACE
  {
    ScansApart(dbs, evs, n, i, j);
    GiveUpsGrow(dbs, evs, n, i, j);
  }

  lemma {:induction false} WinsPaidFor(dbs: seq<Db>, evs: seq<Event>, n: nat, k: nat)
    requires IsRun(dbs, evs) && k < |evs| && ScanWins(dbs[k], evs[k], n)
    ensures (Wins(dbs, evs, n, k) - GiveUps(dbs, evs, n, k)) * GRACE <= dbs[k].now - dbs[0].now
    decreases k
  {
    OnlyGrows(dbs, evs, 0, k);
    if Wins(dbs, evs, n, k) > 0 {
      var last := LastWin(dbs, evs, n, k);
      WinsPaidFor(dbs, evs, n, last);
      OnlyGrows(dbs, evs, last, k);
      GapPaidFor(dbs, evs, n, last, k);
      OneMore(Wins(dbs, evs, n, last) - GiveUps(dbs, evs, n, last), Wins(dbs, evs, n, k) - GiveUps(dbs, evs, n, k),
              dbs[last].now - dbs[0].now, dbs[k].now - dbs[0].now);
    } else {
      OneMore(0, 0 - GiveUps(dbs, evs, n, k), 0, dbs[k].now - dbs[0].now);
    }
  }

  /** By the clock alone: at most one, plus one per lease given up, plus one per grace period elapsed. */
  lemma ScanRate(dbs: seq<Db>, evs: seq<Event>, n: nat)
    requires IsRun(dbs, evs)
    ensures Wins(dbs, evs, n, |evs|) <= 1 + GiveUps(dbs, evs, n, |evs|) + (dbs[|evs|].now - dbs[0].now) / GRACE
  {
    OnlyGrows(dbs, evs, 0, |evs|);
    if Wins(dbs, evs, n, |evs|) > 0 {
      var last := LastWin(dbs, evs, n, |evs|);
      WinsPaidFor(dbs, evs, n, last);
      GiveUpsGrow(dbs, evs, n, last, |evs|);
      OnlyGrows(dbs, evs, last, |evs|);
      Quotient(Wins(dbs, evs, n, last) - GiveUps(dbs, evs, n, last), dbs[last].now - dbs[0].now,
               dbs[|evs|].now - dbs[0].now);
    }
  }

  lemma Quotient(extra: int, paid: int, elapsed: int)
    requires extra * GRACE <= paid <= elapsed
    ensures extra <= elapsed / GRACE
  {
  }

  // --- recovery ----------------------------------------------------------------------------

  /** A running row whose lease nobody has touched for longer than CREATE_LEASE_SECONDS is
      recoverable by exactly one of the two ways in. */
  lemma BoundedRecovery(dbs: seq<Db>, evs: seq<Event>, n: nat, i: nat, j: nat)
    requires IsRun(dbs, evs) && Valid(dbs[0]) && i <= j < |dbs|
    requires n in dbs[i].rows && n in dbs[j].rows && IsRunning(dbs[j], n)
    requires dbs[j].rows[n].leaseUntil == dbs[i].rows[n].leaseUntil
    requires dbs[j].now > dbs[i].now + CREATE_LEASE
    ensures CanClaim(dbs[j].rows, n, dbs[j].now) <==> n !in UnpolledRunning(dbs[j].rows, dbs[j].now)
    ensures (exists sid :: CanClaimPoll(dbs[j].rows, n, sid, true, dbs[j].now))
            <==> n in UnpolledRunning(dbs[j].rows, dbs[j].now)
  {
    RowInvariant(dbs, evs, i);
    assert RowOk(dbs[i], dbs[i].rows[n]);
    var row := dbs[j].rows[n];
    if row.sessionId.Some? {
      assert CanClaimPoll(dbs[j].rows, n, row.sessionId.value, true, dbs[j].now);
    }
  }

  // --- compensation ------------------------------------------------------------------------

  /** The call writes row `n` and stamps `updated_at`. */
  predicate Stamps(db: Db, ev: Event, n: nat) {
    || (ev.UpsertCall? && ev.n == n)
    || Grants(db, ev, n)
    || (ev.DetachCall? && ev.n == n && CanDetach(db.rows, n, ev.pr))
    || (ev.ReattachCall? && ev.n == n && CanReattach(db.rows, n, ev.stamp))
  }

  /** Equal in everything but the poll lease. */
  predicate SameBusinessData(a: Row, b: Row) {
    a.(pollToken := None, leaseUntil := None) == b.(pollToken := None, leaseUntil := None)
  }

  lemma {:induction false} UnstampedKeep(dbs: seq<Db>, evs: seq<Event>, n: nat, i: nat, j: nat)
    requires IsRun(dbs, evs) && i <= j < |dbs| && n in dbs[i].rows
    requires forall k :: i <= k < j ==> !Stamps(dbs[k], evs[k], n)
    ensures n in dbs[j].rows && SameBusinessData(dbs[i].rows[n], dbs[j].rows[n])
  {
    if i < j {
      UnstampedKeep(dbs, evs, n, i, j - 1);
      assert !Stamps(dbs[j - 1], evs[j - 1], n);
    }
  }

  predicate Detaches(db: Db, ev: Event, n: nat, pr: string) {
    ev == DetachCall(n, pr) && CanDetach(db.rows, n, pr)
  }

  /** Every stamped write of the row between `i` and `j` was made at clock reading `at`. */
  ghost predicate StampedOnlyAt(dbs: seq<Db>, evs: seq<Event>, n: nat, i: nat, j: nat, at: Time) {
    j <= |evs| <= |dbs| &&
    forall k :: i < k < j && Stamps(dbs[k], evs[k], n) ==> dbs[k].now == at
  }

  predicate LooksDetached(db: Db, n: nat) {
    n in db.rows && db.rows[n].status == Failed && db.rows[n].prUrl == Some("")
  }

  lemma StampStep(db: Db, ev: Event, n: nat)
    requires n in db.rows
    ensures n in Next(db, ev).rows
    ensures Next(db, ev).rows[n].updatedAt == if Stamps(db, ev, n) then db.now else db.rows[n].updatedAt
  {
  }

  lemma {:induction false} StampKept(dbs: seq<Db>, evs: seq<Event>, n: nat, i: nat, j: nat, at: Time)
    requires IsRun(dbs, evs) && i < j <= |evs| && Stamps(dbs[i], evs[i], n) && dbs[i].now == at
    ensures n in dbs[j].rows && dbs[j].rows[n].updatedAt >= at
    ensures dbs[j].rows[n].updatedAt == at <==> StampedOnlyAt(dbs, evs, n, i, j, at)
  {
    if i + 1 < j {
      StampKept(dbs, evs, n, i, j - 1, at);
      StampStep(dbs[j - 1], evs[j - 1], n);
      forall k | i <= k < j
        ensures at <= dbs[k].now <= dbs[j - 1].now
      {
        OnlyGrows(dbs, evs, i, k);
        OnlyGrows(dbs, evs, k, j - 1);
      }
      assert StampedOnlyAt(dbs, evs, n, i, j, at) <==>
             StampedOnlyAt(dbs, evs, n, i, j - 1, at) && (Stamps(dbs[j - 1], evs[j - 1], n) ==> dbs[j - 1].now == at);
    }
  }

  /** Whatever the clock does, the compensation of a detach applies if and only if every write of the
      row since the detach was made at its clock reading and the row still looks detached. */
  lemma CompensationApplies(dbs: seq<Db>, evs: seq<Event>, n: nat, pr: string, i: nat, j: nat)
    requires IsRun(dbs, evs) && i < j <= |evs| && Detaches(dbs[i], evs[i], n, pr)
    ensures CanReattach(dbs[j].rows, n, dbs[i].now) <==>
            StampedOnlyAt(dbs, evs, n, i, j, dbs[i].now) && LooksDetached(dbs[j], n)
  {
    assert Stamps(dbs[i], evs[i], n);
    StampKept(dbs, evs, n, i, j, dbs[i].now);
  }

  /** No stamped write of the row between `i` and `j` shares the clock reading of `i`. */
  ghost predicate OwnReading(dbs: seq<Db>, evs: seq<Event>, n: nat, i: nat, j: nat) {
    j <= |evs| <= |dbs| && i < |dbs| &&
    forall k :: i < k < j && Stamps(dbs[k], evs[k], n) ==> dbs[k].now != dbs[i].now
  }

  /** The compensation of a detach that had its clock reading to itself applies exactly when nothing has
      written the row since, and then only the status differs from what it was. */
  lemma CompensationExact(dbs: seq<Db>, evs: seq<Event>, n: nat, pr: string, i: nat, j: nat)
    requires IsRun(dbs, evs) && i < j < |evs| && OwnReading(dbs, evs, n, i, j)
    requires Detaches(dbs[i], evs[i], n, pr)
    requires evs[j] == ReattachCall(n, pr, dbs[i].now)
    ensures n in dbs[i].rows && n in dbs[j + 1].rows
    ensures CanReattach(dbs[j].rows, n, dbs[i].now) <==> forall k :: i < k < j ==> !Stamps(dbs[k], evs[k], n)
    ensures CanReattach(dbs[j].rows, n, dbs[i].now) ==>
              SameBusinessData(dbs[j + 1].rows[n],
                               dbs[i].rows[n].(status := Failed, updatedAt := dbs[j].now))
  {
    OnlyGrows(dbs, evs, i, j + 1);
    CompensationApplies(dbs, evs, n, pr, i, j);
    if forall k :: i < k < j ==> !Stamps(dbs[k], evs[k], n) {
      UnstampedKeep(dbs, evs, n, i + 1, j);
    }
  }

  /** An instance: with one clock reading shared by a detach and an edit of the title, the compensation
      applies although the row has been written in between. */
  lemma CompensationNeedsStrictStamps(n: nat, pr: string) returns (dbs: seq<Db>, evs: seq<Event>)
    requires pr != ""
    ensures IsRun(dbs, evs) && |evs| == 4 && dbs[0] == Db(0, map[], {})
    ensures Detaches(dbs[1], evs[1], n, pr) && evs[3] == ReattachCall(n, pr, dbs[1].now)
    ensures CanReattach(dbs[3].rows, n, dbs[1].now)
    ensures n in dbs[1].rows && n in dbs[4].rows && dbs[1].rows[n].title != dbs[4].rows[n].title
  {
    var e0 := UpsertCall(n, NO_CHANGE.(status := Some(Completed), prUrl := Some(pr)));
    var e1 := DetachCall(n, pr);
    var e2 := UpsertCall(n, NO_CHANGE.(title := Some("edited")));
    var e3 := ReattachCall(n, pr, 0);
    evs := [e0, e1, e2, e3];
    var d0 := Db(0, map[], {});
    var d1 := Next(d0, e0);
    var d2 := Next(d1, e1);
    var d3 := Next(d2, e2);
    dbs := [d0, d1, d2, d3, Next(d3, e3)];
  }
}
