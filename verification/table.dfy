/** The task table: one row per issue, and the guarded update each store call makes to it. */
module Table {
  import opened Options

  /** Time stamps and leases, in microseconds. */
  type Time = int
  type Token = string

  const SECOND: int := 1_000_000

  datatype Status = Running | Completed | Failed

  datatype Row = Row(
    title: string,
    issueUrl: string,
    sessionId: Option<string>,
    sessionUrl: Option<string>,
    status: Status,
    prUrl: Option<string>,
    pollToken: Option<Token>,
    leaseUntil: Option<Time>,
    createdAt: Time,
    updatedAt: Time)

  type Rows = map<nat, Row>

  /** The keyword arguments of `upsert`; None means "leave the column alone". */
  datatype Patch = Patch(
    title: Option<string>,
    issueUrl: Option<string>,
    sessionId: Option<string>,
    sessionUrl: Option<string>,
    status: Option<Status>,
    prUrl: Option<string>)

  const NO_CHANGE := Patch(None, None, None, None, None, None)

  function Patched(row: Row, p: Patch, now: Time): Row {
    row.(title := OrElse(p.title, row.title),
         issueUrl := OrElse(p.issueUrl, row.issueUrl),
         sessionId := if p.sessionId.Some? then p.sessionId else row.sessionId,
         sessionUrl := if p.sessionUrl.Some? then p.sessionUrl else row.sessionUrl,
         status := OrElse(p.status, row.status),
         prUrl := if p.prUrl.Some? then p.prUrl else row.prUrl,
         updatedAt := now)
  }

  /** A row as INSERTed, with every column not named left at its default. */
  function NewRow(title: string, issueUrl: string, lease: Option<Time>, now: Time): Row {
    Row(title, issueUrl, None, None, Running, None, None, lease, now, now)
  }

  function Upsert(rows: Rows, n: nat, p: Patch, now: Time): Rows {
    var row := if n in rows then rows[n]
               else NewRow(OrElse(p.title, ""), OrElse(p.issueUrl, ""), None, now);
    rows[n := Patched(row, p, now)]
  }

  /** The lease column is NULL or lies in the past. */
  predicate LeaseLost(row: Row, now: Time) {
    row.leaseUntil.None? || row.leaseUntil.value < now
  }

  /** The issue may be handed to a new remediation task. */
  predicate CanClaim(rows: Rows, n: nat, now: Time) {
    n in rows ==>
      || rows[n].status != Running
      || (rows[n].sessionId.None? && LeaseLost(rows[n], now))
  }

  function ClaimRemediation(rows: Rows, n: nat, title: string, issueUrl: string, lease: int, now: Time): Rows {
    if !CanClaim(rows, n, now) then rows
    else
      var granted := NewRow(title, issueUrl, Some(now + lease * SECOND), now);
      rows[n := if n in rows then granted.(createdAt := rows[n].createdAt) else granted]
  }

  predicate CanClaimPoll(rows: Rows, n: nat, sid: string, onlyIfLost: bool, now: Time) {
    && n in rows
    && rows[n].sessionId == Some(sid)
    && rows[n].status == Running
    && (onlyIfLost ==> LeaseLost(rows[n], now))
  }

  function ClaimPoll(rows: Rows, n: nat, sid: string, token: Token, lease: int, onlyIfLost: bool, now: Time): Rows {
    if CanClaimPoll(rows, n, sid, onlyIfLost, now)
    then rows[n := rows[n].(pollToken := Some(token), leaseUntil := Some(now + lease * SECOND))]
    else rows
  }

  predicate HoldsToken(rows: Rows, n: nat, token: Token) {
    n in rows && rows[n].pollToken == Some(token)
  }

  function RenewPoll(rows: Rows, n: nat, token: Token, lease: int, now: Time): Rows {
    if HoldsToken(rows, n, token)
    then rows[n := rows[n].(leaseUntil := Some(now + lease * SECOND))]
    else rows
  }

  predicate CanRelease(rows: Rows, n: nat, token: Option<Token>) {
    n in rows && (token.Some? ==> rows[n].pollToken == token)
  }

  function ReleasePoll(rows: Rows, n: nat, token: Option<Token>): Rows {
    if CanRelease(rows, n, token)
    then rows[n := rows[n].(pollToken := None, leaseUntil := None)]
    else rows
  }

  predicate CanDetach(rows: Rows, n: nat, pr: string) {
    n in rows && rows[n].prUrl == Some(pr) && rows[n].status != Running
  }

  function DetachClosedPr(rows: Rows, n: nat, pr: string, now: Time): Rows {
    if CanDetach(rows, n, pr)
    then rows[n := rows[n].(status := Failed, prUrl := Some(""), updatedAt := now)]
    else rows
  }

  predicate CanReattach(rows: Rows, n: nat, stamp: Time) {
    && n in rows
    && rows[n].status == Failed
    && rows[n].prUrl == Some("")
    && rows[n].updatedAt == stamp
  }

  function ReattachClosedPr(rows: Rows, n: nat, pr: string, stamp: Time, now: Time): Rows {
    if CanReattach(rows, n, stamp)
    then rows[n := rows[n].(prUrl := Some(pr), updatedAt := now)]
    else rows
  }

  /** Issues whose session runs but whose poll chain was never scheduled or was lost. */
  function UnpolledRunning(rows: Rows, now: Time): set<nat> {
    set n | n in rows && rows[n].status == Running && rows[n].sessionId.Some? && LeaseLost(rows[n], now)
  }

  /** Issues a close event of `pr` may hand back. */
  function LinkedTo(rows: Rows, pr: string): set<nat> {
    set n | n in rows && rows[n].prUrl == Some(pr) && rows[n].status != Running
  }

  predicate IsLeast(m: nat, s: set<nat>) {
    m in s && forall y :: y in s ==> m <= y
  }

  /** The keys in ascending order, as `ORDER BY issue_number` and `sorted` give them. */
  function Ascending(s: set<nat>): (r: seq<nat>)
    ensures forall i, j :: 0 <= i < j < |r| ==> r[i] < r[j]
    ensures forall x :: x in r <==> x in s
  {
    if s == {} then []
    else
      LeastExists(s);
      var m :| IsLeast(m, s);
      var rest := Ascending(s - {m});
      assert forall i :: 0 <= i < |rest| ==> rest[i] in s - {m};
      [m] + rest
  }

  lemma LeastExists(s: set<nat>)
    requires s != {}
    ensures exists m :: IsLeast(m, s)
  {
    var x :| x in s;
    var rest := s - {x};
    if rest == {} {
      assert s == {x};
      assert IsLeast(x, s);
    } else {
      LeastExists(rest);
      var m :| IsLeast(m, rest);
      var least := if m <= x then m else x;
      forall y | y in s
        ensures least <= y
      {
        assert y == x || y in rest;
      }
      assert IsLeast(least, s);
    }
  }
}
