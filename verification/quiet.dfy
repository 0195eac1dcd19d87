/** What a worker brings about when nobody else takes a step meanwhile. */
module Quiet {
  import opened Options
  import opened Table
  import opened Protocol
  import opened WorkLog

  /** Every message and every activity but `me` is still there. */
  ghost predicate Kept(before: map<nat, Act>, after: map<nat, Act>, me: nat) {
    forall id :: id in before && id != me ==> Is(after, id, Some(before[id]))
  }

  ghost predicate InQueue(acts: map<nat, Act>, me: nat, message: Act) {
    exists id :: id in acts && id != me && acts[id] == message
  }

  /** At most the row of `n` and activity `me` have changed, messages were added, and no time has passed. */
  ghost predicate OnlyIn(s: State, s': State, me: nat, n: nat) {
    s'.db.rows - {n} == s.db.rows - {n} && s'.db.now == s.db.now && Kept(s.acts, s'.acts, me)
  }

  lemma StaysQueued(before: map<nat, Act>, after: map<nat, Act>, me: nat, message: Act)
    requires Kept(before, after, me) && InQueue(before, me, message)
    ensures InQueue(after, me, message)
  {
    var id :| id in before && id != me && before[id] == message;
    assert Is(after, id, Some(before[id]));
  }

  /** The broker takes every message. */
  predicate AllAccepted(outcomes: seq<Publication>) {
    forall p :: p in outcomes ==> p == Accepted
  }

  lemma Takes(outcomes: seq<Publication>, i: nat)
    requires AllAccepted(outcomes)
    ensures Answer(outcomes, i) == Accepted
  {
    assert i < |outcomes| ==> outcomes[i] in outcomes;
  }

  // --- a scan ------------------------------------------------------------------------------

  /** The chain was lost and can be taken up again. */
  predicate Waits(s: State, req: ArmReq) {
    && req.n in s.db.rows && s.db.rows[req.n].status == Running && s.db.rows[req.n].sessionId == Some(req.sid)
    && (s.db.rows[req.n].leaseUntil == None || s.db.rows[req.n].leaseUntil.value < s.db.now)
  }

  /** The row runs session `sid`, and the chain of `token` holds it for some time from now on. */
  predicate Leased(s: State, n: nat, sid: string, token: Token, time: int) {
    && n in s.db.rows && s.db.rows[n].status == Running && s.db.rows[n].sessionId == Some(sid)
    && s.db.rows[n].leaseUntil == Some(s.db.now + time) && s.db.rows[n].pollToken == Some(token)
  }

  /** The chain of `token` holds the row until then. */
  predicate HeldUntil(rows: Rows, n: nat, token: Token, until: Time) {
    n in rows && rows[n].pollToken == Some(token) && rows[n].leaseUntil == Some(until)
  }

  /** A chain holds the row for some time from now on, and its poll is in the queue. */
  ghost predicate OnItsWay(s: State, me: nat, n: nat, sid: string, time: int) {
    exists token :: Leased(s, n, sid, token, time) && InQueue(s.acts, me, PollMsg(n, sid, token))
  }

  /** The row failed, and no lease or token keeps it from being tried again. */
  predicate GivenUp(s: State, n: nat) {
    && n in s.db.rows && s.db.rows[n].status == Failed
    && s.db.rows[n].leaseUntil == None && s.db.rows[n].pollToken == None
  }

  lemma ChainTaken(s: State, leased: State, s': State, me: nat, n: nat, sid: string, token: Token, time: int)
    requires OnlyIn(s, leased, me, n) && Leased(leased, n, sid, token, time)
    requires s'.db.rows == leased.db.rows && s'.db.now == leased.db.now && Kept(leased.acts, s'.acts, me)
    requires InQueue(s'.acts, me, PollMsg(n, sid, token))
    ensures OnlyIn(s, s', me, n) && OnItsWay(s', me, n, sid, time)
  {
    assert Leased(s', n, sid, token, time);
  }

  /** The first `i` of the lost chains are on their way, and the others still wait. */
  ghost predicate Rearming(s: State, me: nat, lost: seq<ArmReq>, i: nat) {
    && (forall k :: 0 <= k < |lost| && k < i ==> OnItsWay(s, me, lost[k].n, lost[k].sid, 120_000_000))
    && (forall k :: i <= k < |lost| ==> Waits(s, lost[k]))
  }

  ghost predicate InOrder(lost: seq<ArmReq>) {
    forall i, j :: 0 <= i < j < |lost| ==> lost[i].n < lost[j].n
  }

  lemma RearmedOne(s: State, s': State, me: nat, lost: seq<ArmReq>, i: nat)
    requires i < |lost| && InOrder(lost) && Rearming(s, me, lost, i)
    requires OnlyIn(s, s', me, lost[i].n) && OnItsWay(s', me, lost[i].n, lost[i].sid, 120_000_000)
    ensures Rearming(s', me, lost, i + 1)
  {
    forall k | 0 <= k < |lost| && k != i
      ensures lost[k].n in s.db.rows ==> lost[k].n in s'.db.rows && s'.db.rows[lost[k].n] == s.db.rows[lost[k].n]
    {
      assert lost[k].n != lost[i].n by { if k < i { } else { assert i < k; } }
      var n := lost[k].n;
      assert n in s.db.rows ==> n in s.db.rows - {lost[i].n} && n in s'.db.rows - {lost[i].n};
    }
    forall k | 0 <= k < i
      ensures OnItsWay(s', me, lost[k].n, lost[k].sid, 120_000_000)
    {
      var n, sid := lost[k].n, lost[k].sid;
      assert OnItsWay(s, me, n, sid, 120_000_000);
      var token :| Leased(s, n, sid, token, 120_000_000) && InQueue(s.acts, me, PollMsg(n, sid, token));
      StaysQueued(s.acts, s'.acts, me, PollMsg(n, sid, token));
      assert Leased(s', n, sid, token, 120_000_000);
    }
    forall k | i + 1 <= k < |lost|
      ensures Waits(s', lost[k])
    {
      assert Waits(s, lost[k]);
    }
  }

  /** Since `start`, the first `i` issues of a scan were put into the queue, and the table has not changed. */
  ghost predicate Fanning(start: State, s: State, me: nat, issues: seq<Issue>, force: bool, i: nat) {
    && s.db.rows == start.db.rows && s.db.now == start.db.now
    && forall k :: 0 <= k < |issues| && k < i ==> InQueue(s.acts, me, RemediateMsg(issues[k], force))
  }

  lemma StaySent(start: State, s: State, s': State, me: nat, issues: seq<Issue>, force: bool, i: nat)
    requires Fanning(start, s, me, issues, force, i)
    requires Kept(s.acts, s'.acts, me) && s'.db.rows == s.db.rows && s'.db.now == s.db.now
    ensures Fanning(start, s', me, issues, force, i)
  {
    forall k | 0 <= k < |issues| && k < i
      ensures InQueue(s'.acts, me, RemediateMsg(issues[k], force))
    {
      StaysQueued(s.acts, s'.acts, me, RemediateMsg(issues[k], force));
    }
  }

  lemma EachSent(start: State, s: State, acts: map<nat, Act>, me: nat, issues: seq<Issue>, force: bool)
    requires Fanning(start, s, me, issues, force, |issues|) && Kept(s.acts, acts, me)
    ensures forall k :: 0 <= k < |issues| ==> InQueue(acts, me, RemediateMsg(issues[k], force))
  {
    forall k | 0 <= k < |issues|
      ensures InQueue(acts, me, RemediateMsg(issues[k], force))
    {
      StaysQueued(s.acts, acts, me, RemediateMsg(issues[k], force));
    }
  }

  // --- a closed pull request -----------------------------------------------------------------

  /** The row of `n` points at the pull request, and does not run. */
  predicate PointsAt(rows: Rows, pr: string, n: nat) {
    n in rows && rows[n].prUrl == Some(pr) && rows[n].status != Running
  }

  /** The association of a linked issue: gone from those handed back, and there on all others. */
  ghost predicate Associated(rows: Rows, pr: string, linked: seq<nat>, touched: seq<nat>) {
    forall n :: n in linked ==>
      n in rows && rows[n].status != Running && rows[n].prUrl == Some(if n in touched then "" else pr)
  }

  lemma AssociatedOne(s: State, s': State, me: nat, pr: string, linked: seq<nat>, touched: seq<nat>, n: nat,
                      handed: bool)
    requires Associated(s.db.rows, pr, linked, touched) && OnlyIn(s, s', me, n) && n !in touched
    requires n in s'.db.rows && s'.db.rows[n].status != Running
    requires s'.db.rows[n].prUrl == Some(if handed then "" else pr)
    ensures Associated(s'.db.rows, pr, linked, if handed then touched + [n] else touched)
  {
    forall m | m in linked && m != n
      ensures m in s'.db.rows && s'.db.rows[m] == s.db.rows[m]
    {
      assert m in s.db.rows - {n} && m in s'.db.rows - {n};
    }
  }

  /** A forced retry is in the queue for each of the issues handed back, as GitHub described it. */
  ghost predicate AllRetried(acts: map<nat, Act>, me: nat, hears: map<nat, IssueData>, touched: seq<nat>) {
    forall n :: n in touched && n in hears ==>
      InQueue(acts, me, RemediateMsg(Issue(n, hears[n].title, hears[n].url), true))
  }

  lemma RetriedOne(before: map<nat, Act>, after: map<nat, Act>, me: nat, hears: map<nat, IssueData>,
                   touched: seq<nat>, n: nat, handed: bool)
    requires AllRetried(before, me, hears, touched) && Kept(before, after, me)
    requires handed && n in hears ==> InQueue(after, me, RemediateMsg(Issue(n, hears[n].title, hears[n].url), true))
    ensures AllRetried(after, me, hears, if handed then touched + [n] else touched)
  {
    forall m | m in touched && m in hears
      ensures InQueue(after, me, RemediateMsg(Issue(m, hears[m].title, hears[m].url), true))
    {
      StaysQueued(before, after, me, RemediateMsg(Issue(m, hears[m].title, hears[m].url), true));
    }
  }

  ghost predicate Ascends(ns: seq<nat>) {
    forall i, j :: 0 <= i < j < |ns| ==> ns[i] < ns[j]
  }

  /** So far each linked issue has either its association or a retry in the queue, and none was passed over. */
  ghost predicate HandingOver(s: State, me: nat, pr: string, linked: seq<nat>, hears: map<nat, IssueData>,
                              touched: seq<nat>, detached: seq<bool>)
  {
    && Ascends(linked) && |detached| <= |linked|
    && Associated(s.db.rows, pr, linked, touched) && AllRetried(s.acts, me, hears, touched)
    && AllDetached(linked, hears, detached)
  }

  lemma NextPointsAt(s: State, me: nat, pr: string, linked: seq<nat>, hears: map<nat, IssueData>,
                     touched: seq<nat>, detached: seq<bool>, outcomes: seq<Publication>)
    requires HandingOver(s, me, pr, linked, hears, touched, detached) && |detached| < |linked|
    requires touched == Retried(linked, hears, detached, outcomes)
    ensures linked[|detached|] !in touched && PointsAt(s.db.rows, pr, linked[|detached|])
  {
    ReportedWereOpen(linked, hears, detached, outcomes);
  }

  lemma HandedOne(s: State, s': State, me: nat, pr: string, linked: seq<nat>, hears: map<nat, IssueData>,
                  touched: seq<nat>, detached: seq<bool>, flipped: bool, handed: bool)
    requires HandingOver(s, me, pr, linked, hears, touched, detached) && |detached| < |linked|
    requires var n := linked[|detached|];
             && n !in touched && OnlyIn(s, s', me, n)
             && n in s'.db.rows && s'.db.rows[n].status != Running
             && s'.db.rows[n].prUrl == Some(if handed then "" else pr)
             && (Heard(hears, n).Some? ==> flipped)
             && (handed && n in hears ==>
                   InQueue(s'.acts, me, RemediateMsg(Issue(n, hears[n].title, hears[n].url), true)))
    ensures HandingOver(s', me, pr, linked, hears, if handed then touched + [linked[|detached|]] else touched,
                        detached + [flipped])
  {
    var n := linked[|detached|];
    AssociatedOne(s, s', me, pr, linked, touched, n, handed);
    RetriedOne(s.acts, s'.acts, me, hears, touched, n, handed);
    AllDetachedMore(linked, hears, detached, flipped);
  }

  // --- an opened pull request ----------------------------------------------------------------

  /** The row of a referenced issue was completed by the pull request, if there is one. */
  ghost predicate CompletedBy(before: Rows, rows: Rows, newPr: Option<string>, n: nat) {
    && (n in rows <==> n in before)
    && (n in rows ==>
          rows[n].status == Completed && rows[n].prUrl == if newPr.Some? then newPr else before[n].prUrl)
  }

  /** The first of the referenced issues were completed, those with a row, and no other row has changed. */
  ghost predicate Completing(before: Rows, rows: Rows, newPr: Option<string>, refs: seq<nat>, tracked: seq<bool>) {
    && Ascends(refs) && |tracked| <= |refs|
    && (forall k :: 0 <= k < |tracked| ==> CompletedBy(before, rows, newPr, refs[k]))
    && (forall k :: 0 <= k < |tracked| && tracked[k] ==> refs[k] in before.Keys)
    && (forall n: nat :: n !in refs[..|tracked|] ==> SameRow(before, rows, n))
  }

  ghost predicate SameRow(before: Rows, rows: Rows, n: nat) {
    (n in rows <==> n in before) && (n in rows ==> rows[n] == before[n])
  }

  /** One row was completed if it is there, and nothing else has happened. */
  ghost predicate CompletesRow(rows: Rows, rows': Rows, newPr: Option<string>, n: nat, tracked: bool) {
    && rows' - {n} == rows - {n} && (tracked <==> n in rows)
    && (if tracked then n in rows' && rows'[n].status == Completed
                        && rows'[n].prUrl == if newPr.Some? then newPr else rows[n].prUrl
        else rows' == rows)
  }

  lemma CompletedOne(before: Rows, rows: Rows, rows': Rows, newPr: Option<string>, refs: seq<nat>,
                     tracked: seq<bool>, last: bool)
    requires Completing(before, rows, newPr, refs, tracked) && |tracked| < |refs|
    requires CompletesRow(rows, rows', newPr, refs[|tracked|], last)
    ensures Completing(before, rows', newPr, refs, tracked + [last])
  {
    var i, n := |tracked|, refs[|tracked|];
    assert refs[..i + 1] == refs[..i] + [n];
    assert n !in refs[..i];
    assert SameRow(before, rows, n);
    forall m: nat | m != n
      ensures SameRow(rows, rows', m)
    {
      assert m in rows' - {n} <==> m in rows - {n};
    }
    forall k | 0 <= k < i
      ensures CompletedBy(before, rows', newPr, refs[k])
    {
      assert CompletedBy(before, rows, newPr, refs[k]) && SameRow(rows, rows', refs[k]);
    }
    forall m: nat | m !in refs[..i + 1]
      ensures SameRow(before, rows', m)
    {
      assert SameRow(before, rows, m) && SameRow(rows, rows', m);
    }
  }

  lemma CompletedInFull(before: Rows, rows: Rows, newPr: Option<string>, numbers: set<nat>, tracked: seq<bool>)
    requires Completing(before, rows, newPr, Ascending(numbers), tracked) && |tracked| == |Ascending(numbers)|
    ensures forall n: nat :: n in Picked(Ascending(numbers), tracked) ==>
              && n in before && n in rows && rows[n].status == Completed
              && rows[n].prUrl == if newPr.Some? then newPr else before[n].prUrl
    ensures forall n: nat :: n in before && n !in numbers ==> n in rows && rows[n] == before[n]
  {
    var refs := Ascending(numbers);
    assert refs[..|tracked|] == refs;
    forall n: nat | n in Picked(refs, tracked)
      ensures n in before && CompletedBy(before, rows, newPr, n)
    {
      PickedAmong(refs, tracked, n);
    }
    forall n: nat | n in before && n !in numbers
      ensures SameRow(before, rows, n)
    {
    }
  }
}
