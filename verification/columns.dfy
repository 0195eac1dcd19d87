/** What each step of a worker or handler writes, column by column, and what it sends. */
module Columns {
  import opened Options
  import opened Table
  import opened StoreLog
  import opened Protocol

  /** No row but that of `n` changes, and no time passes. */
  ghost predicate OnlyRow(s: State, s': State, n: nat) {
    s'.db.rows - {n} == s.db.rows - {n} && s'.db.now == s.db.now
  }

  /** An open pull request was found: the issue is completed by it, and its title and URL are taken over. */
  lemma MarkCompletedWrites(s: State, id: nat, issue: Issue, pr: string)
    requires Guard(s, MarkCompleted(id)) && s.acts[id] == PrKnown(issue, pr)
    ensures var s', n := Then(s, MarkCompleted(id)), issue.number;
            && OnlyRow(s, s', n) && n in s'.db.rows
            && s'.db.rows[n] ==
               if n in s.db.rows then
                 s.db.rows[n].(title := issue.title, issueUrl := issue.url, status := Completed, prUrl := Some(pr),
                               updatedAt := s.db.now)
               else
                 Row(issue.title, issue.url, None, None, Completed, Some(pr), None, None, s.db.now, s.db.now)
  {
  }

  /** A granted claim starts the row over, running, session-less and leased for ten minutes. */
  lemma ClaimWrites(s: State, id: nat, issue: Issue)
    requires Guard(s, Claim(id)) && s.acts[id] == Claiming(issue)
    ensures var s', n := Then(s, Claim(id)), issue.number;
            var free := n in s.db.rows ==>
                          || s.db.rows[n].status == Completed || s.db.rows[n].status == Failed
                          || (s.db.rows[n].sessionId.None?
                              && (s.db.rows[n].leaseUntil.Some? ==> s.db.rows[n].leaseUntil.value < s.db.now));
            var until := s.db.now + 600_000_000;
            && OnlyRow(s, s', n)
            && (if !free then s'.db == s.db && id !in s'.acts
                else
                  && n in s'.db.rows && Is(s'.acts, id, Some(Creating(n, until)))
                  && s'.db.rows[n] == Row(issue.title, issue.url, None, None, Running, None, None, Some(until),
                                          if n in s.db.rows then s.db.rows[n].createdAt else s.db.now, s.db.now))
  {
  }

  /** The created session is recorded, and the row runs. */
  lemma SaveSessionWrites(s: State, id: nat, n: nat, lease: Time, sid: string, url: Option<string>)
    requires Guard(s, SaveSession(id, true)) && s.acts[id] == Created(n, lease, sid, url)
    ensures var s' := Then(s, SaveSession(id, true));
            && OnlyRow(s, s', n) && n in s'.db.rows
            && s'.db.rows[n] ==
               if n in s.db.rows then
                 s.db.rows[n].(sessionId := Some(sid), sessionUrl := if url.Some? then url else s.db.rows[n].sessionUrl,
                               status := Running, updatedAt := s.db.now)
               else
                 Row("", "", Some(sid), url, Running, None, None, None, s.db.now, s.db.now)
  {
  }

  /** A failed creation. */
  lemma SaveFailedWrites(s: State, id: nat, n: nat, lease: Time)
    requires Guard(s, SaveFailed(id)) && s.acts[id] == CreateFailed(n, lease)
    ensures var s' := Then(s, SaveFailed(id));
            && OnlyRow(s, s', n) && n in s'.db.rows
            && s'.db.rows[n] ==
               if n in s.db.rows then s.db.rows[n].(status := Failed, updatedAt := s.db.now)
               else Row("", "", None, None, Failed, None, None, None, s.db.now, s.db.now)
  {
  }

  /** And the release that settles it, whoever holds the lease. */
  lemma DropLeaseWrites(s: State, id: nat, n: nat)
    requires Guard(s, DropLease(id)) && s.acts[id] == Settling(n)
    ensures var s' := Then(s, DropLease(id));
            && OnlyRow(s, s', n) && (n in s'.db.rows <==> n in s.db.rows)
            && (n in s.db.rows ==> s'.db.rows[n] == s.db.rows[n].(pollToken := None, leaseUntil := None))
  {
  }

  /** A chain is taken up for the running row of its session: for three minutes, or when it was lost, and
      then for two. */
  lemma ArmNextWrites(s: State, id: nat, req: ArmReq, rest: seq<ArmReq>, token: Token)
    requires Guard(s, ArmNext(id, token)) && s.acts[id] == Arming([req] + rest)
    ensures var s', n := Then(s, ArmNext(id, token)), req.n;
            var free := && n in s.db.rows && s.db.rows[n].status == Running && s.db.rows[n].sessionId == Some(req.sid)
                        && (req.onlyIfLost && s.db.rows[n].leaseUntil.Some? ==>
                              s.db.rows[n].leaseUntil.value < s.db.now);
            && OnlyRow(s, s', n)
            && (if !free then s'.db.rows == s.db.rows && Is(s'.acts, id, ArmRest(rest))
                else
                  && n in s'.db.rows && Is(s'.acts, id, Some(Publishing(n, req.sid, token, rest)))
                  && s'.db.rows[n] == s.db.rows[n].(
                       pollToken := Some(token),
                       leaseUntil := Some(s.db.now + if req.onlyIfLost then 120_000_000 else 180_000_000)))
  {
    assert ([req] + rest)[0] == req && ([req] + rest)[1..] == rest;
  }

  /** A refused publish gives the lease back, if the chain still owns it. */
  lemma GiveBackWrites(s: State, id: nat, n: nat, token: Token, todo: seq<ArmReq>)
    requires Guard(s, GiveBack(id)) && s.acts[id] == GivingBack(n, token, todo)
    ensures var s' := Then(s, GiveBack(id));
            && OnlyRow(s, s', n) && (n in s'.db.rows <==> n in s.db.rows)
            && (n in s.db.rows ==>
                  s'.db.rows[n] == if s.db.rows[n].pollToken == Some(token)
                                   then s.db.rows[n].(pollToken := None, leaseUntil := None) else s.db.rows[n])
  {
  }

  /** A renewal, if the chain still owns the lease. */
  lemma RenewLeaseWrites(s: State, id: nat, n: nat, sid: string, token: Token)
    requires Guard(s, RenewLease(id)) && s.acts[id] == Renewing(n, sid, token)
    ensures var s' := Then(s, RenewLease(id));
            && OnlyRow(s, s', n) && (n in s'.db.rows <==> n in s.db.rows)
            && (n in s.db.rows ==>
                  s'.db.rows[n] == if s.db.rows[n].pollToken == Some(token)
                                   then s.db.rows[n].(leaseUntil := Some(s.db.now + 180_000_000)) else s.db.rows[n])
  {
  }

  /** What a poll heard is saved: a running session that has a pull request is completed, any other status is
      Devin's. The pull request is Devin's if it names one, else what GitHub finds, else the row's; an empty
      one from Devin counts only if GitHub could not be asked. */
  lemma SaveHopWrites(s: State, id: nat, n: nat, sid: string, token: Token, hop: HopReply, later: State)
    requires Guard(s, FetchSession(id, Some(hop))) && s.acts[id] == HopOwned(n, sid, token)
    requires id in later.acts && Is(Then(s, FetchSession(id, Some(hop))).acts, id, Some(later.acts[id]))
    requires Guard(later, SaveHop(id))
    ensures var s' := Then(later, SaveHop(id));
            var known := || (hop.devinPr.Some? && hop.devinPr.value != "")
                         || (hop.lookup.Some? && hop.lookup.value.Some? && hop.lookup.value.value != "");
            var status := if hop.status == Running && known then Completed else hop.status;
            && OnlyRow(later, s', n) && n in s'.db.rows
            && s'.db.rows[n].status == status && s'.db.rows[n].updatedAt == later.db.now
            && s'.db.rows[n].prUrl ==
               (if hop.devinPr.Some? && hop.devinPr.value != "" then hop.devinPr
                else if hop.lookup.Some? && hop.lookup.value.Some? then hop.lookup.value
                else if hop.lookup.None? && hop.devinPr.Some? then hop.devinPr
                else if n in later.db.rows then later.db.rows[n].prUrl else None)
            && (n in later.db.rows ==>
                  s'.db.rows[n].(prUrl := later.db.rows[n].prUrl)
                  == later.db.rows[n].(status := status, updatedAt := later.db.now))
            && Is(s'.acts, id, Some(if status == Running then Renewing(n, sid, token) else GivingBack(n, token, [])))
  {
  }

  /** A closed pull request is taken off a row that is not running. */
  lemma DetachWrites(s: State, id: nat, issue: Issue, pr: string, linked: seq<nat>)
    requires Guard(s, Detach(id)) && s.acts[id] == Inspected(issue, pr, linked)
    ensures var s', n := Then(s, Detach(id)), issue.number;
            var points := n in s.db.rows && s.db.rows[n].prUrl == Some(pr) && s.db.rows[n].status != Running;
            && OnlyRow(s, s', n)
            && (if !points then s'.db == s.db && Is(s'.acts, id, CloseRest(pr, linked))
                else
                  && n in s'.db.rows && Is(s'.acts, id, Some(Detached(issue, pr, s.db.now, linked)))
                  && s'.db.rows[n] == s.db.rows[n].(status := Failed, prUrl := Some(""), updatedAt := s.db.now))
  {
  }

  /** And put back when the row is as the detach left it. */
  lemma ReattachWrites(s: State, id: nat, n: nat, pr: string, stamp: Time)
    requires Guard(s, Reattach(id)) && s.acts[id] == Reattaching(n, pr, stamp)
    ensures var s' := Then(s, Reattach(id));
            var asLeft := && n in s.db.rows && s.db.rows[n].status == Failed && s.db.rows[n].prUrl == Some("")
                           && s.db.rows[n].updatedAt == stamp;
            && OnlyRow(s, s', n) && (n in s'.db.rows <==> n in s.db.rows)
            && (n in s.db.rows ==>
                  s'.db.rows[n] == if asLeft then s.db.rows[n].(prUrl := Some(pr), updatedAt := s.db.now)
                                   else s.db.rows[n])
  {
  }

  /** An opened pull request completes a tracked issue. */
  lemma SaveOpenedWrites(s: State, id: nat, n: nat, newPr: Option<string>, refs: seq<nat>)
    requires Guard(s, SaveOpened(id)) && s.acts[id] == Tracked(n, newPr, refs)
    ensures var s' := Then(s, SaveOpened(id));
            && OnlyRow(s, s', n) && n in s'.db.rows
            && s'.db.rows[n] ==
               if n in s.db.rows then
                 s.db.rows[n].(status := Completed, prUrl := if newPr.Some? then newPr else s.db.rows[n].prUrl,
                               updatedAt := s.db.now)
               else Row("", "", None, None, Completed, newPr, None, None, s.db.now, s.db.now)
  {
  }

  /** An edited issue keeps everything but what was edited. */
  lemma SaveEditWrites(s: State, id: nat, n: nat, title: Option<string>, url: Option<string>)
    requires Guard(s, SaveEdit(id)) && s.acts[id] == Editing(n, title, url) && n in s.db.rows
    ensures var s' := Then(s, SaveEdit(id));
            && OnlyRow(s, s', n) && n in s'.db.rows
            && s'.db.rows[n] == s.db.rows[n].(title := if title.Some? then title.value else s.db.rows[n].title,
                                              issueUrl := if url.Some? then url.value else s.db.rows[n].issueUrl,
                                              updatedAt := s.db.now)
  {
  }

  /** A retry carries the issue as GitHub described it, and is forced. */
  lemma RetrySends(s: State, id: nat, msg: nat, outcome: Publication, issue: Issue, pr: string, stamp: Time,
                   linked: seq<nat>)
    requires Guard(s, PublishRetry(id, msg, outcome)) && s.acts[id] == Detached(issue, pr, stamp, linked)
    ensures var s' := Then(s, PublishRetry(id, msg, outcome));
            && s'.db == s.db
            && Is(s'.acts, msg, if outcome == Refused then None else Some(RemediateMsg(issue, true)))
  {
  }

  /** A scan sends its issues as they are, forced when the scan is. */
  lemma ScanSends(s: State, id: nat, msg: nat, outcome: Publication, issue: Issue, rest: seq<Issue>, force: bool)
    requires Guard(s, SendIssue(id, msg, outcome)) && s.acts[id] == Scanning([issue] + rest, force)
    ensures var s' := Then(s, SendIssue(id, msg, outcome));
            && s'.db == s.db
            && Is(s'.acts, msg, if outcome == Refused then None else Some(RemediateMsg(issue, force)))
  {
  }

  /** A poll is sent with the token of its chain. */
  lemma PollSends(s: State, id: nat, msg: nat, outcome: Publication, n: nat, sid: string, token: Token,
                  todo: seq<ArmReq>)
    requires Guard(s, Publish(id, msg, outcome)) && s.acts[id] == Publishing(n, sid, token, todo)
    ensures var s' := Then(s, Publish(id, msg, outcome));
            && s'.db == s.db && Is(s'.acts, msg, if outcome == Refused then None else Some(PollMsg(n, sid, token)))
  {
  }

  ghost predicate Requests(lost: seq<ArmReq>, n: nat) {
    exists k :: 0 <= k < |lost| && lost[k].n == n
  }

  /** What a scan re-arms: each running issue with a session whose lease is absent or past, in ascending
      order, with that session and only if it is still lost. */
  lemma ScanFinds(db: Db)
    ensures var lost := ScanRequests(db);
            && (forall i, j :: 0 <= i < j < |lost| ==> lost[i].n < lost[j].n)
            && (forall n: nat :: Requests(lost, n) <==>
                  && n in db.rows && db.rows[n].status == Running && db.rows[n].sessionId.Some?
                  && (db.rows[n].leaseUntil.Some? ==> db.rows[n].leaseUntil.value < db.now))
            && (forall k :: 0 <= k < |lost| ==>
                  && lost[k].n in db.rows && db.rows[lost[k].n].sessionId == Some(lost[k].sid) && lost[k].onlyIfLost)
  {
    var lost, ns := ScanRequests(db), Ascending(UnpolledRunning(db.rows, db.now));
    forall k | 0 <= k < |lost|
      ensures lost[k].n == ns[k] && lost[k].n in UnpolledRunning(db.rows, db.now)
    {
      assert ns[k] in ns;
    }
    forall n: nat
      ensures Requests(lost, n) <==> n in UnpolledRunning(db.rows, db.now)
    {
      if n in UnpolledRunning(db.rows, db.now) {
        assert n in ns;
        var k :| 0 <= k < |ns| && ns[k] == n;
        assert lost[k].n == n;
      }
    }
  }
}
