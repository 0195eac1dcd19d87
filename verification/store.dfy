/** The task store: each method is one transaction on the table. */
module Store {
  import opened Options
  import opened Table

  /** The table as the workers see it, with the clock that `utcnow()` reads. */
  class TaskStore {
    var rows: Rows
    var now: Time

    constructor ()
      ensures rows == map[] && now == 0
    {
      rows := map[];
      now := 0;
    }

    method Elapse(d: nat)
      modifies this
      ensures now == old(now) + d && rows == old(rows)
    {
      now := now + d;
    }

    method Upsert(n: nat, p: Patch) returns (entry: Row)
      modifies this`rows
      ensures rows == Table.Upsert(old(rows), n, p, now)
      ensures n in rows && entry == rows[n] && rows - {n} == old(rows) - {n}
      ensures entry.updatedAt == now
      ensures entry.title == if p.title.Some? then p.title.value else if n in old(rows) then old(rows)[n].title else ""
      ensures entry.issueUrl ==
              if p.issueUrl.Some? then p.issueUrl.value else if n in old(rows) then old(rows)[n].issueUrl else ""
      ensures entry.status ==
              if p.status.Some? then p.status.value else if n in old(rows) then old(rows)[n].status else Running
      ensures entry.sessionId ==
              if p.sessionId.Some? then p.sessionId else if n in old(rows) then old(rows)[n].sessionId else None
      ensures entry.sessionUrl ==
              if p.sessionUrl.Some? then p.sessionUrl else if n in old(rows) then old(rows)[n].sessionUrl else None
      ensures entry.prUrl == if p.prUrl.Some? then p.prUrl else if n in old(rows) then old(rows)[n].prUrl else None
      ensures (entry.pollToken, entry.leaseUntil, entry.createdAt) ==
              if n in old(rows) then (old(rows)[n].pollToken, old(rows)[n].leaseUntil, old(rows)[n].createdAt)
              else (None, None, now)
    {
      var row := NewRow(OrElse(p.title, ""), OrElse(p.issueUrl, ""), None, now);
      if n in rows {
        row := rows[n];
      }
      if p.title.Some? { row := row.(title := p.title.value); }
      if p.issueUrl.Some? { row := row.(issueUrl := p.issueUrl.value); }
      if p.sessionId.Some? { row := row.(sessionId := p.sessionId); }
      if p.sessionUrl.Some? { row := row.(sessionUrl := p.sessionUrl); }
      if p.status.Some? { row := row.(status := p.status.value); }
      if p.prUrl.Some? { row := row.(prUrl := p.prUrl); }
      row := row.(updatedAt := now);
      rows := rows[n := row];
      entry := row;
    }

    method TryInsertClaim(n: nat, title: string, issueUrl: string, leaseUntil: Time) returns (inserted: bool)
      modifies this`rows
      ensures inserted <==> n !in old(rows)
      ensures rows ==
              if inserted
              then old(rows)[n := Row(title, issueUrl, None, None, Running, None, None, Some(leaseUntil), now, now)]
              else old(rows)
    {
      inserted := n !in rows;
      if inserted {
        rows := rows[n := NewRow(title, issueUrl, Some(leaseUntil), now)];
      }
    }

    method ClaimRemediation(n: nat, title: string, issueUrl: string, lease: int) returns (granted: bool)
      modifies this`rows
      ensures granted <==> CanClaim(old(rows), n, now)
      ensures granted <==>
              || n !in old(rows) || old(rows)[n].status == Completed || old(rows)[n].status == Failed
              || (old(rows)[n].sessionId == None
                  && (old(rows)[n].leaseUntil == None || old(rows)[n].leaseUntil.value < now))
      ensures rows ==
              if granted
              then old(rows)[n := Row(title, issueUrl, None, None, Running, None, None, Some(now + lease * 1_000_000),
                                      if n in old(rows) then old(rows)[n].createdAt else now, now)]
              else old(rows)
      ensures rows == Table.ClaimRemediation(old(rows), n, title, issueUrl, lease, now)
    {
      var leaseUntil := now + lease * SECOND;
      granted := TryInsertClaim(n, title, issueUrl, leaseUntil);
      if granted {
        return;
      }
      var row := rows[n];
      if row.status != Running || (row.sessionId.None? && (row.leaseUntil.None? || row.leaseUntil.value < now)) {
        rows := rows[n := row.(title := title, issueUrl := issueUrl, status := Running, sessionId := None,
                               sessionUrl := None, prUrl := None, pollToken := None,
                               leaseUntil := Some(leaseUntil), updatedAt := now)];
        granted := true;
      }
    }

    method ClaimPoll(n: nat, sid: string, lease: int, onlyIfLost: bool, token: Token) returns (granted: Option<Token>)
      modifies this`rows
      ensures granted == if CanClaimPoll(old(rows), n, sid, onlyIfLost, now) then Some(token) else None
      ensures granted.Some? <==>
              && n in old(rows) && old(rows)[n].sessionId == Some(sid) && old(rows)[n].status == Running
              && (onlyIfLost ==> old(rows)[n].leaseUntil == None || old(rows)[n].leaseUntil.value < now)
      ensures rows ==
              if granted.Some?
              then old(rows)[n := old(rows)[n].(pollToken := Some(token), leaseUntil := Some(now + lease * 1_000_000))]
              else old(rows)
      ensures rows == Table.ClaimPoll(old(rows), n, sid, token, lease, onlyIfLost, now)
    {
      granted := None;
      if n in rows && rows[n].sessionId == Some(sid) && rows[n].status == Running {
        if !onlyIfLost || LeaseLost(rows[n], now) {
          rows := rows[n := rows[n].(pollToken := Some(token), leaseUntil := Some(now + lease * SECOND))];
          granted := Some(token);
        }
      }
    }

    method RenewPoll(n: nat, token: Token, lease: int) returns (renewed: bool)
      modifies this`rows
      ensures renewed <==> HoldsToken(old(rows), n, token)
      ensures renewed <==> n in old(rows) && old(rows)[n].pollToken == Some(token)
      ensures rows ==
              if renewed then old(rows)[n := old(rows)[n].(leaseUntil := Some(now + lease * 1_000_000))] else old(rows)
      ensures rows == Table.RenewPoll(old(rows), n, token, lease, now)
    {
      renewed := n in rows && rows[n].pollToken == Some(token);
      if renewed {
        rows := rows[n := rows[n].(leaseUntil := Some(now + lease * SECOND))];
      }
    }

    method ReleasePoll(n: nat, token: Option<Token>)
      modifies this`rows
      ensures rows == Table.ReleasePoll(old(rows), n, token)
      ensures rows ==
              if n in old(rows) && (token == None || old(rows)[n].pollToken == token)
              then old(rows)[n := old(rows)[n].(pollToken := None, leaseUntil := None)] else old(rows)
    {
      if n in rows && (token.None? || rows[n].pollToken == token) {
        rows := rows[n := rows[n].(pollToken := None, leaseUntil := None)];
      }
    }

    method DetachClosedPr(n: nat, pr: string) returns (stamp: Option<Time>)
      modifies this`rows
      ensures stamp == if CanDetach(old(rows), n, pr) then Some(now) else None
      ensures stamp.Some? <==>
              && n in old(rows) && old(rows)[n].prUrl == Some(pr)
              && (old(rows)[n].status == Completed || old(rows)[n].status == Failed)
      ensures rows ==
              if stamp.Some? then old(rows)[n := old(rows)[n].(status := Failed, prUrl := Some(""), updatedAt := now)]
              else old(rows)
      ensures rows == Table.DetachClosedPr(old(rows), n, pr, now)
    {
      stamp := None;
      if n in rows && rows[n].prUrl == Some(pr) && rows[n].status in {Completed, Failed} {
        rows := rows[n := rows[n].(status := Failed, prUrl := Some(""), updatedAt := now)];
        stamp := Some(now);
      }
    }

    method ReattachClosedPr(n: nat, pr: string, token: Time) returns (restored: bool)
      modifies this`rows
      ensures restored <==> CanReattach(old(rows), n, token)
      ensures restored <==>
              && n in old(rows) && old(rows)[n].status == Failed && old(rows)[n].prUrl == Some("")
              && old(rows)[n].updatedAt == token
      ensures rows ==
              if restored then old(rows)[n := old(rows)[n].(prUrl := Some(pr), updatedAt := now)] else old(rows)
      ensures rows == Table.ReattachClosedPr(old(rows), n, pr, token, now)
    {
      restored := n in rows && rows[n].status == Failed && rows[n].prUrl == Some("") && rows[n].updatedAt == token;
      if restored {
        rows := rows[n := rows[n].(prUrl := Some(pr), updatedAt := now)];
      }
    }
  }
}
