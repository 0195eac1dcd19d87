/** The worker and webhook code itself. Between any two of its store calls the rest of the system may
    take any steps; whatever it does is an execution of `Protocol`, so every law of the protocol holds of it. */
module Workers {
  import opened Options
  import opened Table
  import opened Store
  import opened StoreLog
  import opened Protocol
  import opened WorkLog
  import opened Columns
  import opened Quiet
  import opened PollChains
  import opened RetryCredit
  import opened References

  class World {
    const store: TaskStore
    const others: nat -> seq<Step>  // what the rest of the system tries to do at each opportunity
    var turn: nat
    var issued: set<Token>
    var acts: map<nat, Act>
    ghost var states: seq<State>
    ghost var steps: seq<Step>
    ghost var done: map<nat, seq<Step>>

    function Now(): State
      reads this, store
    {
      State(Db(store.now, store.rows, issued), acts)
    }

    /** The present state has been reached by an execution of the protocol, and `done` tells its steps apart. */
    ghost predicate Valid()
      reads this, store
    {
      && IsExecution(states, steps) && states[0] == EMPTY && states[|steps|] == Now()
      && Logged(done, steps)
    }

    /** What activity `me` has done so far. */
    ghost function Did(me: nat): seq<Step>
      reads this
    {
      Entry(done, me)
    }

    /** Nobody but the caller takes steps. */
    ghost predicate Alone() {
      forall t: nat :: others(t) == []
    }

    /** So every law of the protocol holds at every point of the code below. */
    lemma LawsHold(n: nat, pr: string)
      requires Valid() && pr != ""
      ensures Did(n) == OwnSteps(steps, n)
      ensures StoreLog.Valid(Now().db) && OneCarrier(Now())
      ensures Points(Now().db, n, pr) + |Holders(acts, n, pr)| + ForcedRetries(states, steps, n, pr, |steps|)
              <= Recordings(states, steps, n, pr, |steps|) + Doubtful(states, steps, n, pr, |steps|)
    {
      AlwaysValid(states, steps, |steps|);
      SingleOwnerChain(states, steps, |steps|);
      CreditConserved(states, steps, n, pr, |steps|);
    }

    constructor (others: nat -> seq<Step>)
      ensures Valid() && Now() == EMPTY && fresh(store)
    {
      this.others := others;
      store := new TaskStore();
      turn, issued, acts := 0, {}, map[];
      states, steps := [EMPTY], [];
      done := map[];
    }

    /** Completes step `e` taken in state `s`, after its store call. */
    method Move(s: State, e: Step)
      requires IsExecution(states, steps) && states[0] == EMPTY && states[|steps|] == s && Logged(done, steps)
      requires Guard(s, e)
      requires store.rows == Next(s.db, EventOf(s, e)).rows && store.now == Next(s.db, EventOf(s, e)).now
      modifies this
      ensures Valid()
      ensures !e.Wait? ==> Did(e.id) == old(Did(e.id)) + [Bare(e)] && Is(acts, e.id, Becomes(s, e))
      ensures !e.Wait? ==> Kept(s.acts, acts, e.id)
      ensures Sends(s, e).Some? ==> Is(acts, Sends(s, e).value.0, Some(Sends(s, e).value.1))
      ensures forall id :: id in s.acts && (e.Wait? || e.id != id) ==> Is(acts, id, Some(s.acts[id]))
      ensures forall id :: e.Wait? || e.id != id ==> Did(id) == old(Did(id))
    {
      ActsNow(s, e);
      issued := Next(s.db, EventOf(s, e)).issued;
      acts := ActsAfter(s, e);
      StepMore(states, steps, s, e);
      LogMore(done, steps, e);
      states, steps, done := states + [Now()], steps + [e], LogStep(done, e);
    }

    /** Takes step `e` together with its store call. */
    method Take(s: State, e: Step)
      requires Valid() && s == Now() && Guard(s, e)
      modifies this, store
      ensures Valid() && old(store.rows).Keys <= store.rows.Keys
      ensures forall id :: id in s.acts && (e.Wait? || e.id != id) ==> Is(acts, id, Some(s.acts[id]))
      ensures forall id :: e.Wait? || e.id != id ==> Did(id) == old(Did(id))
    {
      RowsStay(s.db, EventOf(s, e));
      var db := Next(s.db, EventOf(s, e));
      store.rows, store.now := db.rows, db.now;
      Move(s, e);
    }

    /** Someone other than `me` takes step `e`, if it can. */
    method Other(me: nat, e: Step)
      requires Valid()
      modifies this, store
      ensures Valid() && (me in old(acts) ==> Is(acts, me, Some(old(acts)[me])))
      ensures Did(me) == old(Did(me)) && old(store.rows).Keys <= store.rows.Keys
    {
      var s := Now();
      if Guard(s, e) && (e.Wait? || e.id != me) {
        Take(s, e);
      }
    }

    /** Everyone but `me` gets a turn. */
    method Interfere(me: nat)
      requires Valid()
      modifies this, store
      ensures Valid() && (me in old(acts) ==> Is(acts, me, Some(old(acts)[me])))
      ensures Did(me) == old(Did(me)) && old(store.rows).Keys <= store.rows.Keys
      ensures Alone() ==> store.rows == old(store.rows) && store.now == old(store.now) && acts == old(acts)
    {
      var plan := others(turn);
      turn := turn + 1;
      for i := 0 to |plan|
        invariant Valid() && (me in old(acts) ==> Is(acts, me, Some(old(acts)[me])))
        invariant Did(me) == old(Did(me)) && old(store.rows).Keys <= store.rows.Keys
        invariant i == 0 ==> store.rows == old(store.rows) && store.now == old(store.now) && acts == old(acts)
      {
        Other(me, plan[i]);
      }
    }

    /** No activity and no message has this id. */
    method FreshId() returns (id: nat)
      ensures id !in acts
    {
      id := 0;
      var rest := acts.Keys;
      while rest != {}
        invariant rest <= acts.Keys && forall x :: x in acts && x !in rest ==> x < id
        decreases |rest|
      {
        var x :| x in rest;
        rest := rest - {x};
        if x >= id {
          id := x + 1;
        }
      }
    }

    /** `secrets.token_hex`: a token never seen before. */
    method FreshToken() returns (token: Token)
      ensures token !in issued
    {
      token := "";
      var rest := issued;
      while rest != {}
        invariant rest <= issued && forall x :: x in issued && x !in rest ==> |x| < |token|
        decreases |rest|
      {
        var x :| x in rest;
        rest := rest - {x};
        if |x| >= |token| {
          token := seq(|x| + 1, _ => 'f');
        }
      }
    }

    // --- polling -----------------------------------------------------------------------------

    method Schedule(me: nat, n: nat, sid: string, token: Token, ghost todo: seq<ArmReq>, outcome: Publication)
      requires Valid() && Is(acts, me, Some(Publishing(n, sid, token, todo)))
      modifies this
      ensures Valid() && Did(me) == old(Did(me)) + [Publish(me, 0, outcome)]
      ensures Is(acts, me, if outcome.Accepted? then ArmRest(todo) else Some(GivingBack(n, token, todo)))
      ensures Kept(old(acts), acts, me) && (outcome != Refused ==> InQueue(acts, me, PollMsg(n, sid, token)))
    {
      var msg := FreshId();
      Move(Now(), Publish(me, msg, outcome));
    }

    method ReleaseOwn(me: nat, n: nat, token: Token, ghost todo: seq<ArmReq>)
      requires Valid() && Is(acts, me, Some(GivingBack(n, token, todo)))
      modifies this, store
      ensures Valid() && Did(me) == old(Did(me)) + [GiveBack(me)] && Is(acts, me, ArmRest(todo))
      ensures n in old(store.rows) ==>
                && n in store.rows
                && store.rows[n].(pollToken := None, leaseUntil := None)
                   == old(store.rows)[n].(pollToken := None, leaseUntil := None)
    {
      var s := Now();
      store.ReleasePoll(n, Some(token));
      Move(s, GiveBack(me));
    }

    /** Schedules the next hop; if the broker refuses, gives the lease back. */
    method PublishPoll(me: nat, n: nat, sid: string, token: Token, ghost todo: seq<ArmReq>, outcome: Publication)
      returns (ok: bool)
      requires Valid() && Is(acts, me, Some(Publishing(n, sid, token, todo)))
      modifies this, store
      ensures Valid() && Is(acts, me, ArmRest(todo)) && (ok <==> outcome.Accepted?)
      ensures Did(me) == Published(old(Did(me)), me, outcome)
      ensures ok ==> && Kept(old(acts), acts, me) && InQueue(acts, me, PollMsg(n, sid, token))
                     && store.rows == old(store.rows) && store.now == old(store.now)
    {
      Schedule(me, n, sid, token, todo, outcome);
      ok := outcome.Accepted?;
      if !ok {
        Interfere(me);
        ReleaseOwn(me, n, token, todo);
      }
    }

    method ClaimRow(ghost me: nat, n: nat, sid: string, onlyIfLost: bool, drawn: Token, ghost time: int)
      returns (token: Option<Token>)
      requires time == if onlyIfLost then 120_000_000 else 180_000_000
      modifies store
      ensures store.now == old(store.now)
      ensures store.rows == Table.ClaimPoll(old(store.rows), n, sid, drawn, LeaseSeconds(ArmDelay(onlyIfLost)),
                                            onlyIfLost, store.now)
      ensures token == if CanClaimPoll(old(store.rows), n, sid, onlyIfLost, old(store.now)) then Some(drawn) else None
      ensures OnlyIn(old(Now()), Now(), me, n)
      ensures token.Some? ==> Leased(Now(), n, sid, token.value, time)
    {
      token := store.ClaimPoll(n, sid, LeaseSeconds(ArmDelay(onlyIfLost)), onlyIfLost, drawn);
    }

    method TakePoll(me: nat, n: nat, sid: string, onlyIfLost: bool, ghost rest: seq<ArmReq>, ghost time: int)
      returns (token: Option<Token>)
      requires time == if onlyIfLost then 120_000_000 else 180_000_000
      requires Valid() && Is(acts, me, Some(Arming([ArmReq(n, sid, onlyIfLost)] + rest)))
      modifies this, store
      ensures Valid() && Did(me) == old(Did(me)) + [ArmNext(me, "")]
      ensures token.Some? <==> CanClaimPoll(old(store.rows), n, sid, onlyIfLost, old(store.now))
      ensures Is(acts, me, if token.Some? then Some(Publishing(n, sid, token.value, rest)) else ArmRest(rest))
      ensures OnlyIn(old(Now()), Now(), me, n)
      ensures token.Some? ==> Leased(Now(), n, sid, token.value, time)
    {
      var s := Now();
      var drawn := FreshToken();
      token := ClaimRow(me, n, sid, onlyIfLost, drawn, time);
      assert acts[me].todo[0] == ArmReq(n, sid, onlyIfLost) && acts[me].todo[1..] == rest;
      assert EventOf(s, ArmNext(me, drawn)) == ClaimPollCall(n, sid, drawn, onlyIfLost);
      Move(s, ArmNext(me, drawn));
    }

    method PublishFirst(me: nat, n: nat, sid: string, token: Token, ghost rest: seq<ArmReq>, outcome: Publication)
      returns (ok: bool)
      requires Valid() && Is(acts, me, Some(Publishing(n, sid, token, rest)))
      modifies this, store
      ensures Valid() && Is(acts, me, ArmRest(rest)) && (ok <==> outcome.Accepted?)
      ensures Did(me) == Published(old(Did(me)), me, outcome)
      ensures Alone() && ok ==> && store.rows == old(store.rows) && store.now == old(store.now)
                                && Kept(old(acts), acts, me) && InQueue(acts, me, PollMsg(n, sid, token))
    {
      Interfere(me);
      ok := PublishPoll(me, n, sid, token, rest, outcome);
    }

    /** Claims poll ownership for a session and schedules the first poll of its chain. */
    method ArmPoll(me: nat, n: nat, sid: string, onlyIfLost: bool, ghost rest: seq<ArmReq>, outcome: Publication)
      returns (ok: bool, ghost won: bool)
      requires Valid() && Is(acts, me, Some(Arming([ArmReq(n, sid, onlyIfLost)] + rest)))
      modifies this, store
      ensures Valid() && Is(acts, me, ArmRest(rest)) && (ok <==> won && outcome.Accepted?)
      ensures won <==> CanClaimPoll(old(store.rows), n, sid, onlyIfLost, old(store.now))
      ensures Did(me) == Armed(old(Did(me)), me, won, outcome)
      ensures Alone() && ok ==>
                && OnlyIn(old(Now()), Now(), me, n)
                && OnItsWay(Now(), me, n, sid, if onlyIfLost then 120_000_000 else 180_000_000)
    {
      ghost var before := Now();
      var token := TakePoll(me, n, sid, onlyIfLost, rest, if onlyIfLost then 120_000_000 else 180_000_000);
      won := token.Some?;
      if token.None? {
        return false, won;
      }
      ghost var leased := Now();
      ok := PublishFirst(me, n, sid, token.value, rest, outcome);
      if Alone() && ok {
        ChainTaken(before, leased, Now(), me, n, sid, token.value, if onlyIfLost then 120_000_000 else 180_000_000);
      }
    }

    method ReadOwner(me: nat, n: nat, sid: string, token: Token) returns (owned: bool)
      requires Valid() && Is(acts, me, Some(PollMsg(n, sid, token)))
      modifies this
      ensures Valid() && Is(acts, me, if owned then Some(HopOwned(n, sid, token)) else None)
      ensures (owned <==> Owns(Now().db, n, sid, token)) && Did(me) == old(Did(me)) + [CheckOwner(me)]
      ensures owned <==> && n in store.rows && store.rows[n].status == Running && store.rows[n].sessionId == Some(sid)
                         && store.rows[n].pollToken == Some(token)
    {
      var rows := store.rows;
      if n !in rows || rows[n].status != Running || rows[n].sessionId != Some(sid) {
        owned := false;
      } else {
        owned := rows[n].pollToken == Some(token);
      }
      Move(Now(), CheckOwner(me));
    }

    method HearFromDevin(me: nat, n: nat, sid: string, token: Token, hop: HopReply)
      returns (status: Status, found: Option<string>)
      requires Valid() && Is(acts, me, Some(HopOwned(n, sid, token)))
      modifies this
      ensures Valid() && Is(acts, me, Some(HopSaving(n, sid, token, status, found)))
      ensures status == HopStatus(hop) && Did(me) == old(Did(me)) + [FetchSession(me, Some(hop))]
      ensures var known := || (hop.devinPr.Some? && hop.devinPr.value != "")
                           || (hop.lookup.Some? && hop.lookup.value.Some? && hop.lookup.value.value != "");
              status == if hop.status == Running && known then Completed else hop.status
      ensures found == if hop.devinPr.Some? && hop.devinPr.value != "" then hop.devinPr
                       else if hop.lookup.Some? then hop.lookup.value else hop.devinPr
    {
      status, found := hop.status, hop.devinPr;
      if !Truthy(found) && hop.lookup.Some? {
        found := hop.lookup.value;
      }
      if Truthy(found) && status == Running {
        status := Completed;
      }
      Move(Now(), FetchSession(me, Some(hop)));
    }

    method RecordHop(me: nat, n: nat, ghost sid: string, token: Token, status: Status, found: Option<string>)
      requires Valid() && Is(acts, me, Some(HopSaving(n, sid, token, status, found)))
      modifies this, store
      ensures Valid() && Did(me) == old(Did(me)) + [SaveHop(me)]
      ensures Is(acts, me, Some(if status == Running then Renewing(n, sid, token) else GivingBack(n, token, [])))
      ensures n in store.rows && store.rows[n].status == status
      ensures store.rows[n].prUrl ==
              if found.Some? then found else if n in old(store.rows) then old(store.rows)[n].prUrl else None
      ensures n in old(store.rows) ==> store.rows[n].pollToken == old(store.rows)[n].pollToken
      ensures store.rows - {n} == old(store.rows) - {n} && store.now == old(store.now)
    {
      var s := Now();
      var _ := store.Upsert(n, NO_CHANGE.(status := Some(status), prUrl := found));
      Move(s, SaveHop(me));
    }

    method FailToHear(me: nat, n: nat, ghost sid: string, ghost token: Token)
      requires Valid() && Is(acts, me, Some(HopOwned(n, sid, token)))
      modifies this
      ensures Valid() && Is(acts, me, Some(Renewing(n, sid, token)))
      ensures Did(me) == old(Did(me)) + [FetchSession(me, None)]
    {
      Move(Now(), FetchSession(me, None));
    }

    /** Asks Devin and GitHub, and saves the answer; true when the session should be polled again. */
    method SettleHop(me: nat, n: nat, sid: string, token: Token, hop: HopReply) returns (again: bool)
      requires Valid() && Is(acts, me, Some(HopOwned(n, sid, token)))
      modifies this, store
      ensures Valid() && Is(acts, me, if again then Some(Renewing(n, sid, token)) else None)
      ensures again <==> HopStatus(hop) == Running
      ensures var saved := old(Did(me)) + [FetchSession(me, Some(hop))] + [SaveHop(me)];
              Did(me) == if again then saved else saved + [GiveBack(me)]
      ensures var known := || (hop.devinPr.Some? && hop.devinPr.value != "")
                           || (hop.lookup.Some? && hop.lookup.value.Some? && hop.lookup.value.value != "");
              && (again <==> hop.status == Running && !known)
              && (again ==> n in store.rows && store.rows[n].status == Running)
              && (Alone() && n in old(store.rows) ==>
                    && n in store.rows
                    && store.rows[n].status == (if hop.status == Running && known then Completed else hop.status)
                    && store.rows[n].prUrl ==
                       (if hop.devinPr.Some? && hop.devinPr.value != "" then hop.devinPr
                        else if hop.lookup.Some? && hop.lookup.value.Some? then hop.lookup.value
                        else if hop.lookup.None? && hop.devinPr.Some? then hop.devinPr
                        else old(store.rows)[n].prUrl)
                    && (again ==>
                          store.rows[n].pollToken == old(store.rows)[n].pollToken && store.now == old(store.now)))
    {
      var status, found := HearFromDevin(me, n, sid, token, hop);
      Interfere(me);
      RecordHop(me, n, sid, token, status, found);
      again := status == Running;
      if !again {
        Interfere(me);
        ReleaseOwn(me, n, token, []);
      }
    }

    /** One poll of a running session; true when it should be polled again. */
    method PollSessionOnce(me: nat, n: nat, sid: string, token: Token, hop: Reply<HopReply>)
      returns (again: bool, ghost owned: bool)
      requires Valid() && Is(acts, me, Some(PollMsg(n, sid, token)))
      modifies this, store
      ensures Valid() && Is(acts, me, if again then Some(Renewing(n, sid, token)) else None)
      ensures owned <==> Owns(old(Now()).db, n, sid, token)
      ensures (again <==> PollsOn(owned, hop)) && Did(me) == Polled(old(Did(me)), me, owned, hop)
      ensures owned <==> && n in old(store.rows) && old(store.rows)[n].status == Running
                         && old(store.rows)[n].sessionId == Some(sid) && old(store.rows)[n].pollToken == Some(token)
      ensures owned && hop.Answered? ==>
                var h := hop.value;
                var known := || (h.devinPr.Some? && h.devinPr.value != "")
                             || (h.lookup.Some? && h.lookup.value.Some? && h.lookup.value.value != "");
                && (again <==> h.status == Running && !known)
                && (again ==> n in store.rows && store.rows[n].status == Running)
                && (Alone() ==>
                      && n in store.rows
                      && store.rows[n].status == (if h.status == Running && known then Completed else h.status)
                      && store.rows[n].prUrl ==
                         (if h.devinPr.Some? && h.devinPr.value != "" then h.devinPr
                          else if h.lookup.Some? && h.lookup.value.Some? then h.lookup.value
                          else if h.lookup.None? && h.devinPr.Some? then h.devinPr
                          else old(store.rows)[n].prUrl))
      ensures owned && hop.Raised? ==> again
      ensures Alone() && again ==>
                n in store.rows && store.rows[n].pollToken == Some(token) && store.now == old(store.now)
      ensures Alone() && (!owned || hop.Raised?) ==> store.rows == old(store.rows)
    {
      var mine := ReadOwner(me, n, sid, token);
      owned := mine;
      if !mine {
        return false, owned;
      }
      Interfere(me);
      if hop.Raised? {
        FailToHear(me, n, sid, token);
        return true, owned;
      }
      again := SettleHop(me, n, sid, token, hop.value);
    }

    method Renew(me: nat, n: nat, ghost sid: string, token: Token) returns (renewed: bool)
      requires Valid() && Is(acts, me, Some(Renewing(n, sid, token)))
      modifies this, store
      ensures Valid() && Is(acts, me, if renewed then Some(Publishing(n, sid, token, [])) else None)
      ensures (renewed <==> HoldsToken(old(store.rows), n, token)) && Did(me) == old(Did(me)) + [RenewLease(me)]
      ensures store.now == old(store.now)
      ensures renewed <==> n in old(store.rows) && old(store.rows)[n].pollToken == Some(token)
      ensures renewed ==> HeldUntil(store.rows, n, token, old(store.now) + 180_000_000)
    {
      var s := Now();
      renewed := store.RenewPoll(n, token, LeaseSeconds(POLL_INTERVAL_SECONDS));
      Move(s, RenewLease(me));
    }

    /** Renews the lease of a chain and schedules its next poll. */
    method ContinuePoll(me: nat, n: nat, sid: string, token: Token, outcome: Publication)
      requires Valid() && Is(acts, me, Some(Renewing(n, sid, token)))
      modifies this, store
      ensures Valid() && me !in acts
      ensures Did(me) == Continued(old(Did(me)), me, HoldsToken(old(store.rows), n, token), outcome)
      ensures Alone() && outcome.Accepted? && n in old(store.rows) && old(store.rows)[n].pollToken == Some(token) ==>
                && HeldUntil(store.rows, n, token, old(store.now) + 180_000_000)
                && InQueue(acts, me, PollMsg(n, sid, token))
    {
      var renewed := Renew(me, n, sid, token);
      if !renewed {
        return;
      }
      var _ := PublishFirst(me, n, sid, token, [], outcome);
    }

    /** The task that runs one hop of a chain and reschedules itself. */
    method PollSessionTask(me: nat, n: nat, sid: string, token: Token, hop: Reply<HopReply>, outcome: Publication)
      returns (again: bool, ghost renewed: bool)
      requires Valid() && Is(acts, me, Some(PollMsg(n, sid, token)))
      modifies this, store
      ensures Valid() && me !in acts
      ensures again <==> PollsOn(Owns(old(Now()).db, n, sid, token), hop)
      ensures var polled := Polled(old(Did(me)), me, Owns(old(Now()).db, n, sid, token), hop);
              Did(me) == if again then Continued(polled, me, renewed, outcome) else polled
      ensures Alone() && again && outcome.Accepted? ==>
                && HeldUntil(store.rows, n, token, old(store.now) + 180_000_000)
                && InQueue(acts, me, PollMsg(n, sid, token))
    {
      ghost var owned;
      again, owned := PollSessionOnce(me, n, sid, token, hop);
      renewed := false;
      if again {
        Interfere(me);
        renewed := HoldsToken(store.rows, n, token);
        ContinuePoll(me, n, sid, token, outcome);
      }
    }

    // --- remediation -------------------------------------------------------------------------

    method ReadStatus(me: nat, issue: Issue, ghost force: bool) returns (current: Option<Status>)
      requires Valid() && Is(acts, me, Some(RemediateMsg(issue, force)))
      modifies this
      ensures Valid() && Is(acts, me, Some(LookingForPr(issue, force, current)))
      ensures current == StatusIn(store.rows, issue.number) && Did(me) == old(Did(me)) + [GetStatus(me)]
    {
      current := if issue.number in store.rows then Some(store.rows[issue.number].status) else None;
      Move(Now(), GetStatus(me));
    }

    method HearFromGitHub(me: nat, issue: Issue, force: bool, current: Option<Status>, found: Option<string>)
      requires Valid() && Is(acts, me, Some(LookingForPr(issue, force, current)))
      modifies this
      ensures Valid() && Did(me) == old(Did(me)) + [LookUpPr(me, found)]
      ensures Is(acts, me, if Truthy(found) then Some(PrKnown(issue, found.value))
                           else if current == Some(Failed) && !force then None
                           else Some(Claiming(issue)))
    {
      Move(Now(), LookUpPr(me, found));
    }

    /** The exception of a failed lookup ends the task. */
    method Escape(me: nat)
      requires Valid() && me in acts
      modifies this
      ensures Valid() && me !in acts && Did(me) == old(Did(me)) + [Vanish(me)]
    {
      Move(Now(), Vanish(me));
    }

    method RecordCompleted(me: nat, issue: Issue, pr: string)
      requires Valid() && Is(acts, me, Some(PrKnown(issue, pr)))
      modifies this, store
      ensures Valid() && me !in acts && Did(me) == old(Did(me)) + [MarkCompleted(me)]
      ensures issue.number in store.rows && store.rows[issue.number].status == Completed
      ensures store.rows[issue.number].prUrl == Some(pr)
      ensures store.rows[issue.number].title == issue.title && store.rows[issue.number].issueUrl == issue.url
      ensures store.rows - {issue.number} == old(store.rows) - {issue.number}
    {
      var s := Now();
      var _ := store.Upsert(issue.number,
                            Patch(Some(issue.title), Some(issue.url), None, None, Some(Completed), Some(pr)));
      Move(s, MarkCompleted(me));
    }

    method TakeIssue(me: nat, issue: Issue) returns (granted: bool, ghost lease: Time)
      requires Valid() && Is(acts, me, Some(Claiming(issue)))
      modifies this, store
      ensures Valid() && Did(me) == old(Did(me)) + [Claim(me)]
      ensures granted <==> CanClaim(old(store.rows), issue.number, old(store.now))
      ensures Is(acts, me, if granted then Some(Creating(issue.number, lease)) else None)
    {
      var s := Now();
      lease := s.db.now + CREATE_LEASE;
      granted := store.ClaimRemediation(issue.number, issue.title, issue.url, CREATE_LEASE_SECONDS);
      assert EventOf(s, Claim(me)) == ClaimCall(issue.number, issue.title, issue.url);
      Move(s, Claim(me));
    }

    method HearOfSession(me: nat, n: nat, ghost lease: Time, reply: Option<(string, Option<string>)>)
      requires Valid() && Is(acts, me, Some(Creating(n, lease)))
      requires reply.Some? ==> reply.value.0 != ""
      modifies this
      ensures Valid() && Did(me) == old(Did(me)) + [SessionReply(me, reply)]
      ensures Is(acts, me, Some(if reply.Some? then Created(n, lease, reply.value.0, reply.value.1)
                                else CreateFailed(n, lease)))
    {
      Move(Now(), SessionReply(me, reply));
    }

    method RecordSession(me: nat, n: nat, ghost lease: Time, sid: string, url: Option<string>)
      requires Valid() && Is(acts, me, Some(Created(n, lease, sid, url)))
      modifies this, store
      ensures Valid() && Did(me) == old(Did(me)) + [SaveSession(me, true)]
      ensures Is(acts, me, Some(Arming([ArmReq(n, sid, false)])))
      ensures n in store.rows && store.rows[n].status == Running && store.rows[n].sessionId == Some(sid)
    {
      var s := Now();
      var _ := store.Upsert(n, NO_CHANGE.(sessionId := Some(sid), sessionUrl := url, status := Some(Running)));
      Move(s, SaveSession(me, true));
    }

    method FailToRecord(me: nat, n: nat, ghost lease: Time, ghost sid: string, ghost url: Option<string>)
      requires Valid() && Is(acts, me, Some(Created(n, lease, sid, url)))
      modifies this
      ensures Valid() && Did(me) == old(Did(me)) + [SaveSession(me, false)]
      ensures Is(acts, me, Some(CreateFailed(n, lease)))
    {
      Move(Now(), SaveSession(me, false));
    }

    method RecordFailed(me: nat, n: nat, ghost lease: Time)
      requires Valid() && Is(acts, me, Some(CreateFailed(n, lease)))
      modifies this, store
      ensures Valid() && Did(me) == old(Did(me)) + [SaveFailed(me)] && Is(acts, me, Some(Settling(n)))
      ensures n in store.rows && store.rows[n].status == Failed
    {
      var s := Now();
      var _ := store.Upsert(n, NO_CHANGE.(status := Some(Failed)));
      Move(s, SaveFailed(me));
    }

    method ReleaseBare(me: nat, n: nat)
      requires Valid() && Is(acts, me, Some(Settling(n)))
      modifies this, store
      ensures Valid() && Did(me) == old(Did(me)) + [DropLease(me)] && me !in acts
      ensures n in old(store.rows) ==>
                && n in store.rows && store.rows[n].status == old(store.rows)[n].status
                && store.rows[n].pollToken == None && store.rows[n].leaseUntil == None
    {
      var s := Now();
      store.ReleasePoll(n, None);
      Move(s, DropLease(me));
    }

    /** Creates or retries a session for one issue; Answered(true) exactly when it recorded one. */
    method ProcessIssue(me: nat, issue: Issue, force: bool, lookup: Reply<Option<string>>,
                        creation: Reply<(Option<string>, Option<string>)>, saved: bool, outcome: Publication)
      returns (result: Reply<bool>, ghost granted: bool, ghost armed: bool)
      requires Valid() && Is(acts, me, Some(RemediateMsg(issue, force)))
      modifies this, store
      ensures Valid() && me !in acts
      ensures Did(me) == Processed(old(Did(me)), me, StatusIn(old(store.rows), issue.number), force, lookup, granted,
                                   NewSession(creation), saved, armed, outcome)
      ensures result == Raised <==> lookup.Raised?
      ensures result == Answered(true) <==>
                granted && creation.Answered? && creation.value.0.Some? && creation.value.0.value != "" && saved
      ensures granted ==> lookup.Answered? && !Truthy(lookup.value)
      ensures lookup.Answered? && lookup.value.Some? && lookup.value.value != "" ==>
                && issue.number in store.rows && store.rows[issue.number].status == Completed
                && store.rows[issue.number].prUrl == lookup.value
                && store.rows[issue.number].title == issue.title && store.rows[issue.number].issueUrl == issue.url
      ensures var rows := old(store.rows);
              Alone() ==>
                (granted <==>
                   && lookup.Answered? && (lookup.value.None? || lookup.value.value == "")
                   && (issue.number in rows ==>
                         var row := rows[issue.number];
                         || row.status == Completed || (row.status == Failed && force)
                         || (row.status == Running && row.sessionId == None
                             && (row.leaseUntil == None || row.leaseUntil.value < old(store.now)))))
      ensures Alone() && granted && result != Answered(true) ==> GivenUp(Now(), issue.number)
      ensures Alone() && result == Answered(true) && outcome.Accepted? ==>
                OnItsWay(Now(), me, issue.number, creation.value.0.value, 180_000_000)
    {
      granted, armed := false, false;
      var current := ReadStatus(me, issue, force);
      if lookup.Raised? {
        Interfere(me);
        Escape(me);
        return Raised, granted, armed;
      }
      var created;
      created, granted, armed := FollowLookup(me, issue, force, current, lookup.value, creation, saved, outcome);
      result := Answered(created);
    }

    /** Completes the issue when it has a pull request, and else claims it unless it failed before. */
    method FollowLookup(me: nat, issue: Issue, force: bool, current: Option<Status>, found: Option<string>,
                        creation: Reply<(Option<string>, Option<string>)>, saved: bool, outcome: Publication)
      returns (created: bool, ghost granted: bool, ghost armed: bool)
      requires Valid() && Is(acts, me, Some(LookingForPr(issue, force, current)))
      modifies this, store
      ensures Valid() && me !in acts && (created <==> granted && NewSession(creation).Some? && saved)
      ensures Did(me) == FollowedUp(old(Did(me)), me, current, force, found, granted, NewSession(creation), saved,
                                    armed, outcome)
      ensures found.Some? && found.value != "" ==>
                && !granted
                && issue.number in store.rows && store.rows[issue.number].status == Completed
                && store.rows[issue.number].prUrl == found
                && store.rows[issue.number].title == issue.title && store.rows[issue.number].issueUrl == issue.url
      ensures current == Some(Failed) && !force ==> !granted
      ensures Alone() && (found.None? || found.value == "") && (current == Some(Failed) ==> force) ==>
                (granted <==> CanClaim(old(store.rows), issue.number, old(store.now)))
      ensures Alone() && granted && !created ==> GivenUp(Now(), issue.number)
      ensures Alone() && created && outcome.Accepted? ==>
                OnItsWay(Now(), me, issue.number, creation.value.0.value, 180_000_000)
    {
      created, granted, armed := false, false, false;
      Interfere(me);
      HearFromGitHub(me, issue, force, current, found);
      if Truthy(found) {
        Interfere(me);
        RecordCompleted(me, issue, found.value);
        return;
      }
      if current == Some(Failed) && !force {
        return;
      }
      created, granted, armed := ClaimAndCreate(me, issue, creation, saved, outcome);
    }

    method ClaimAndCreate(me: nat, issue: Issue, creation: Reply<(Option<string>, Option<string>)>, saved: bool,
                          outcome: Publication) returns (created: bool, ghost granted: bool, ghost armed: bool)
      requires Valid() && Is(acts, me, Some(Claiming(issue)))
      modifies this, store
      ensures Valid() && me !in acts && (created <==> granted && NewSession(creation).Some? && saved)
      ensures Alone() ==> (granted <==> CanClaim(old(store.rows), issue.number, old(store.now)))
      ensures Did(me) == Claimed(old(Did(me)), me, granted, NewSession(creation), saved, armed, outcome)
      ensures Alone() && granted && !created ==> GivenUp(Now(), issue.number)
      ensures Alone() && created && outcome.Accepted? ==>
                OnItsWay(Now(), me, issue.number, creation.value.0.value, 180_000_000)
    {
      Interfere(me);
      var won, lease := TakeIssue(me, issue);
      granted, armed := won, false;
      if !won {
        return false, granted, armed;
      }
      Interfere(me);
      created, armed := CreateSession(me, issue.number, lease, creation, saved, outcome);
    }

    /** The try block around `create_session`, and the settlement of its failure. */
    method CreateSession(me: nat, n: nat, ghost lease: Time, creation: Reply<(Option<string>, Option<string>)>,
                         saved: bool, outcome: Publication) returns (created: bool, ghost armed: bool)
      requires Valid() && Is(acts, me, Some(Creating(n, lease)))
      modifies this, store
      ensures Valid() && me !in acts && (created <==> NewSession(creation).Some? && saved)
      ensures Did(me) == SessionMade(old(Did(me)), me, NewSession(creation), saved, armed, outcome)
      ensures Alone() && !created ==> GivenUp(Now(), n)
      ensures Alone() && created && outcome.Accepted? ==>
                OnItsWay(Now(), me, n, creation.value.0.value, 180_000_000)
    {
      armed := false;
      if creation.Answered? && Truthy(creation.value.0) {
        var sid, url := creation.value.0.value, creation.value.1;
        HearOfSession(me, n, lease, Some((sid, url)));
        Interfere(me);
        if saved {
          armed := RecordAndArm(me, n, lease, sid, url, outcome);
          return true, armed;
        }
        FailToRecord(me, n, lease, sid, url);
      } else {
        HearOfSession(me, n, lease, None);
      }
      Interfere(me);
      SettleFailure(me, n, lease);
      created := false;
    }

    method RecordAndArm(me: nat, n: nat, ghost lease: Time, sid: string, url: Option<string>, outcome: Publication)
      returns (ghost armed: bool)
      requires Valid() && Is(acts, me, Some(Created(n, lease, sid, url)))
      modifies this, store
      ensures Valid() && me !in acts
      ensures Did(me) == Armed(old(Did(me)) + [SaveSession(me, true)], me, armed, outcome)
      ensures Alone() && outcome.Accepted? ==> OnItsWay(Now(), me, n, sid, 180_000_000)
    {
      RecordSession(me, n, lease, sid, url);
      Interfere(me);
      assert [ArmReq(n, sid, false)] + [] == [ArmReq(n, sid, false)];
      var _, won := ArmPoll(me, n, sid, false, [], outcome);
      armed := won;
    }

    method SettleFailure(me: nat, n: nat, ghost lease: Time)
      requires Valid() && Is(acts, me, Some(CreateFailed(n, lease)))
      modifies this, store
      ensures Valid() && Did(me) == old(Did(me)) + [SaveFailed(me)] + [DropLease(me)] && me !in acts
      ensures Alone() ==> GivenUp(Now(), n)
    {
      RecordFailed(me, n, lease);
      Interfere(me);
      ReleaseBare(me, n);
    }

    // --- the reconciliation scan -------------------------------------------------------------

    method RearmNext(me: nat, lost: seq<ArmReq>, i: nat, outcome: Publication) returns (ok: bool, ghost won: bool)
      requires Valid() && i < |lost| && lost[i].onlyIfLost && Is(acts, me, ArmRest(lost[i..]))
      modifies this, store
      ensures Valid() && Is(acts, me, ArmRest(lost[i + 1..])) && (ok <==> won && outcome.Accepted?)
      ensures Did(me) == Armed(old(Did(me)), me, won, outcome)
      ensures won && Alone() && outcome.Accepted? ==>
                OnlyIn(old(Now()), Now(), me, lost[i].n) && OnItsWay(Now(), me, lost[i].n, lost[i].sid, 120_000_000)
      ensures Alone() && Waits(old(Now()), lost[i]) ==> won
    {
      assert lost[i..] == [ArmReq(lost[i].n, lost[i].sid, true)] + lost[i + 1..];
      Interfere(me);
      ok, won := ArmPoll(me, lost[i].n, lost[i].sid, true, lost[i + 1..], outcome);
    }

    /** Re-arms each lost chain in turn and counts the polls it got scheduled. */
    method RearmLost(me: nat, lost: seq<ArmReq>, outcomes: seq<Publication>)
      returns (rearmed: nat, ghost won: seq<bool>)
      requires Valid() && Is(acts, me, ArmRest(lost))
      requires forall r :: r in lost ==> r.onlyIfLost
      modifies this, store
      ensures Valid() && me !in acts && |won| == |lost|
      ensures Did(me) == Rearmed(old(Did(me)), me, won, outcomes) && rearmed == CountRearmed(won, outcomes)
      ensures Alone() && AllAccepted(outcomes) && InOrder(lost) && Rearming(old(Now()), me, lost, 0) ==>
                rearmed == |lost| && Rearming(Now(), me, lost, |lost|) && Kept(old(acts), acts, me)
    {
      rearmed, won := 0, [];
      ghost var quiet := Alone() && AllAccepted(outcomes) && InOrder(lost) && Rearming(Now(), me, lost, 0);
      for i := 0 to |lost|
        invariant Valid() && Is(acts, me, ArmRest(lost[i..])) && |won| == i
        invariant Did(me) == Rearmed(old(Did(me)), me, won, outcomes) && rearmed == CountRearmed(won, outcomes)
        invariant quiet ==> rearmed == i && Rearming(Now(), me, lost, i) && Kept(old(acts), acts, me)
      {
        assert lost[i] in lost;
        ghost var before := Now();
        var ok, mine := RearmNext(me, lost, i, Answer(outcomes, i));
        if quiet {
          Takes(outcomes, i);
          RearmedOne(before, Now(), me, lost, i);
        }
        if ok {
          rearmed := rearmed + 1;
        }
        RearmedMore(old(Did(me)), me, won, mine, outcomes);
        won := won + [mine];
      }
    }

    method FindLost(me: nat, ghost force: bool) returns (lost: seq<ArmReq>)
      requires Valid() && Is(acts, me, Some(Scanning([], force)))
      modifies this
      ensures Valid() && Is(acts, me, ArmRest(lost)) && Did(me) == old(Did(me)) + [ScanRows(me)]
      ensures InOrder(lost) && forall r :: r in lost ==> r.onlyIfLost
      ensures forall n: nat :: Requests(lost, n) <==>
                && n in store.rows && store.rows[n].status == Running && store.rows[n].sessionId != None
                && (store.rows[n].leaseUntil == None || store.rows[n].leaseUntil.value < store.now)
      ensures Rearming(Now(), me, lost, 0) && Kept(old(acts), acts, me)
    {
      lost := ScanRequests(Now().db);
      ScanFinds(Now().db);
      Move(Now(), ScanRows(me));
    }

    method BeginScan(me: nat, issues: seq<Issue>, force: bool)
      requires Valid() && me !in acts
      modifies this
      ensures Valid() && Is(acts, me, Some(Scanning(issues, force)))
      ensures Did(me) == old(Did(me)) + [StartScan(me, issues, force)]
    {
      Move(Now(), StartScan(me, issues, force));
    }

    method SendOne(me: nat, issue: Issue, ghost rest: seq<Issue>, ghost force: bool, outcome: Publication)
      requires Valid() && Is(acts, me, Some(Scanning([issue] + rest, force)))
      modifies this
      ensures Valid() && Is(acts, me, if outcome.Accepted? then Some(Scanning(rest, force)) else None)
      ensures Did(me) == old(Did(me)) + [SendIssue(me, 0, outcome)]
      ensures Kept(old(acts), acts, me) && (outcome != Refused ==> InQueue(acts, me, RemediateMsg(issue, force)))
    {
      var msg := FreshId();
      assert acts[me].issues[1..] == rest;
      Move(Now(), SendIssue(me, msg, outcome));
    }

    /** A scan after its first `i` issues. */
    ghost predicate Sending(start: State, log: seq<Step>, me: nat, issues: seq<Issue>, i: nat, force: bool,
                            outcomes: seq<Publication>)
      reads this, store
    {
      && Valid() && i <= |issues| && Is(acts, me, Some(Scanning(issues[i..], force)))
      && Did(me) == Sent(log, me, i, outcomes) && AllTaken(outcomes, i)
      && (Alone() ==> Fanning(start, Now(), me, issues, force, i))
    }

    method SendNext(me: nat, issues: seq<Issue>, i: nat, ghost force: bool, outcomes: seq<Publication>,
                    ghost log: seq<Step>, ghost start: State) returns (taken: bool)
      requires i < |issues| && Sending(start, log, me, issues, i, force, outcomes)
      modifies this, store
      ensures if taken then Sending(start, log, me, issues, i + 1, force, outcomes)
              else Valid() && me !in acts && Did(me) == Sent(log, me, i + 1, outcomes)
                   && SendsUntil(outcomes, |issues|, i + 1, false)
    {
      assert issues[i..] == [issues[i]] + issues[i + 1..];
      ghost var before := Now();
      Interfere(me);
      SendOne(me, issues[i], issues[i + 1..], force, Answer(outcomes, i));
      taken := Answer(outcomes, i).Accepted?;
      if Alone() && taken {
        StaySent(start, before, Now(), me, issues, force, i);
      }
    }

    /** Enqueues every labelled issue, unless the broker refuses one and the exception ends the scan. */
    method FanOut(me: nat, issues: seq<Issue>, ghost force: bool, outcomes: seq<Publication>)
      returns (all: bool, ghost sent: nat)
      requires Valid() && Is(acts, me, Some(Scanning(issues, force)))
      modifies this, store
      ensures Valid() && Is(acts, me, if all then Some(Scanning([], force)) else None)
      ensures Did(me) == Sent(old(Did(me)), me, sent, outcomes)
      ensures SendsUntil(outcomes, |issues|, sent, all)
      ensures Alone() && all ==> Fanning(old(Now()), Now(), me, issues, force, |issues|)
    {
      ghost var log, start := Did(me), Now();
      for i := 0 to |issues|
        invariant Sending(start, log, me, issues, i, force, outcomes)
      {
        var taken := SendNext(me, issues, i, force, outcomes, log, start);
        if !taken {
          return false, i + 1;
        }
      }
      return true, |issues|;
    }

    method FinishScan(me: nat, ghost force: bool, outcomes: seq<Publication>)
      returns (rearmed: nat, ghost won: seq<bool>, ghost lost: seq<ArmReq>)
      requires Valid() && Is(acts, me, Some(Scanning([], force)))
      modifies this, store
      ensures Valid() && me !in acts && rearmed == CountRearmed(won, outcomes) && |won| == |lost|
      ensures Did(me) == Rearmed(old(Did(me)) + [ScanRows(me)], me, won, outcomes)
      ensures InOrder(lost)
      ensures Alone() ==> forall n: nat :: Requests(lost, n) <==>
                && n in old(store.rows) && old(store.rows)[n].status == Running && old(store.rows)[n].sessionId != None
                && (old(store.rows)[n].leaseUntil == None || old(store.rows)[n].leaseUntil.value < old(store.now))
      ensures Alone() && AllAccepted(outcomes) ==>
                rearmed == |lost| && Rearming(Now(), me, lost, |lost|) && Kept(old(acts), acts, me)
    {
      Interfere(me);
      var found := FindLost(me, force);
      lost := found;
      rearmed, won := RearmLost(me, found, outcomes);
    }

    /** Fans out the labelled issues, then re-arms lost chains; None when an exception escapes. */
    method ScanListed(me: nat, issues: seq<Issue>, force: bool, sends: seq<Publication>, outcomes: seq<Publication>)
      returns (rearmed: Option<nat>, ghost sent: nat, ghost won: seq<bool>, ghost lost: seq<ArmReq>)
      requires Valid() && me !in acts
      modifies this, store
      ensures Valid() && me !in acts && SendsUntil(sends, |issues|, sent, rearmed.Some?)
      ensures Did(me) == Scanned(old(Did(me)), me, issues, force, sent, sends, won, outcomes)
      ensures rearmed.Some? ==> rearmed.value == CountRearmed(won, outcomes) && |won| == |lost| && InOrder(lost)
      ensures Alone() && rearmed.Some? ==> forall n: nat :: Requests(lost, n) <==>
                && n in old(store.rows) && old(store.rows)[n].status == Running && old(store.rows)[n].sessionId != None
                && (old(store.rows)[n].leaseUntil == None || old(store.rows)[n].leaseUntil.value < old(store.now))
      ensures Alone() && rearmed.Some? && AllAccepted(outcomes) ==>
                rearmed.value == |lost| && Rearming(Now(), me, lost, |lost|)
                && forall k :: 0 <= k < |issues| ==> InQueue(acts, me, RemediateMsg(issues[k], force))
    {
      won, lost := [], [];
      BeginScan(me, issues, force);
      ghost var began := Now();
      var all;
      all, sent := FanOut(me, issues, force, sends);
      if !all {
        return None, sent, won, lost;
      }
      ghost var fanned := Now();
      var count, mine, found := FinishScan(me, force, outcomes);
      if Alone() && AllAccepted(outcomes) {
        EachSent(began, fanned, acts, me, issues, force);
      }
      return Some(count), sent, mine, found;
    }

    /** Lists, fans out and re-arms: (scanned, polls re-armed), None for the error result, Raised when an
        exception escapes. `lost` are the chains it tries to re-arm. */
    method ScanAndProcess(me: nat, issues: Reply<seq<Issue>>, force: bool, sends: seq<Publication>,
                          outcomes: seq<Publication>)
      returns (result: Reply<Option<(nat, nat)>>, ghost sent: nat, ghost won: seq<bool>, ghost lost: seq<ArmReq>)
      requires Valid() && me !in acts
      modifies this, store
      ensures Valid() && me !in acts
      ensures issues.Raised? ==> result == Answered(None) && Now() == old(Now()) && Did(me) == old(Did(me))
      ensures issues.Answered? ==>
                && SendsUntil(sends, |issues.value|, sent, result != Raised)
                && Did(me) == Scanned(old(Did(me)), me, issues.value, force, sent, sends, won, outcomes)
                && (result != Raised ==>
                      && result.value == Some((|issues.value|, CountRearmed(won, outcomes)))
                      && |won| == |lost| && forall i, j :: 0 <= i < j < |lost| ==> lost[i].n < lost[j].n)
      ensures Alone() && issues.Answered? && result != Raised ==>
                && (forall n: nat :: Requests(lost, n) <==>
                      && n in old(store.rows) && old(store.rows)[n].status == Running
                      && old(store.rows)[n].sessionId != None
                      && (old(store.rows)[n].leaseUntil == None
                          || old(store.rows)[n].leaseUntil.value < old(store.now)))
                && (AllAccepted(outcomes) ==>
                      && result.value == Some((|issues.value|, |lost|))
                      && (forall k :: 0 <= k < |lost| ==> OnItsWay(Now(), me, lost[k].n, lost[k].sid, 120_000_000))
                      && (forall k :: 0 <= k < |issues.value| ==>
                            InQueue(acts, me, RemediateMsg(issues.value[k], force))))
    {
      if issues.Raised? {
        return Answered(None), 0, [], [];
      }
      var rearmed;
      rearmed, sent, won, lost := ScanListed(me, issues.value, force, sends, outcomes);
      result := if rearmed.None? then Raised else Answered(Some((|issues.value|, rearmed.value)));
    }

    // --- webhooks ----------------------------------------------------------------------------

    method FindLinked(me: nat, pr: string) returns (linked: seq<nat>)
      requires Valid() && me !in acts && pr != ""
      modifies this
      ensures Valid() && Is(acts, me, CloseRest(pr, linked)) && Did(me) == old(Did(me)) + [PrClosed(me, pr)]
      ensures linked == Ascending(LinkedTo(store.rows, pr)) && Kept(old(acts), acts, me)
      ensures forall n: nat :: n in linked <==>
                n in store.rows && store.rows[n].prUrl == Some(pr) && store.rows[n].status != Running
    {
      linked := Ascending(LinkedTo(store.rows, pr));
      Move(Now(), PrClosed(me, pr));
    }

    method Inspect(me: nat, pr: string, n: nat, ghost rest: seq<nat>, eligible: Option<Issue>)
      requires Valid() && Is(acts, me, Some(Closing(pr, [n] + rest)))
      requires eligible.Some? ==> eligible.value.number == n
      modifies this
      ensures Valid() && Did(me) == old(Did(me)) + [InspectLinked(me, eligible)]
      ensures Is(acts, me, if eligible.Some? then Some(Inspected(eligible.value, pr, rest)) else CloseRest(pr, rest))
      ensures Kept(old(acts), acts, me)
    {
      assert acts[me].linked[0] == n && acts[me].linked[1..] == rest;
      Move(Now(), InspectLinked(me, eligible));
    }

    method TryDetach(me: nat, pr: string, issue: Issue, ghost rest: seq<nat>) returns (stamp: Option<Time>)
      requires Valid() && Is(acts, me, Some(Inspected(issue, pr, rest)))
      modifies this, store
      ensures Valid() && Did(me) == old(Did(me)) + [Detach(me)]
      ensures Is(acts, me, if stamp.Some? then Some(Detached(issue, pr, stamp.value, rest)) else CloseRest(pr, rest))
      ensures OnlyIn(old(Now()), Now(), me, issue.number)
      ensures stamp.Some? <==>
                && issue.number in old(store.rows) && old(store.rows)[issue.number].prUrl == Some(pr)
                && old(store.rows)[issue.number].status != Running
      ensures stamp.Some? ==>
                && issue.number in store.rows && store.rows[issue.number].status == Failed
                && store.rows[issue.number].prUrl == Some("") && store.rows[issue.number].updatedAt == stamp.value
    {
      var s := Now();
      stamp := store.DetachClosedPr(issue.number, pr);
      Move(s, Detach(me));
    }

    method EnqueueRetry(me: nat, pr: string, issue: Issue, stamp: Time, ghost rest: seq<nat>, outcome: Publication)
      requires Valid() && Is(acts, me, Some(Detached(issue, pr, stamp, rest)))
      modifies this
      ensures Valid() && Did(me) == old(Did(me)) + [PublishRetry(me, 0, outcome)]
      ensures Is(acts, me, if outcome.Accepted? then CloseRest(pr, rest)
                           else Some(Reattaching(issue.number, pr, stamp)))
      ensures Kept(old(acts), acts, me) && (outcome != Refused ==> InQueue(acts, me, RemediateMsg(issue, true)))
    {
      var msg := FreshId();
      Move(Now(), PublishRetry(me, msg, outcome));
    }

    method PutBack(me: nat, pr: string, n: nat, stamp: Time)
      requires Valid() && Is(acts, me, Some(Reattaching(n, pr, stamp)))
      modifies this, store
      ensures Valid() && Did(me) == old(Did(me)) + [Reattach(me)] && me !in acts
      ensures OnlyIn(old(Now()), Now(), me, n)
      ensures && n in old(store.rows) && old(store.rows)[n].status == Failed && old(store.rows)[n].prUrl == Some("")
              && old(store.rows)[n].updatedAt == stamp ==>
                n in store.rows && store.rows[n].status == Failed && store.rows[n].prUrl == Some(pr)
    {
      var s := Now();
      var _ := store.ReattachClosedPr(n, pr, stamp);
      Move(s, Reattach(me));
    }

    /** Hands one linked issue back: true when its retry was enqueued, Raised when the broker refused. */
    method HandBack(me: nat, pr: string, n: nat, ghost rest: seq<nat>, eligible: Option<Issue>, outcome: Publication)
      returns (result: Reply<bool>, ghost detached: bool)
      requires Valid() && Is(acts, me, Some(Closing(pr, [n] + rest)))
      requires eligible.Some? ==> eligible.value.number == n
      modifies this, store
      ensures Valid() && Is(acts, me, if result.Raised? then None else CloseRest(pr, rest))
      ensures result == HandedResult(eligible, detached, outcome)
      ensures Did(me) == HandedBack(old(Did(me)), me, eligible, detached, outcome)
      ensures Alone() ==> OnlyIn(old(Now()), Now(), me, n)
      ensures Alone() && PointsAt(old(store.rows), pr, n) ==>
                && (eligible.Some? ==> detached) && n in store.rows && store.rows[n].status != Running
                && store.rows[n].prUrl == Some(if result == Answered(true) then "" else pr)
      ensures Alone() && result == Answered(true) ==> InQueue(acts, me, RemediateMsg(eligible.value, true))
    {
      detached := false;
      Inspect(me, pr, n, rest, eligible);
      if eligible.None? {
        return Answered(false), detached;
      }
      Interfere(me);
      var stamp := TryDetach(me, pr, eligible.value, rest);
      detached := stamp.Some?;
      if stamp.None? {
        return Answered(false), detached;
      }
      Interfere(me);
      EnqueueRetry(me, pr, eligible.value, stamp.value, rest, outcome);
      if !outcome.Accepted? {
        Interfere(me);
        PutBack(me, pr, n, stamp.value);
        return Raised, detached;
      }
      result := Answered(true);
    }

    /** Hands the next linked issue back; `touched` and `detached` are what became of those before it. */
    method HandBackOne(me: nat, pr: string, linked: seq<nat>, i: nat, hears: map<nat, IssueData>,
                       outcomes: seq<Publication>, ghost touched: seq<nat>, ghost detached: seq<bool>)
      returns (result: Reply<bool>, ghost flipped: bool)
      requires Valid() && i == |detached| < |linked| && Is(acts, me, CloseRest(pr, linked[i..]))
      requires touched == Retried(linked, hears, detached, outcomes)
      modifies this, store
      ensures Valid() && Is(acts, me, if result.Raised? then None else CloseRest(pr, linked[i + 1..]))
      ensures result == HandedResult(Heard(hears, linked[i]), flipped, Answer(outcomes, i))
      ensures Did(me) == HandedBack(old(Did(me)), me, Heard(hears, linked[i]), flipped, Answer(outcomes, i))
      ensures Alone() && HandingOver(old(Now()), me, pr, linked, hears, touched, detached) ==>
                HandingOver(Now(), me, pr, linked, hears,
                            if result == Answered(true) then touched + [linked[i]] else touched, detached + [flipped])
    {
      assert linked[i..] == [linked[i]] + linked[i + 1..];
      ghost var before := Now();
      Interfere(me);
      result, flipped := HandBack(me, pr, linked[i], linked[i + 1..], Heard(hears, linked[i]), Answer(outcomes, i));
      if Alone() && HandingOver(before, me, pr, linked, hears, touched, detached) {
        NextPointsAt(before, me, pr, linked, hears, touched, detached, outcomes);
        HandedOne(before, Now(), me, pr, linked, hears, touched, detached, flipped, result == Answered(true));
      }
    }

    method HandBackNext(me: nat, pr: string, linked: seq<nat>, i: nat, hears: map<nat, IssueData>,
                        outcomes: seq<Publication>, touched: seq<nat>, ghost detached: seq<bool>,
                        ghost log: seq<Step>)
      returns (touched': seq<nat>, raised: bool, ghost detached': seq<bool>)
      requires Valid() && i == |detached| < |linked| && Is(acts, me, CloseRest(pr, linked[i..]))
      requires Did(me) == AllHandedBack(log, me, linked, hears, detached, outcomes)
      requires touched == Retried(linked, hears, detached, outcomes) && NoneRaised(linked, hears, detached, outcomes)
      modifies this, store
      ensures Valid() && Is(acts, me, if raised then None else CloseRest(pr, linked[i + 1..]))
      ensures |detached'| == i + 1 && Did(me) == AllHandedBack(log, me, linked, hears, detached', outcomes)
      ensures touched' == Retried(linked, hears, detached', outcomes)
      ensures if raised then HandsUntil(linked, hears, detached', outcomes, true)
              else NoneRaised(linked, hears, detached', outcomes)
      ensures Alone() && HandingOver(old(Now()), me, pr, linked, hears, touched, detached) ==>
                HandingOver(Now(), me, pr, linked, hears, touched', detached')
    {
      var result, flipped := HandBackOne(me, pr, linked, i, hears, outcomes, touched, detached);
      HandedBackMore(log, me, linked, hears, detached, flipped, outcomes);
      detached' := detached + [flipped];
      assert detached'[..i] == detached;
      raised := result.Raised?;
      touched' := if result == Answered(true) then touched + [linked[i]] else touched;
    }

    /** Hands the linked issues back one after the other, until the broker refuses one. */
    method HandBackAll(me: nat, pr: string, linked: seq<nat>, hears: map<nat, IssueData>, outcomes: seq<Publication>)
      returns (touched: seq<nat>, raised: bool, ghost detached: seq<bool>)
      requires Valid() && Is(acts, me, CloseRest(pr, linked))
      modifies this, store
      ensures Valid() && me !in acts && |detached| <= |linked|
      ensures Did(me) == AllHandedBack(old(Did(me)), me, linked, hears, detached, outcomes)
      ensures touched == Retried(linked, hears, detached, outcomes)
      ensures HandsUntil(linked, hears, detached, outcomes, raised)
      ensures Alone() && HandingOver(old(Now()), me, pr, linked, hears, [], []) ==>
                HandingOver(Now(), me, pr, linked, hears, touched, detached)
    {
      touched, detached := [], [];
      ghost var log := Did(me);
      ghost var quiet := Alone() && HandingOver(Now(), me, pr, linked, hears, [], []);
      for i := 0 to |linked|
        invariant Valid() && Is(acts, me, CloseRest(pr, linked[i..])) && |detached| == i
        invariant Did(me) == AllHandedBack(log, me, linked, hears, detached, outcomes)
        invariant touched == Retried(linked, hears, detached, outcomes)
        invariant NoneRaised(linked, hears, detached, outcomes)
        invariant quiet ==> HandingOver(Now(), me, pr, linked, hears, touched, detached)
      {
        touched, raised, detached := HandBackNext(me, pr, linked, i, hears, outcomes, touched, detached, log);
        if raised {
          return;
        }
      }
      raised := false;
    }

    /** The same for linked issues in ascending order, as GitHub describes them. */
    method HandBackLinked(me: nat, pr: string, linked: seq<nat>, hears: map<nat, IssueData>,
                          outcomes: seq<Publication>)
      returns (touched: seq<nat>, raised: bool, ghost detached: seq<bool>)
      requires Valid() && Is(acts, me, CloseRest(pr, linked)) && Ascends(linked)
      modifies this, store
      ensures Valid() && me !in acts && HandsUntil(linked, hears, detached, outcomes, raised)
      ensures Did(me) == AllHandedBack(old(Did(me)), me, linked, hears, detached, outcomes)
      ensures touched == Retried(linked, hears, detached, outcomes)
      ensures forall n: nat :: n in touched ==>
                n in linked && n in hears && "devin-remediate" in hears[n].labels && hears[n].state == "open"
      ensures var was, now := DetachedIn(old(Did(me))), DetachedIn(Did(me));
              && was <= now
              && forall issue: Issue :: issue in now[|was|..] <==>
                   && issue.number in linked[..|detached|] && issue.number in hears
                   && "devin-remediate" in hears[issue.number].labels && hears[issue.number].state == "open"
                   && issue.title == hears[issue.number].title && issue.url == hears[issue.number].url
      ensures Alone() && (forall n :: n in linked ==> PointsAt(old(store.rows), pr, n)) ==>
                && HandingOver(Now(), me, pr, linked, hears, touched, detached)
                && (AllAccepted(outcomes) ==>
                      && !raised && Ascends(touched)
                      && forall n: nat :: n in touched <==>
                           && n in linked && n in hears
                           && "devin-remediate" in hears[n].labels && hears[n].state == "open")
    {
      assert (forall n :: n in linked ==> PointsAt(store.rows, pr, n)) ==>
          HandingOver(Now(), me, pr, linked, hears, [], []);
      touched, raised, detached := HandBackAll(me, pr, linked, hears, outcomes);
      ReportedWereOpen(linked, hears, detached, outcomes);
      DetachStands(old(Did(me)), me, linked, hears, detached, outcomes);
      if Alone() && AllAccepted(outcomes) && HandingOver(Now(), me, pr, linked, hears, touched, detached) {
        ReportedExactly(linked, hears, detached, outcomes);
        assert !raised;
        assert linked[..|detached|] == linked;
      }
    }

    /** A pull request was closed unmerged. `hears` is what GitHub answers about linked issues. */
    method HandlePrClosed(me: nat, pr: string, hears: map<nat, IssueData>, outcomes: seq<Publication>)
      returns (touched: seq<nat>, raised: bool, ghost detached: seq<bool>)
      requires Valid() && me !in acts && pr != ""
      modifies this, store
      ensures Valid() && me !in acts
      ensures HandlesClosed(old(Did(me)), Did(me), me, pr, Ascending(LinkedTo(old(store.rows), pr)), hears, outcomes,
                            touched, raised, detached)
      ensures forall n: nat :: n in touched ==>
                && n in hears && "devin-remediate" in hears[n].labels && hears[n].state == "open"
                && n in old(store.rows) && old(store.rows)[n].prUrl == Some(pr)
                && old(store.rows)[n].status != Running
      ensures var reached := Ascending(LinkedTo(old(store.rows), pr))[..|detached|];
              var was, now := DetachedIn(old(Did(me))), DetachedIn(Did(me));
              && was <= now
              && forall issue: Issue :: issue in now[|was|..] <==>
                   && issue.number in reached && issue.number in hears
                   && "devin-remediate" in hears[issue.number].labels && hears[issue.number].state == "open"
                   && issue.title == hears[issue.number].title && issue.url == hears[issue.number].url
      ensures Alone() ==>
                && (forall n: nat :: n in old(store.rows) && old(store.rows)[n].prUrl == Some(pr)
                                     && old(store.rows)[n].status != Running ==>
                      n in store.rows && store.rows[n].prUrl == Some(if n in touched then "" else pr))
                && (forall n: nat :: n in touched ==>
                      n in hears && InQueue(acts, me, RemediateMsg(Issue(n, hears[n].title, hears[n].url), true)))
      ensures Alone() && AllAccepted(outcomes) ==>
                && !raised && (forall i, j :: 0 <= i < j < |touched| ==> touched[i] < touched[j])
                && forall n: nat :: n in touched <==>
                     && n in old(store.rows) && old(store.rows)[n].prUrl == Some(pr)
                     && old(store.rows)[n].status != Running
                     && n in hears && "devin-remediate" in hears[n].labels && hears[n].state == "open"
    {
      var linked := FindLinked(me, pr);
      DetachesMore(old(Did(me)), PrClosed(me, pr));
      touched, raised, detached := HandBackLinked(me, pr, linked, hears, outcomes);
    }

    method FindTracked(me: nat, newPr: Option<string>, n: nat, ghost rest: seq<nat>) returns (tracked: bool)
      requires Valid() && Is(acts, me, Some(Opening(newPr, [n] + rest)))
      modifies this
      ensures Valid() && (tracked <==> n in store.rows) && Did(me) == old(Did(me)) + [CheckTracked(me)]
      ensures Is(acts, me, if tracked then Some(Tracked(n, newPr, rest)) else OpenRest(newPr, rest))
    {
      tracked := n in store.rows;
      assert acts[me].refs[0] == n && acts[me].refs[1..] == rest;
      Move(Now(), CheckTracked(me));
    }

    method RecordOpened(me: nat, newPr: Option<string>, n: nat, ghost rest: seq<nat>)
      requires Valid() && Is(acts, me, Some(Tracked(n, newPr, rest)))
      modifies this, store
      ensures Valid() && Is(acts, me, OpenRest(newPr, rest)) && old(store.rows).Keys <= store.rows.Keys
      ensures Did(me) == old(Did(me)) + [SaveOpened(me)]
      ensures n in store.rows && store.rows[n].status == Completed && store.rows - {n} == old(store.rows) - {n}
      ensures store.rows[n].prUrl ==
              if newPr.Some? then newPr else if n in old(store.rows) then old(store.rows)[n].prUrl else None
    {
      var s := Now();
      var _ := store.Upsert(n, NO_CHANGE.(status := Some(Completed), prUrl := newPr));
      Move(s, SaveOpened(me));
    }

    /** The handler of an opened pull request after its first references. */
    ghost predicate Going(log: seq<Step>, before: Rows, me: nat, newPr: Option<string>, refs: seq<nat>,
                          touched: seq<nat>, tracked: seq<bool>)
      reads this, store
    {
      && Valid() && |tracked| <= |refs| && Is(acts, me, OpenRest(newPr, refs[|tracked|..]))
      && Did(me) == AllCompleted(log, me, tracked) && touched == Picked(refs, tracked)
      && before.Keys <= store.rows.Keys && FindsKnown(refs, tracked, before.Keys)
      && (Alone() ==> Completing(before, store.rows, newPr, refs, tracked))
    }

    /** Completes one referenced issue if it is tracked. */
    method CompleteOne(me: nat, newPr: Option<string>, n: nat, ghost rest: seq<nat>) returns (tracked: bool)
      requires Valid() && Is(acts, me, Some(Opening(newPr, [n] + rest)))
      modifies this, store
      ensures Valid() && Is(acts, me, OpenRest(newPr, rest)) && old(store.rows).Keys <= store.rows.Keys
      ensures n in old(store.rows) ==> tracked
      ensures Did(me) == if tracked then old(Did(me)) + [CheckTracked(me)] + [SaveOpened(me)]
                         else old(Did(me)) + [CheckTracked(me)]
      ensures Alone() ==> CompletesRow(old(store.rows), store.rows, newPr, n, tracked)
    {
      Interfere(me);
      tracked := FindTracked(me, newPr, n, rest);
      if tracked {
        Interfere(me);
        RecordOpened(me, newPr, n, rest);
      }
    }

    method CompleteNext(me: nat, newPr: Option<string>, refs: seq<nat>, i: nat, ghost log: seq<Step>,
                        ghost before: Rows, ghost touched: seq<nat>, ghost tracked: seq<bool>) returns (found: bool)
      requires i == |tracked| < |refs| && Going(log, before, me, newPr, refs, touched, tracked)
      modifies this, store
      ensures Going(log, before, me, newPr, refs, if found then touched + [refs[i]] else touched, tracked + [found])
    {
      ghost var rest, rows := refs[i + 1..], store.rows;
      assert refs[i..] == [refs[i]] + rest;
      found := CompleteOne(me, newPr, refs[i], rest);
      assert |tracked + [found]| == i + 1;
      CompletedMore(log, me, refs, tracked, found, before.Keys);
      if Alone() {
        CompletedOne(before, rows, store.rows, newPr, refs, tracked, found);
      }
    }

    /** Completes the tracked ones of the referenced issues in turn. */
    method CompleteAll(me: nat, newPr: Option<string>, refs: seq<nat>)
      returns (touched: seq<nat>, ghost tracked: seq<bool>)
      requires Valid() && Is(acts, me, OpenRest(newPr, refs)) && Ascends(refs)
      modifies this, store
      ensures Valid() && me !in acts && |tracked| == |refs|
      ensures Did(me) == AllCompleted(old(Did(me)), me, tracked) && touched == Picked(refs, tracked)
      ensures FindsKnown(refs, tracked, old(store.rows).Keys)
      ensures Alone() ==> Completing(old(store.rows), store.rows, newPr, refs, tracked)
    {
      touched, tracked := [], [];
      ghost var log, before := Did(me), store.rows;
      for i := 0 to |refs|
        invariant |tracked| == i && Going(log, before, me, newPr, refs, touched, tracked)
      {
        var found := CompleteNext(me, newPr, refs, i, log, before, touched, tracked);
        if found {
          touched := touched + [refs[i]];
        }
        tracked := tracked + [found];
      }
    }

    method FindReferenced(me: nat, title: Option<string>, body: Option<string>, newPr: Option<string>)
      returns (refs: seq<nat>)
      requires Valid() && me !in acts
      modifies this
      ensures Valid() && Is(acts, me, OpenRest(newPr, refs))
      ensures refs == Ascending(ReferencedIssues(title, body))
      ensures Did(me) == old(Did(me)) + [PrOpened(me, newPr, ReferencedIssues(title, body))]
    {
      var numbers := ReferencedIssues(title, body);
      refs := Ascending(numbers);
      Move(Now(), PrOpened(me, newPr, numbers));
    }

    /** A pull request was opened: every tracked issue it refers to is completed by it. */
    method HandlePrOpened(me: nat, title: Option<string>, body: Option<string>, newPr: Option<string>)
      returns (touched: seq<nat>, ghost tracked: seq<bool>)
      requires Valid() && me !in acts
      modifies this, store
      ensures Valid() && me !in acts
      ensures HandlesOpened(old(Did(me)), Did(me), me, newPr, ReferencedIssues(title, body), old(store.rows).Keys,
                            touched, tracked)
      ensures forall i, j :: 0 <= i < j < |touched| ==> touched[i] < touched[j]
      ensures forall n: nat :: n in touched ==> n in ReferencedIssues(title, body)
      ensures forall n: nat :: n in ReferencedIssues(title, body) && n in old(store.rows) ==> n in touched
      ensures Alone() ==>
                && (forall n: nat :: n in touched ==>
                      && n in old(store.rows) && n in store.rows && store.rows[n].status == Completed
                      && store.rows[n].prUrl == if newPr.Some? then newPr else old(store.rows)[n].prUrl)
                && (forall n: nat :: n in old(store.rows) && n !in ReferencedIssues(title, body) ==>
                      n in store.rows && store.rows[n] == old(store.rows)[n])
    {
      var refs := FindReferenced(me, title, body, newPr);
      touched, tracked := CompleteAll(me, newPr, refs);
      PickedExactly(refs, tracked, old(store.rows).Keys);
      if Alone() {
        CompletedInFull(old(store.rows), store.rows, newPr, ReferencedIssues(title, body), tracked);
      }
    }

    /** The delivery decides: an open pull request completes what it refers to, an abandoned one hands its
        issues back, and anything else is left alone. */
    method HandlePullRequest(me: nat, d: Delivery, hears: map<nat, IssueData>, outcomes: seq<Publication>)
      returns (touched: seq<nat>, raised: bool, ghost found: seq<bool>)
      requires Valid() && me !in acts
      modifies this, store
      ensures Valid() && me !in acts
      ensures d.action in {"opened", "reopened", "ready_for_review"} && d.state == "open" ==>
                !raised && HandlesOpened(old(Did(me)), Did(me), me, d.url, ReferencedIssues(d.title, d.body),
                                         old(store.rows).Keys, touched, found)
      ensures d.action == "closed" && !d.merged && d.url.Some? && d.url.value != "" ==>
                && HandlesClosed(old(Did(me)), Did(me), me, d.url.value,
                                 Ascending(LinkedTo(old(store.rows), d.url.value)), hears, outcomes, touched, raised,
                                 found)
                && forall n: nat :: n in touched ==>
                     && n in hears && "devin-remediate" in hears[n].labels && hears[n].state == "open"
                     && n in old(store.rows) && old(store.rows)[n].prUrl == d.url
                     && old(store.rows)[n].status != Running
      ensures && !(d.action in {"opened", "reopened", "ready_for_review"} && d.state == "open")
              && !(d.action == "closed" && !d.merged && d.url.Some? && d.url.value != "") ==>
                touched == [] && !raised && Now() == old(Now()) && Did(me) == old(Did(me))
    {
      if (d.action == "opened" || d.action == "reopened" || d.action == "ready_for_review") && d.state == "open" {
        touched, found := HandlePrOpened(me, d.title, d.body, d.url);
        return touched, false, found;
      }
      if d.action == "closed" && !d.merged && Truthy(d.url) {
        touched, raised, found := HandlePrClosed(me, d.url.value, hears, outcomes);
        return touched, raised, found;
      }
      return [], false, [];
    }

    method BeginEdit(me: nat, n: nat, title: Option<string>, url: Option<string>)
      requires Valid() && me !in acts && n in store.rows
      modifies this
      ensures Valid() && Is(acts, me, Some(Editing(n, title, url)))
      ensures Did(me) == old(Did(me)) + [IssueEdited(me, n, title, url)]
    {
      Move(Now(), IssueEdited(me, n, title, url));
    }

    method RecordEdit(me: nat, n: nat, title: Option<string>, url: Option<string>)
      requires Valid() && Is(acts, me, Some(Editing(n, title, url)))
      modifies this, store
      ensures Valid() && me !in acts && Did(me) == old(Did(me)) + [SaveEdit(me)]
      ensures n in store.rows && (title.Some? ==> store.rows[n].title == title.value)
                              && (url.Some? ==> store.rows[n].issueUrl == url.value)
    {
      var s := Now();
      var _ := store.Upsert(n, NO_CHANGE.(title := title, issueUrl := url));
      Move(s, SaveEdit(me));
    }

    /** A tracked issue was edited: its title and URL follow. */
    method HandleIssueEdited(me: nat, n: nat, title: Option<string>, url: Option<string>) returns (updated: bool)
      requires Valid() && me !in acts
      modifies this, store
      ensures Valid() && me !in acts && (updated <==> n in old(store.rows))
      ensures Did(me) == if updated then old(Did(me)) + [IssueEdited(me, n, title, url)] + [SaveEdit(me)]
                         else old(Did(me))
      ensures updated ==> n in store.rows && (title.Some? ==> store.rows[n].title == title.value)
                                          && (url.Some? ==> store.rows[n].issueUrl == url.value)
    {
      updated := n in store.rows;
      if updated {
        BeginEdit(me, n, title, url);
        Interfere(me);
        RecordEdit(me, n, title, url);
      }
    }
  }
}
