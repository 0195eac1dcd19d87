/** Poll chains: one activity per poll token, and a chain whose token has left its row dies out. */
module PollChains {
  import opened Options
  import opened Table
  import opened StoreLog
  import opened Protocol

  /** The token an activity will still poll or renew with. A refused publish only gives its token back. */
  function Carries(a: Act): Option<Token> {
    match a
    case PollMsg(_, _, t) => Some(t)
    case Publishing(_, _, t, _) => Some(t)
    case HopOwned(_, _, t) => Some(t)
    case HopSaving(_, _, t, _, _) => Some(t)
    case Renewing(_, _, t) => Some(t)
    case _ => None
  }

  predicate Carrier(s: State, id: nat, t: Token) {
    id in s.acts && Carries(s.acts[id]) == Some(t)
  }

  ghost predicate OneCarrier(s: State) {
    && (forall id, t :: Carrier(s, id, t) ==> t in s.db.issued)
    && (forall a, b, t :: Carrier(s, a, t) && Carrier(s, b, t) ==> a == b)
  }

  /** An activity goes on carrying the same token, or has just drawn it. */
  lemma OwnCarrier(s: State, e: Step, t: Token)
    requires Guard(s, e) && !e.Wait? && Becomes(s, e).Some? && Carries(Becomes(s, e).value) == Some(t)
    ensures Carrier(s, e.id, t) || (e.ArmNext? && t == e.token)
  {
  }

  /** A message that carries a token takes it over from its sender. */
  lemma SentCarrier(s: State, e: Step, t: Token)
    requires Guard(s, e) && Sends(s, e).Some? && Carries(Sends(s, e).value.1) == Some(t)
    ensures e.Publish? && Carrier(s, e.id, t) && !Carrier(Then(s, e), e.id, t)
  {
    OwnAct(s, e);
  }

  /** Where a carrier of the next state comes from. */
  lemma CarrierOrigin(s: State, e: Step, id: nat, t: Token)
    requires Guard(s, e) && Carrier(Then(s, e), id, t)
    ensures
      || Carrier(s, id, t)
      || (e.ArmNext? && id == e.id && t == e.token)
      || (e.Publish? && id == e.msg && Carrier(s, e.id, t) && !Carrier(Then(s, e), e.id, t))
  {
    if !e.Wait? && id == e.id {
      OwnAct(s, e);
      OwnCarrier(s, e, t);
    } else {
      ActSource(s, e, id);
      if !Carrier(s, id, t) {
        SentCarrier(s, e, t);
      }
    }
  }

  lemma OneCarrierStep(s: State, e: Step)
    requires OneCarrier(s) && Guard(s, e)
    ensures OneCarrier(Then(s, e))
  {
    var s' := Then(s, e);
    forall id, t | Carrier(s', id, t)
      ensures t in s'.db.issued
    {
      CarrierOrigin(s, e, id, t);
    }
    forall a, b, t | Carrier(s', a, t) && Carrier(s', b, t)
      ensures a == b
    {
      CarrierOrigin(s, e, a, t);
      CarrierOrigin(s, e, b, t);
    }
  }

  /** In every reachable state each poll token is carried by at most one activity, so of all polls,
      claims and renewals in flight for an issue at most one can pass its ownership check. */
  lemma {:induction false} SingleOwnerChain(ss: seq<State>, es: seq<Step>, k: nat)
    requires IsExecution(ss, es) && ss[0] == EMPTY && k < |ss|
    ensures OneCarrier(ss[k])
    ensures forall a, b, n :: MayPoll(ss[k], a, n) && MayPoll(ss[k], b, n) ==> a == b
  {
    if k > 0 {
      SingleOwnerChain(ss, es, k - 1);
      assert Guard(ss[k - 1], es[k - 1]) && ss[k] == Then(ss[k - 1], es[k - 1]);
      OneCarrierStep(ss[k - 1], es[k - 1]);
    }
    forall a, b, n | MayPoll(ss[k], a, n) && MayPoll(ss[k], b, n)
      ensures a == b
    {
      var t := ss[k].db.rows[n].pollToken.value;
      assert Carrier(ss[k], a, t) && Carrier(ss[k], b, t);
    }
  }

  /** The activity carries the token that owns row `n`. */
  predicate MayPoll(s: State, id: nat, n: nat) {
    && id in s.acts && n in s.db.rows && s.db.rows[n].pollToken.Some?
    && Carries(s.acts[id]) == s.db.rows[n].pollToken
  }

  // --- dead chains -------------------------------------------------------------------------

  /** A poll with token `t` is queued or about to be. */
  predicate Queued(a: Act, t: Token) {
    (a.PollMsg? || a.Publishing?) && a.token == t
  }

  ghost predicate SomeQueued(s: State, t: Token) {
    exists id :: id in s.acts && Queued(s.acts[id], t)
  }

  ghost function Due(s: State, t: Token): nat {
    if SomeQueued(s, t) then 1 else 0
  }

  /** The step runs a delivered poll that carries `t`. */
  predicate Delivers(s: State, e: Step, t: Token) {
    e.CheckOwner? && e.id in s.acts && s.acts[e.id].PollMsg? && s.acts[e.id].token == t
  }

  function Deliveries(ss: seq<State>, es: seq<Step>, t: Token, i: nat, j: nat): nat
    requires i <= j <= |es| <= |ss|
  {
    if i == j then 0
    else Deliveries(ss, es, t, i, j - 1) + (if Delivers(ss[j - 1], es[j - 1], t) then 1 else 0)
  }

  /** A queued poll with a dead token was queued before. */
  lemma QueuedOrigin(s: State, e: Step, id: nat, t: Token)
    requires Guard(s, e) && Dead(s.db, t) && id in Then(s, e).acts && Queued(Then(s, e).acts[id], t)
    ensures (id in s.acts && Queued(s.acts[id], t)) || (e.Publish? && id == e.msg && Queued(s.acts[e.id], t))
  {
    if !e.Wait? && id == e.id {
      OwnAct(s, e);
      OwnQueued(s, e, t);
    } else {
      ActSource(s, e, id);
    }
  }

  /** No claim or renewal succeeds with a dead token. */
  lemma OwnQueued(s: State, e: Step, t: Token)
    requires Guard(s, e) && Dead(s.db, t) && !e.Wait? && Becomes(s, e).Some?
    ensures !Queued(Becomes(s, e).value, t)
  {
  }

  /** Its delivery ends it, for it cannot own a row. */
  lemma DeliveryEnds(s: State, e: Step, t: Token)
    requires Guard(s, e) && Dead(s.db, t) && Delivers(s, e, t)
    ensures e.id !in Then(s, e).acts && Queued(s.acts[e.id], t)
  {
  }

  lemma DeadChainStep(s: State, e: Step, t: Token)
    requires Guard(s, e) && OneCarrier(s) && Dead(s.db, t)
    ensures Due(Then(s, e), t) + (if Delivers(s, e, t) then 1 else 0) <= Due(s, t)
  {
    if Delivers(s, e, t) {
      DeliveryEnds(s, e, t);
      assert Carrier(s, e.id, t);
    }
    if id :| id in Then(s, e).acts && Queued(Then(s, e).acts[id], t) {
      QueuedOrigin(s, e, id, t);
      assert id in s.acts && Queued(s.acts[id], t) ==> Carrier(s, id, t);
    }
  }

  lemma {:induction false} DeadAlong(ss: seq<State>, es: seq<Step>, t: Token, i: nat, j: nat)
    requires IsExecution(ss, es) && i <= j < |ss| && Dead(ss[i].db, t)
    ensures Dead(ss[j].db, t)
  {
    if i < j {
      DeadAlong(ss, es, t, i, j - 1);
      assert Guard(ss[j - 1], es[j - 1]) && ss[j] == Then(ss[j - 1], es[j - 1]);
      DeadStep(ss[j - 1].db, EventOf(ss[j - 1], es[j - 1]), t);
    }
  }

  /** At step `k` a delivery uses up what was due. */
  ghost predicate UsesUp(ss: seq<State>, es: seq<Step>, t: Token, k: nat) {
    k < |es| && k + 1 < |ss| && Due(ss[k + 1], t) + (if Delivers(ss[k], es[k], t) then 1 else 0) <= Due(ss[k], t)
  }

  lemma DeadChainOnward(ss: seq<State>, es: seq<Step>, t: Token, i: nat, k: nat)
    requires IsExecution(ss, es) && ss[0] == EMPTY && i <= k < |es|
    requires Dead(ss[i].db, t)
    ensures UsesUp(ss, es, t, k)
  {
    SingleOwnerChain(ss, es, k);
    DeadAlong(ss, es, t, i, k);
    assert Guard(ss[k], es[k]) && ss[k + 1] == Then(ss[k], es[k]);
    DeadChainStep(ss[k], es[k], t);
  }

  lemma {:induction false} DeliveriesUsedUp(ss: seq<State>, es: seq<Step>, t: Token, i: nat, j: nat)
    requires i <= j <= |es| && |ss| == |es| + 1
    requires forall k :: i <= k < j ==> UsesUp(ss, es, t, k)
    ensures Deliveries(ss, es, t, i, j) + Due(ss[j], t) <= Due(ss[i], t)
  {
    if i < j {
      DeliveriesUsedUp(ss, es, t, i, j - 1);
      assert UsesUp(ss, es, t, j - 1);
    }
  }

  /** Once a token owns no row, its chain is delivered at most one more poll for the rest of the
      run, and none unless one was already queued. */
  lemma DeadChainEnds(ss: seq<State>, es: seq<Step>, t: Token, i: nat, j: nat)
    requires IsExecution(ss, es) && ss[0] == EMPTY && i <= j <= |es|
    requires Dead(ss[i].db, t)
    ensures Deliveries(ss, es, t, i, j) + Due(ss[j], t) <= Due(ss[i], t) <= 1
  {
    forall k | i <= k < j
      ensures UsesUp(ss, es, t, k)
    {
      DeadChainOnward(ss, es, t, i, k);
    }
    DeliveriesUsedUp(ss, es, t, i, j);
  }

  /** That last poll stops at its ownership check, and renewals and releases with a dead token leave
      the table as it is. */
  lemma DeadChainIsInert(ss: seq<State>, es: seq<Step>, t: Token, i: nat, k: nat)
    requires IsExecution(ss, es) && ss[0] == EMPTY && i <= k < |es|
    requires Dead(ss[i].db, t)
    ensures Dead(ss[k].db, t)
    ensures Delivers(ss[k], es[k], t) ==> es[k].id !in ss[k + 1].acts
    ensures CarriedBy(EventOf(ss[k], es[k]), t) ==> ss[k + 1].db == ss[k].db
  {
    DeadAlong(ss, es, t, i, k);
    SingleOwnerChain(ss, es, k);
    assert Guard(ss[k], es[k]) && ss[k + 1] == Then(ss[k], es[k]);
    if Delivers(ss[k], es[k], t) {
      DeliveryEnds(ss[k], es[k], t);
    }
    DeadStep(ss[k].db, EventOf(ss[k], es[k]), t);
  }
}
