/** How many sessions can be under creation for one issue at the same time. */
module CreationBound {
  import opened Options
  import opened Sets
  import opened Table
  import opened StoreLog
  import opened Protocol

  /** The activity won the claim for issue `n` and has not yet recorded how creation went. */
  predicate Creates(a: Act, n: nat) {
    (a.Creating? || a.Created? || a.CreateFailed?) && a.n == n
  }

  function Creators(acts: map<nat, Act>, n: nat): set<nat> {
    set id | id in acts && Creates(acts[id], n)
  }

  /** Row `n` is running, session-less and leased until `until`. */
  predicate LeasedForCreation(db: Db, n: nat, until: Time) {
    IsRunning(db, n) && db.rows[n].sessionId.None? && db.rows[n].leaseUntil == Some(until)
  }

  predicate Guards(s: State, id: nat, n: nat) {
    id in s.acts && Creates(s.acts[id], n) && LeasedForCreation(s.db, n, s.acts[id].lease)
  }

  /** The row is reserved for a creator that is still at work. */
  ghost predicate Reserved(s: State, n: nat) {
    exists id :: Guards(s, id, n)
  }

  /** Every creator at work is within its creation lease. */
  predicate Timely(s: State, n: nat) {
    forall id :: id in Creators(s.acts, n) ==> s.db.now <= s.acts[id].lease
  }

  /** The step writes the row of issue `n`. */
  predicate Writes(s: State, e: Step, n: nat) {
    Fits(s, e) && !EventOf(s, e).Elapse? && EventOf(s, e).n == n
  }

  /** An open pull request is recorded for the issue. */
  predicate Completes(s: State, e: Step, n: nat) {
    (e.MarkCompleted? || e.SaveOpened?) && Writes(s, e, n)
  }

  /** A poll saves that its session ended, or a failed creation drops the lease: the second half of a
      pair of calls whose first half may by then be out of date. */
  predicate Late(s: State, e: Step, n: nat) {
    && Writes(s, e, n)
    && (e.DropLease? || (e.SaveHop? && EventOf(s, e).patch.status != Some(Running)))
  }

  /** The step takes away a reservation that a creator still relies on. */
  ghost predicate Disturbs(s: State, e: Step, n: nat) {
    Reserved(s, n) && (Completes(s, e, n) || Late(s, e, n))
  }

  ghost function Disturbances(ss: seq<State>, es: seq<Step>, n: nat, k: nat): nat
    requires k <= |es| <= |ss|
  {
    if k == 0 then 0 else Disturbances(ss, es, n, k - 1) + (if Disturbs(ss[k - 1], es[k - 1], n) then 1 else 0)
  }

  ghost function Completions(ss: seq<State>, es: seq<Step>, n: nat, k: nat): nat
    requires k <= |es| <= |ss|
  {
    if k == 0 then 0
    else Completions(ss, es, n, k - 1) + (if Reserved(ss[k - 1], n) && Completes(ss[k - 1], es[k - 1], n) then 1 else 0)
  }

  // --- one step ----------------------------------------------------------------------------

  predicate IsCreator(acts: map<nat, Act>, id: nat, n: nat) {
    id in acts && Creates(acts[id], n)
  }

  lemma OtherCreatorsKeep(s: State, e: Step, n: nat, id: nat)
    requires Guard(s, e) && (e.Wait? || id != e.id)
    ensures IsCreator(ActsAfter(s, e), id, n) == IsCreator(s.acts, id, n)
    ensures IsCreator(s.acts, id, n) ==> ActsAfter(s, e)[id] == s.acts[id]
  {
    OthersAlike(s, e, id);
  }

  function Own(acts: map<nat, Act>, e: Step, n: nat): nat {
    if !e.Wait? && IsCreator(acts, e.id, n) then 1 else 0
  }

  /** Two sets of activities that differ at most in `id`. */
  lemma CreatorsDiffer(before: map<nat, Act>, after: map<nat, Act>, n: nat, id: nat)
    requires forall a :: a != id ==> IsCreator(before, a, n) == IsCreator(after, a, n)
    ensures |Creators(after, n)| == |Creators(before, n)|
            - (if IsCreator(before, id, n) then 1 else 0) + (if IsCreator(after, id, n) then 1 else 0)
  {
    forall a | a != id
      ensures a in Creators(before, n) <==> a in Creators(after, n)
    {
      assert IsCreator(before, a, n) == IsCreator(after, a, n);
    }
    DifferInOne(Creators(before, n), Creators(after, n), id);
  }

  lemma CreatorsStep(s: State, e: Step, n: nat)
    requires Guard(s, e)
    ensures |Creators(ActsAfter(s, e), n)| == |Creators(s.acts, n)| - Own(s.acts, e, n) + Own(ActsAfter(s, e), e, n)
  {
    var after := ActsAfter(s, e);
    if !e.Wait? {
      forall id | id != e.id
        ensures IsCreator(s.acts, id, n) == IsCreator(after, id, n)
      {
        OtherCreatorsKeep(s, e, n, id);
      }
      CreatorsDiffer(s.acts, after, n, e.id);
    }
  }

  /** A creator starts only by a grant, and the grant reserves the row for it. */
  lemma CreatorStarts(s: State, e: Step, n: nat)
    requires Guard(s, e) && Own(ActsAfter(s, e), e, n) == 1 && Own(s.acts, e, n) == 0
    ensures Grants(s.db, EventOf(s, e), n)
    ensures Guards(Then(s, e), e.id, n)
  {
  }

  /** A live reservation refuses every claim. */
  lemma ReservedRefuses(s: State, n: nat)
    requires Reserved(s, n) && Timely(s, n)
    ensures !CanClaim(s.db.rows, n, s.db.now)
  {
    var id :| Guards(s, id, n);
    assert id in Creators(s.acts, n);
  }

  /** The table keeps a row leased for creation through every call but those that end the creation. */
  lemma LeaseKept(db: Db, ev: Event, n: nat, until: Time)
    requires Valid(db) && LeasedForCreation(db, n, until) && db.now <= until
    requires ev.UpsertCall? && ev.n == n ==> ev.patch.status in {None, Some(Running)} && ev.patch.sessionId.None?
    requires !BareRelease(ev, n)
    ensures LeasedForCreation(Next(db, ev), n, until)
  {
    assert RowOk(db, db.rows[n]);
  }

  /** A reservation is lost only with its creator or by a disturbance. */
  lemma ReservationStep(s: State, e: Step, n: nat)
    requires Guard(s, e) && Valid(s.db) && Timely(s, n)
    requires Reserved(s, n) && !Disturbs(s, e, n)
    ensures Reserved(Then(s, e), n) || Own(ActsAfter(s, e), e, n) < Own(s.acts, e, n)
  {
    var id :| Guards(s, id, n);
    assert id in Creators(s.acts, n);
    if e.Wait? || Own(ActsAfter(s, e), e, n) == Own(s.acts, e, n) || Own(s.acts, e, n) == 0 {
      QuietWrite(s, e, n);
      LeaseKept(s.db, EventOf(s, e), n, s.acts[id].lease);
      StaysCreator(s, e, n, id);
      assert Guards(Then(s, e), id, n);
    }
  }

  /** A step that neither ends a creation nor disturbs writes no session and no status but running. */
  lemma QuietWrite(s: State, e: Step, n: nat)
    requires Guard(s, e) && !Completes(s, e, n) && !Late(s, e, n)
    requires e.Wait? || Own(ActsAfter(s, e), e, n) >= Own(s.acts, e, n)
    ensures var ev := EventOf(s, e);
            && (ev.UpsertCall? && ev.n == n ==> ev.patch.status in {None, Some(Running)} && ev.patch.sessionId.None?)
            && !BareRelease(ev, n)
  {
  }

  lemma StaysCreator(s: State, e: Step, n: nat, id: nat)
    requires Guard(s, e) && IsCreator(s.acts, id, n)
    requires e.Wait? || Own(ActsAfter(s, e), e, n) >= Own(s.acts, e, n)
    ensures IsCreator(ActsAfter(s, e), id, n) && ActsAfter(s, e)[id].lease == s.acts[id].lease
  {
    if e.Wait? || id != e.id {
      OtherCreatorsKeep(s, e, n, id);
    }
  }

  // --- what takes a reservation away -------------------------------------------------------

  /** Another creator of the issue, left over from an earlier disturbance, writes how its own ended. */
  predicate Settles(s: State, e: Step, n: nat) {
    Writes(s, e, n) && ((e.SaveSession? && e.saved) || e.SaveFailed?)
  }

  /** None of these, no loss. */
  lemma ReservationHeld(s: State, e: Step, n: nat, id: nat)
    requires Guard(s, e) && Valid(s.db) && Timely(s, n)
    requires Guards(s, id, n) && (e.Wait? || e.id != id)
    requires !Completes(s, e, n) && !Late(s, e, n) && !Settles(s, e, n)
    ensures Guards(Then(s, e), id, n)
  {
    assert id in Creators(s.acts, n);
    OtherCreatorsKeep(s, e, n, id);
    HarmlessWrite(s, e, n);
    LeaseKept(s.db, EventOf(s, e), n, s.acts[id].lease);
  }

  lemma HarmlessWrite(s: State, e: Step, n: nat)
    requires Guard(s, e) && !Completes(s, e, n) && !Late(s, e, n) && !Settles(s, e, n)
    ensures var ev := EventOf(s, e);
            && (ev.UpsertCall? && ev.n == n ==> ev.patch.status in {None, Some(Running)} && ev.patch.sessionId.None?)
            && !BareRelease(ev, n)
  {
  }

  lemma ReservationLost(s: State, e: Step, n: nat)
    requires Guard(s, e) && Reserved(s, n)
    requires Completes(s, e, n) || Late(s, e, n) || Settles(s, e, n)
    ensures !Reserved(Then(s, e), n)
    ensures !(e.SaveSession? && e.saved) ==> CanClaim(Then(s, e).db.rows, n, s.db.now)
  {
  }

  /** While the creator that guards the row goes on, and on time, a step of anybody else takes the
      reservation away if and only if it records a pull request, writes late, or settles another
      creation; and unless it saves a session for that other creation, the issue can be claimed again
      at once. */
  lemma ReservationExact(s: State, e: Step, n: nat, id: nat)
    requires Guard(s, e) && Valid(s.db) && Timely(s, n)
    requires Guards(s, id, n) && (e.Wait? || e.id != id)
    ensures !Reserved(Then(s, e), n) <==> Completes(s, e, n) || Late(s, e, n) || Settles(s, e, n)
    ensures !Reserved(Then(s, e), n) && !(e.SaveSession? && e.saved) ==> CanClaim(Then(s, e).db.rows, n, s.db.now)
  {
    if Completes(s, e, n) || Late(s, e, n) || Settles(s, e, n) {
      ReservationLost(s, e, n);
    } else {
      ReservationHeld(s, e, n, id);
    }
  }

  // --- the bound ---------------------------------------------------------------------------

  ghost function Open(s: State, n: nat): nat {
    if Reserved(s, n) then 0 else 1
  }

  lemma BoundStep(s: State, e: Step, n: nat)
    requires Guard(s, e) && Valid(s.db) && Timely(s, n)
    ensures |Creators(ActsAfter(s, e), n)| + Open(Then(s, e), n)
            <= |Creators(s.acts, n)| + Open(s, n) + (if Disturbs(s, e, n) then 1 else 0)
  {
    CreatorsStep(s, e, n);
    if Own(ActsAfter(s, e), e, n) == 1 && Own(s.acts, e, n) == 0 {
      CreatorStarts(s, e, n);
      if Reserved(s, n) {
        ReservedRefuses(s, n);
      }
    } else if Reserved(s, n) && !Disturbs(s, e, n) {
      ReservationStep(s, e, n);
    }
  }

  // --- whole runs --------------------------------------------------------------------------

  ghost predicate AlwaysTimely(ss: seq<State>, n: nat) {
    forall k :: 0 <= k < |ss| ==> Timely(ss[k], n)
  }

  /** Sessions under creation for one issue never exceed one plus the writes that took a reservation
      away from a creator still at work. */
  lemma {:induction false} CreatorsBounded(ss: seq<State>, es: seq<Step>, n: nat, k: nat)
    requires IsExecution(ss, es) && ss[0] == EMPTY && AlwaysTimely(ss, n) && k <= |es|
    ensures |Creators(ss[k].acts, n)| + Open(ss[k], n) <= 1 + Disturbances(ss, es, n, k)
  {
    if k == 0 {
      assert Creators(ss[0].acts, n) == {};
    } else {
      var s, e := ss[k - 1], es[k - 1];
      CreatorsBounded(ss, es, n, k - 1);
      AlwaysValid(ss, es, k - 1);
      assert Guard(s, e) && ss[k] == Then(s, e) && Timely(s, n);
      BoundStep(s, e, n);
    }
  }

  // --- pairs of calls that run as one ------------------------------------------------------

  /** The activity is between the two calls of a pair: a poll's ownership check and its write, or the
      two writes that settle a failed creation. */
  predicate MidPair(a: Act, n: nat) {
    (a.HopOwned? || a.HopSaving? || a.Settling?) && a.n == n
  }

  /** The status and the session of row `n`, if there is one. */
  function Standing(db: Db, n: nat): Option<(Status, Option<string>)> {
    if n in db.rows then Some((db.rows[n].status, db.rows[n].sessionId)) else None
  }

  /** The step changes them; a refused call, a lease or an edited title does not. */
  predicate Shifts(s: State, e: Step, n: nat) {
    !e.Wait? && Fits(s, e) && Standing(Next(s.db, EventOf(s, e)), n) != Standing(s.db, n)
  }

  /** Nobody else shifts the row while a pair is open on it. */
  ghost predicate PairsUncut(ss: seq<State>, es: seq<Step>, n: nat) {
    |es| <= |ss| &&
    forall k, id :: 0 <= k < |es| && id in ss[k].acts && MidPair(ss[k].acts[id], n) && Shifts(ss[k], es[k], n)
      ==> es[k].id == id
  }

  /** What the first call of an open pair saw still holds. */
  predicate PairFresh(s: State, id: nat, n: nat) {
    id in s.acts && MidPair(s.acts[id], n) ==>
      && n in s.db.rows
      && (s.acts[id].Settling? ==> s.db.rows[n].status == Failed)
      && (!s.acts[id].Settling? ==> s.db.rows[n].sessionId.Some?)
  }

  lemma UnshiftedKeeps(s: State, e: Step, n: nat)
    requires Guard(s, e) && !Shifts(s, e, n)
    ensures Standing(Then(s, e).db, n) == Standing(s.db, n)
  {
  }

  /** Three steps lead into a pair or on within it. */
  lemma PairOpens(s: State, e: Step, n: nat)
    requires Guard(s, e) && !e.Wait? && Becomes(s, e).Some? && MidPair(Becomes(s, e).value, n)
    ensures e.CheckOwner? || e.FetchSession? || e.SaveFailed?
  {
  }

  lemma OpenedFresh(s: State, e: Step, n: nat)
    requires Guard(s, e) && (e.CheckOwner? || e.FetchSession? || e.SaveFailed?) && PairFresh(s, e.id, n)
    requires Becomes(s, e).Some? && MidPair(Becomes(s, e).value, n)
    ensures var rows := Next(s.db, EventOf(s, e)).rows;
            && n in rows
            && (Becomes(s, e).value.Settling? ==> rows[n].status == Failed)
            && (!Becomes(s, e).value.Settling? ==> rows[n].sessionId.Some?)
  {
  }

  /** The step that opens a pair has just seen what it relies on. */
  lemma OwnPairFresh(s: State, e: Step, n: nat)
    requires Guard(s, e) && !e.Wait? && PairFresh(s, e.id, n)
    ensures PairFresh(Then(s, e), e.id, n)
  {
    OwnAct(s, e);
    if Becomes(s, e).Some? && MidPair(Becomes(s, e).value, n) {
      PairOpens(s, e, n);
      OpenedFresh(s, e, n);
    }
  }

  /** The pair of another activity outlives a step that does not shift its row. */
  lemma OtherPairFresh(s: State, e: Step, n: nat, id: nat)
    requires Guard(s, e) && (e.Wait? || e.id != id) && PairFresh(s, id, n)
    requires id in s.acts && MidPair(s.acts[id], n) ==> !Shifts(s, e, n)
    ensures PairFresh(Then(s, e), id, n)
  {
    if id in s.acts {
      OtherActs(s, e, id);
      if MidPair(s.acts[id], n) {
        UnshiftedKeeps(s, e, n);
      }
    }
  }

  lemma PairFreshStep(s: State, e: Step, n: nat, id: nat)
    requires Guard(s, e) && PairFresh(s, id, n)
    requires id in s.acts && MidPair(s.acts[id], n) && Shifts(s, e, n) ==> e.id == id
    ensures PairFresh(Then(s, e), id, n)
  {
    if e.Wait? || e.id != id {
      OtherPairFresh(s, e, n, id);
    } else {
      OwnPairFresh(s, e, n);
    }
  }

  lemma {:induction false} PairsStayFresh(ss: seq<State>, es: seq<Step>, n: nat, k: nat)
    requires IsExecution(ss, es) && ss[0] == EMPTY && PairsUncut(ss, es, n) && k < |ss|
    ensures forall id :: PairFresh(ss[k], id, n)
  {
    if k > 0 {
      PairsStayFresh(ss, es, n, k - 1);
      assert Guard(ss[k - 1], es[k - 1]) && ss[k] == Then(ss[k - 1], es[k - 1]);
      forall id
        ensures PairFresh(ss[k], id, n)
      {
        assert PairFresh(ss[k - 1], id, n);
        PairFreshStep(ss[k - 1], es[k - 1], n, id);
      }
    }
  }

  /** A late write whose pair is fresh finds no reservation to take away. */
  lemma FreshIsHarmless(s: State, e: Step, n: nat)
    requires Guard(s, e) && !e.Wait? && PairFresh(s, e.id, n) && Late(s, e, n)
    ensures !Reserved(s, n)
  {
  }

  /** With fresh pairs only a completion disturbs. */
  lemma NoLateLoss(s: State, e: Step, n: nat)
    requires Guard(s, e) && (Late(s, e, n) ==> PairFresh(s, e.id, n))
    ensures Disturbs(s, e, n) <==> Reserved(s, n) && Completes(s, e, n)
  {
    if Late(s, e, n) {
      FreshIsHarmless(s, e, n);
    }
  }

  lemma {:induction false} CountsAgree(ss: seq<State>, es: seq<Step>, n: nat, k: nat)
    requires k <= |es| <= |ss|
    requires forall j :: 0 <= j < k ==>
               (Disturbs(ss[j], es[j], n) <==> Reserved(ss[j], n) && Completes(ss[j], es[j], n))
    ensures Disturbances(ss, es, n, k) == Completions(ss, es, n, k)
  {
    if k > 0 {
      CountsAgree(ss, es, n, k - 1);
    }
  }

  lemma OnlyCompletionsDisturb(ss: seq<State>, es: seq<Step>, n: nat, k: nat)
    requires IsExecution(ss, es) && ss[0] == EMPTY && PairsUncut(ss, es, n) && k <= |es|
    ensures Disturbances(ss, es, n, k) == Completions(ss, es, n, k)
  {
    forall j | 0 <= j < k
      ensures Disturbs(ss[j], es[j], n) <==> Reserved(ss[j], n) && Completes(ss[j], es[j], n)
    {
      PairsStayFresh(ss, es, n, j);
      assert Guard(ss[j], es[j]);
      if Late(ss[j], es[j], n) {
        assert PairFresh(ss[j], es[j].id, n);
      }
      NoLateLoss(ss[j], es[j], n);
    }
    CountsAgree(ss, es, n, k);
  }

  /** When each pair runs uncut and creators finish within their leases, live create_session calls for
      an issue never exceed one plus the pull requests recorded over a creation. With none of those
      there is at most one creator, and the row stays running, session-less and leased to it. */
  lemma CreationBounded(ss: seq<State>, es: seq<Step>, n: nat, k: nat)
    requires IsExecution(ss, es) && ss[0] == EMPTY && k <= |es|
    requires AlwaysTimely(ss, n) && PairsUncut(ss, es, n)
    ensures |Creators(ss[k].acts, n)| <= 1 + Completions(ss, es, n, k)
    ensures Completions(ss, es, n, k) == 0 ==>
              |Creators(ss[k].acts, n)| <= 1 &&
              forall id :: id in Creators(ss[k].acts, n) ==> LeasedForCreation(ss[k].db, n, ss[k].acts[id].lease)
  {
    CreatorsBounded(ss, es, n, k);
    OnlyCompletionsDisturb(ss, es, n, k);
    var live := Creators(ss[k].acts, n);
    if Completions(ss, es, n, k) == 0 && live != {} {
      var x :| x in live;
      CountWithout(live, x);
      assert |live - {x}| == 0;
      assert live == {x};
      var id :| Guards(ss[k], id, n);
      assert id in live;
    }
  }

  // --- both pairs matter -------------------------------------------------------------------

  /** A step at time 0 that leaves every creator on time and records no pull request over a creation. */
  ghost predicate QuietStep(s: State, e: Step, s': State, n: nat) {
    && Guard(s, e) && s' == Then(s, e) && s'.db.now == 0 && Timely(s', n)
    && !(Reserved(s, n) && Completes(s, e, n))
  }

  /** An execution of such steps from nothing to `s`. */
  ghost predicate Story(ss: seq<State>, es: seq<Step>, s: State, n: nat) {
    && |ss| == |es| + 1 && ss[0] == EMPTY && ss[|es|] == s
    && forall k :: 0 <= k < |es| ==> QuietStep(ss[k], es[k], ss[k + 1], n)
  }

  lemma {:induction false} StoryTold(ss: seq<State>, es: seq<Step>, s: State, n: nat)
    requires Story(ss, es, s, n)
    ensures IsExecution(ss, es) && AlwaysTimely(ss, n) && Completions(ss, es, n, |es|) == 0
  {
    forall k | 0 <= k < |es|
      ensures Guard(ss[k], es[k]) && ss[k + 1] == Then(ss[k], es[k])
    {
      assert QuietStep(ss[k], es[k], ss[k + 1], n);
    }
    forall k | 0 <= k < |ss|
      ensures Timely(ss[k], n)
    {
      assert k > 0 ==> QuietStep(ss[k - 1], es[k - 1], ss[k - 1 + 1], n);
    }
    NothingRecorded(ss, es, n, |es|);
  }

  lemma {:induction false} NothingRecorded(ss: seq<State>, es: seq<Step>, n: nat, k: nat)
    requires |ss| == |es| + 1 && k <= |es|
    requires forall j :: 0 <= j < |es| ==> QuietStep(ss[j], es[j], ss[j + 1], n)
    ensures Completions(ss, es, n, k) == 0
  {
    if k > 0 {
      NothingRecorded(ss, es, n, k - 1);
      assert QuietStep(ss[k - 1], es[k - 1], ss[k - 1 + 1], n);
    }
  }

  /** No creator is overdue at time 0. */
  predicate OnTime(acts: map<nat, Act>, n: nat) {
    forall id :: id in Creators(acts, n) ==> 0 <= acts[id].lease
  }

  /** A story goes on with any step that takes no time, as long as the activities it leaves are known. */
  lemma Tell(ss: seq<State>, es: seq<Step>, s: State, e: Step, acts: map<nat, Act>, n: nat)
    returns (ss': seq<State>, es': seq<Step>, s': State)
    requires Story(ss, es, s, n) && Guard(s, e) && !e.Wait? && s.db.now == 0
    requires acts == ActsAfter(s, e) && OnTime(acts, n)
    requires Creators(s.acts, n) == {} || !Completes(s, e, n)
    ensures es' == es + [e] && s' == Then(s, e) && s'.acts == acts && s'.db.now == 0
    ensures Story(ss', es', s', n)
  {
    s' := Then(s, e);
    ss', es' := ss + [s'], es + [e];
    if Reserved(s, n) {
      var id :| Guards(s, id, n);
      assert id in Creators(s.acts, n);
    }
    assert QuietStep(s, e, s', n);
  }

  /** The steps of a forced task that finds no pull request and claims the issue. */
  function WinningSteps(id: nat, i: Issue): seq<Step> {
    [Enqueue(id, i, true), GetStatus(id)] + [LookUpPr(id, None)] + [Claim(id)]
  }

  lemma LookAround(ss: seq<State>, es: seq<Step>, s: State, id: nat, i: Issue, force: bool)
    returns (ss': seq<State>, es': seq<Step>, s': State)
    requires Story(ss, es, s, i.number) && s.db.now == 0 && id !in s.acts && OnTime(s.acts, i.number)
    ensures Story(ss', es', s', i.number) && es' == es + [Enqueue(id, i, force), GetStatus(id)]
    ensures s'.db == s.db
    ensures s'.acts == s.acts[id := LookingForPr(i, force, StatusIn(s.db.rows, i.number))]
  {
    var n := i.number;
    ss', es', s' := Tell(ss, es, s, Enqueue(id, i, force), s.acts[id := RemediateMsg(i, force)], n);
    ss', es', s' := Tell(ss', es', s', GetStatus(id), s.acts[id := LookingForPr(i, force, StatusIn(s.db.rows, n))], n);
  }

  lemma FindNoPr(ss: seq<State>, es: seq<Step>, s: State, id: nat, i: Issue)
    returns (ss': seq<State>, es': seq<Step>, s': State)
    requires Story(ss, es, s, i.number) && s.db.now == 0 && id !in s.acts && OnTime(s.acts, i.number)
    ensures Story(ss', es', s', i.number) && es' == es + [Enqueue(id, i, true), GetStatus(id)] + [LookUpPr(id, None)]
    ensures s' == State(s.db, s.acts[id := Claiming(i)])
  {
    ss', es', s' := LookAround(ss, es, s, id, i, true);
    ss', es', s' := Tell(ss', es', s', LookUpPr(id, None), s.acts[id := Claiming(i)], i.number);
  }

  lemma WinClaim(ss: seq<State>, es: seq<Step>, s: State, id: nat, i: Issue)
    returns (ss': seq<State>, es': seq<Step>, s': State)
    requires Story(ss, es, s, i.number) && s.db.now == 0 && id !in s.acts && OnTime(s.acts, i.number)
    requires CanClaim(s.db.rows, i.number, 0)
    ensures Story(ss', es', s', i.number) && es' == es + WinningSteps(id, i)
    ensures s'.db == Next(s.db, ClaimCall(i.number, i.title, i.url)) && s'.db.now == 0
    ensures s'.acts == s.acts[id := Creating(i.number, CREATE_LEASE)] && OnTime(s'.acts, i.number)
  {
    ss', es', s' := FindNoPr(ss, es, s, id, i);
    ss', es', s' := Tell(ss', es', s', Claim(id), s.acts[id := Creating(i.number, CREATE_LEASE)], i.number);
  }

  /** A first creation ends without a session or with one. */
  lemma FirstReply(i: Issue, reply: Option<(string, Option<string>)>) returns (ss: seq<State>, es: seq<Step>, s: State)
    requires reply.Some? ==> reply.value.0 != ""
    ensures Story(ss, es, s, i.number) && LeasedForCreation(s.db, i.number, CREATE_LEASE)
    ensures s.db.now == 0 && s.db.issued == {}
    ensures s.acts == map[0 := if reply.Some? then Created(i.number, CREATE_LEASE, reply.value.0, reply.value.1)
                               else CreateFailed(i.number, CREATE_LEASE)]
    ensures es == WinningSteps(0, i) + [SessionReply(0, reply)]
  {
    var n := i.number;
    ss, es, s := WinClaim([EMPTY], [], EMPTY, 0, i);
    ss, es, s := Tell(ss, es, s, SessionReply(0, reply),
                      map[0 := if reply.Some? then Created(n, CREATE_LEASE, reply.value.0, reply.value.1)
                               else CreateFailed(n, CREATE_LEASE)], n);
  }

  /** It failed, with the bare release still to come. */
  lemma FirstFails(i: Issue) returns (ss: seq<State>, es: seq<Step>, s: State)
    ensures Story(ss, es, s, i.number) && s.db.now == 0 && CanClaim(s.db.rows, i.number, 0)
    ensures s.acts == map[0 := Settling(i.number)]
    ensures es == WinningSteps(0, i) + [SessionReply(0, None)] + [SaveFailed(0)]
  {
    var n := i.number;
    ss, es, s := FirstReply(i, None);
    ss, es, s := Tell(ss, es, s, SaveFailed(0), map[0 := Settling(n)], n);
  }

  /** A second creation is under way when that release clears its lease. */
  lemma LateRelease(i: Issue) returns (ss: seq<State>, es: seq<Step>, s: State)
    ensures Story(ss, es, s, i.number) && s.db.now == 0 && CanClaim(s.db.rows, i.number, 0)
    ensures s.acts == map[1 := Creating(i.number, CREATE_LEASE)]
    ensures es == WinningSteps(0, i) + [SessionReply(0, None)] + [SaveFailed(0)]
                  + WinningSteps(1, i) + [DropLease(0)]
  {
    ss, es, s := FirstFails(i);
    ss, es, s := WinClaim(ss, es, s, 1, i);
    ss, es, s := Tell(ss, es, s, DropLease(0), map[1 := Creating(i.number, CREATE_LEASE)], i.number);
  }

  /** From any state at all these steps are possible one right after the other, and they start a creation
      exactly when the issue can be claimed. */
  lemma TakesOver(s: State, id: nat, i: Issue) returns (ss: seq<State>)
    requires id !in s.acts
    ensures IsExecution(ss, WinningSteps(id, i)) && ss[0] == s
    ensures ss[4].acts == if CanClaim(s.db.rows, i.number, s.db.now)
                          then s.acts[id := Creating(i.number, s.db.now + CREATE_LEASE)] else s.acts
  {
    var s2, s3 := Looks(s, id, i);
    var s4, s5 := Claims(s3, id, i);
    ss := [s, s2, s3, s4, s5];
    FourSteps(ss, WinningSteps(id, i));
  }

  lemma FourSteps(ss: seq<State>, es: seq<Step>)
    requires |ss| == 5 && |es| == 4
    requires Guard(ss[0], es[0]) && ss[1] == Then(ss[0], es[0])
    requires Guard(ss[1], es[1]) && ss[2] == Then(ss[1], es[1])
    requires Guard(ss[2], es[2]) && ss[3] == Then(ss[2], es[2])
    requires Guard(ss[3], es[3]) && ss[4] == Then(ss[3], es[3])
    ensures IsExecution(ss, es)
  {
    forall k | 0 <= k < 4
      ensures Guard(ss[k], es[k]) && ss[k + 1] == Then(ss[k], es[k])
    {
      assert k == 0 || k == 1 || k == 2 || k == 3;
    }
  }

  lemma Looks(s: State, id: nat, i: Issue) returns (s2: State, s3: State)
    requires id !in s.acts
    ensures Guard(s, Enqueue(id, i, true)) && s2 == Then(s, Enqueue(id, i, true))
    ensures Guard(s2, GetStatus(id)) && s3 == Then(s2, GetStatus(id))
    ensures s3 == State(s.db, s.acts[id := LookingForPr(i, true, StatusIn(s.db.rows, i.number))])
  {
    s2 := Then(s, Enqueue(id, i, true));
    assert s2 == State(s.db, s.acts[id := RemediateMsg(i, true)]);
    s3 := Then(s2, GetStatus(id));
  }

  lemma Claims(s: State, id: nat, i: Issue) returns (s2: State, s3: State)
    requires id in s.acts && s.acts[id].LookingForPr? && s.acts[id].issue == i && s.acts[id].force
    ensures Guard(s, LookUpPr(id, None)) && s2 == Then(s, LookUpPr(id, None))
    ensures Guard(s2, Claim(id)) && s3 == Then(s2, Claim(id))
    ensures s3.acts == if CanClaim(s.db.rows, i.number, s.db.now)
                       then s.acts[id := Creating(i.number, s.db.now + CREATE_LEASE)] else s.acts - {id}
  {
    s2 := Then(s, LookUpPr(id, None));
    assert s2 == State(s.db, s.acts[id := Claiming(i)]);
    s3 := Then(s2, Claim(id));
  }

  /** So a creator that guards the row, and goes on in time, can be joined by a second one right after a
      step of somebody else if and only if that step records a pull request, writes late, or settles the
      failure of another creation. */
  lemma SecondCreatorExact(s: State, e: Step, i: Issue, id: nat, other: nat) returns (ss: seq<State>)
    requires Guard(s, e) && Valid(s.db) && Timely(s, i.number) && Timely(Then(s, e), i.number)
    requires Guards(s, id, i.number) && (e.Wait? || e.id != id) && other !in ActsAfter(s, e)
    ensures IsExecution(ss, WinningSteps(other, i)) && ss[0] == Then(s, e)
    ensures IsCreator(ss[4].acts, id, i.number)
    ensures IsCreator(ss[4].acts, other, i.number) <==>
            Completes(s, e, i.number) || Late(s, e, i.number) || (Settles(s, e, i.number) && e.SaveFailed?)
  {
    var n := i.number;
    ss := TakesOver(Then(s, e), other, i);
    StaysCreating(s, e, n, id);
    ClaimableExact(s, e, n, id);
  }

  lemma StaysCreating(s: State, e: Step, n: nat, id: nat)
    requires Guard(s, e) && IsCreator(s.acts, id, n) && (e.Wait? || e.id != id)
    ensures IsCreator(Then(s, e).acts, id, n)
  {
    OtherCreatorsKeep(s, e, n, id);
  }

  lemma ClaimableExact(s: State, e: Step, n: nat, id: nat)
    requires Guard(s, e) && Valid(s.db) && Timely(s, n) && Timely(Then(s, e), n)
    requires Guards(s, id, n) && (e.Wait? || e.id != id)
    ensures CanClaim(Then(s, e).db.rows, n, Then(s, e).db.now) <==>
            Completes(s, e, n) || Late(s, e, n) || (Settles(s, e, n) && e.SaveFailed?)
  {
    if Completes(s, e, n) || Late(s, e, n) || Settles(s, e, n) {
      ReservationLost(s, e, n);
      SessionSaved(s, e, n);
    } else {
      ReservationHeld(s, e, n, id);
      ReservedRefuses(Then(s, e), n);
    }
  }

  /** A saved session closes the issue to newcomers, and nothing that writes takes time. */
  lemma SessionSaved(s: State, e: Step, n: nat)
    requires Guard(s, e) && Writes(s, e, n)
    ensures Then(s, e).db.now == s.db.now
    ensures e.SaveSession? && e.saved ==> !CanClaim(Then(s, e).db.rows, n, s.db.now)
  {
  }

  /** Cut the pair that settles a failed creation, and the promise of one creation per issue fails
      although every creator is on time and no pull request is ever recorded: the late release clears
      the lease of the next creation, and a third task claims the issue. */
  lemma SettlementRace(i: Issue) returns (ss: seq<State>, es: seq<Step>, s: State)
    ensures IsExecution(ss, es) && ss[0] == EMPTY && ss[|es|] == s && AlwaysTimely(ss, i.number)
    ensures es == WinningSteps(0, i) + [SessionReply(0, None)] + [SaveFailed(0)]
                  + WinningSteps(1, i) + [DropLease(0)] + WinningSteps(2, i)
    ensures Creators(s.acts, i.number) == {1, 2}
  {
    ss, es, s := LateRelease(i);
    ss, es, s := WinClaim(ss, es, s, 2, i);
    StoryTold(ss, es, s, i.number);
  }

  /** No creation fails, so the pair that settles a failure is never opened. */
  predicate NoneFails(es: seq<Step>) {
    forall k :: 0 <= k < |es| ==> !es[k].SaveFailed?
  }

  /** A session is created, and its chain claimed. */
  lemma FirstSession(i: Issue) returns (ss: seq<State>, es: seq<Step>, s: State)
    ensures Story(ss, es, s, i.number) && NoneFails(es) && s.db.now == 0 && IsRunning(s.db, i.number)
    ensures s.db.rows[i.number].sessionId == Some("s") && s.db.issued == {}
    ensures s.acts == map[0 := Arming([ArmReq(i.number, "s", false)])]
  {
    var n := i.number;
    ss, es, s := FirstReply(i, Some(("s", None)));
    ss, es, s := Tell(ss, es, s, SaveSession(0, true), map[0 := Arming([ArmReq(n, "s", false)])], n);
  }

  lemma FirstToken(i: Issue) returns (ss: seq<State>, es: seq<Step>, s: State)
    ensures Story(ss, es, s, i.number) && NoneFails(es) && s.db.now == 0 && Owns(s.db, i.number, "s", "t")
    ensures s.acts == map[0 := Publishing(i.number, "s", "t", [])]
  {
    ss, es, s := FirstSession(i);
    assert [ArmReq(i.number, "s", false)][1..] == [];
    ss, es, s := Tell(ss, es, s, ArmNext(0, "t"), map[0 := Publishing(i.number, "s", "t", [])], i.number);
  }

  /** Its first poll is scheduled. */
  lemma FirstChain(i: Issue) returns (ss: seq<State>, es: seq<Step>, s: State)
    ensures Story(ss, es, s, i.number) && NoneFails(es) && s.db.now == 0 && Owns(s.db, i.number, "s", "t")
    ensures s.acts == map[1 := PollMsg(i.number, "s", "t")]
  {
    ss, es, s := FirstToken(i);
    ss, es, s := Tell(ss, es, s, Publish(0, 1, Accepted), map[1 := PollMsg(i.number, "s", "t")], i.number);
  }

  /** The poll has the answer that the session failed, and has not saved it yet. */
  lemma FirstPoll(i: Issue) returns (ss: seq<State>, es: seq<Step>, s: State)
    ensures Story(ss, es, s, i.number) && NoneFails(es) && s.db.now == 0 && IsRunning(s.db, i.number)
    ensures s.acts == map[1 := HopSaving(i.number, "s", "t", Failed, None)]
  {
    var n := i.number;
    ss, es, s := FirstChain(i);
    ss, es, s := Tell(ss, es, s, CheckOwner(1), map[1 := HopOwned(n, "s", "t")], n);
    var answer := HopReply(Failed, None, Some(None));
    ss, es, s := Tell(ss, es, s, FetchSession(1, Some(answer)), map[1 := HopSaving(n, "s", "t", Failed, None)], n);
  }

  /** Meanwhile another task finds an open pull request. */
  lemma FoundMeanwhile(i: Issue) returns (ss: seq<State>, es: seq<Step>, s: State)
    ensures Story(ss, es, s, i.number) && NoneFails(es) && s.db.now == 0
    ensures s.acts == map[0 := PrKnown(i, "p"), 1 := HopSaving(i.number, "s", "t", Failed, None)]
  {
    var n := i.number;
    ss, es, s := FirstPoll(i);
    var poll := HopSaving(n, "s", "t", Failed, None);
    ss, es, s := LookAround(ss, es, s, 0, i, false);
    ss, es, s := Tell(ss, es, s, LookUpPr(0, Some("p")), map[0 := PrKnown(i, "p"), 1 := poll], n);
  }

  /** The issue is completed. */
  lemma CompletedMeanwhile(i: Issue) returns (ss: seq<State>, es: seq<Step>, s: State)
    ensures Story(ss, es, s, i.number) && NoneFails(es) && s.db.now == 0 && CanClaim(s.db.rows, i.number, 0)
    ensures s.acts == map[1 := HopSaving(i.number, "s", "t", Failed, None)]
  {
    var n := i.number;
    ss, es, s := FoundMeanwhile(i);
    ss, es, s := Tell(ss, es, s, MarkCompleted(0), map[1 := HopSaving(n, "s", "t", Failed, None)], n);
  }

  /** The issue is claimed anew, and the poll marks that creation failed. */
  lemma StaleSave(i: Issue) returns (ss: seq<State>, es: seq<Step>, s: State)
    ensures Story(ss, es, s, i.number) && NoneFails(es) && s.db.now == 0 && CanClaim(s.db.rows, i.number, 0)
    ensures s.acts == map[1 := GivingBack(i.number, "t", []), 2 := Creating(i.number, CREATE_LEASE)]
  {
    ss, es, s := CompletedMeanwhile(i);
    ss, es, s := WinClaim(ss, es, s, 2, i);
    ss, es, s := Tell(ss, es, s, SaveHop(1),
                      map[1 := GivingBack(i.number, "t", []), 2 := Creating(i.number, CREATE_LEASE)], i.number);
  }

  /** A third task claims the issue. */
  lemma ClaimedAgain(i: Issue) returns (ss: seq<State>, es: seq<Step>, s: State)
    ensures Story(ss, es, s, i.number) && NoneFails(es)
    ensures s.acts == map[1 := GivingBack(i.number, "t", []), 2 := Creating(i.number, CREATE_LEASE),
                          3 := Creating(i.number, CREATE_LEASE)]
  {
    ss, es, s := StaleSave(i);
    ss, es, s := WinClaim(ss, es, s, 3, i);
  }

  /** Cut the pair of a poll, and the promise fails as well, with no creation failing, every creator on
      time and no pull request recorded over a creation: while the poll is away the issue is completed and then claimed
      anew; the poll marks that creation failed, and a third task claims the issue. */
  lemma StalePollRace(i: Issue) returns (ss: seq<State>, es: seq<Step>, s: State)
    ensures IsExecution(ss, es) && ss[0] == EMPTY && ss[|es|] == s && AlwaysTimely(ss, i.number)
    ensures Completions(ss, es, i.number, |es|) == 0 && NoneFails(es)
    ensures Creators(s.acts, i.number) == {2, 3}
  {
    ss, es, s := ClaimedAgain(i);
    StoryTold(ss, es, s, i.number);
  }
}
