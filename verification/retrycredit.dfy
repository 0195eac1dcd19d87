/** Closing a pull request hands an issue back at most once per recording of that pull request and per
    publish that raised although the broker had queued the retry. */
module RetryCredit {
  import opened Options
  import opened Sets
  import opened Table
  import opened StoreLog
  import opened Protocol

  /** A close handler of `pr` is between its detach of issue `n` and the end of its enqueue. */
  predicate Holds(a: Act, n: nat, pr: string) {
    || (a.Detached? && a.issue.number == n && a.pr == pr)
    || (a.Reattaching? && a.n == n && a.pr == pr)
  }

  function Holders(acts: map<nat, Act>, n: nat, pr: string): set<nat> {
    set id | id in acts && Holds(acts[id], n, pr)
  }

  function Points(db: Db, n: nat, pr: string): nat {
    if n in db.rows && db.rows[n].prUrl == Some(pr) then 1 else 0
  }

  predicate Records(s: State, e: Step, n: nat, pr: string) {
    Fits(s, e) && RecordsPr(EventOf(s, e), n, pr)
  }

  /** The step enqueues a forced retry of issue `n` because `pr` was closed. */
  predicate ForcesRetry(s: State, e: Step, n: nat, pr: string) {
    e.PublishRetry? && !e.outcome.Refused? && e.id in s.acts && Holds(s.acts[e.id], n, pr)
  }

  /** That retry is in the queue, yet its publish raised. */
  predicate Doubts(s: State, e: Step, n: nat, pr: string) {
    ForcesRetry(s, e, n, pr) && e.outcome.RefusedButQueued?
  }

  function Recordings(ss: seq<State>, es: seq<Step>, n: nat, pr: string, k: nat): nat
    requires k <= |es| <= |ss|
  {
    if k == 0 then 0 else Recordings(ss, es, n, pr, k - 1) + (if Records(ss[k - 1], es[k - 1], n, pr) then 1 else 0)
  }

  function ForcedRetries(ss: seq<State>, es: seq<Step>, n: nat, pr: string, k: nat): nat
    requires k <= |es| <= |ss|
  {
    if k == 0 then 0
    else ForcedRetries(ss, es, n, pr, k - 1) + (if ForcesRetry(ss[k - 1], es[k - 1], n, pr) then 1 else 0)
  }

  function Doubtful(ss: seq<State>, es: seq<Step>, n: nat, pr: string, k: nat): nat
    requires k <= |es| <= |ss|
  {
    if k == 0 then 0 else Doubtful(ss, es, n, pr, k - 1) + (if Doubts(ss[k - 1], es[k - 1], n, pr) then 1 else 0)
  }

  predicate Holding(acts: map<nat, Act>, id: nat, n: nat, pr: string) {
    id in acts && Holds(acts[id], n, pr)
  }

  /** Only the acting activity can start or stop holding. */
  lemma OthersKeep(s: State, e: Step, n: nat, pr: string, id: nat)
    requires Guard(s, e) && (e.Wait? || id != e.id)
    ensures Holding(ActsAfter(s, e), id, n, pr) == Holding(s.acts, id, n, pr)
  {
    OthersAlike(s, e, id);
  }

  lemma HoldersDiffer(before: map<nat, Act>, after: map<nat, Act>, n: nat, pr: string, id: nat)
    requires forall a :: a != id ==> Holding(before, a, n, pr) == Holding(after, a, n, pr)
    ensures |Holders(after, n, pr)| == |Holders(before, n, pr)|
            - (if Holding(before, id, n, pr) then 1 else 0) + (if Holding(after, id, n, pr) then 1 else 0)
  {
    forall a | a != id
      ensures a in Holders(before, n, pr) <==> a in Holders(after, n, pr)
    {
      assert Holding(before, a, n, pr) == Holding(after, a, n, pr);
    }
    DifferInOne(Holders(before, n, pr), Holders(after, n, pr), id);
  }

  lemma HoldersStep(s: State, e: Step, n: nat, pr: string)
    requires Guard(s, e)
    ensures |Holders(ActsAfter(s, e), n, pr)| ==
            |Holders(s.acts, n, pr)| - Mine(s.acts, e, n, pr) + Mine(ActsAfter(s, e), e, n, pr)
  {
    var after := ActsAfter(s, e);
    if !e.Wait? {
      forall id | id != e.id
        ensures Holding(s.acts, id, n, pr) == Holding(after, id, n, pr)
      {
        OthersKeep(s, e, n, pr, id);
      }
      HoldersDiffer(s.acts, after, n, pr, e.id);
    }
  }

  /** The acting activity's share of the holders. */
  function Mine(acts: map<nat, Act>, e: Step, n: nat, pr: string): nat {
    if !e.Wait? && Holding(acts, e.id, n, pr) then 1 else 0
  }

  predicate Reattaches(db: Db, ev: Event, n: nat, pr: string) {
    ev.ReattachCall? && ev.n == n && ev.pr == pr && CanReattach(db.rows, n, ev.stamp)
  }

  predicate RecordsPr(ev: Event, n: nat, pr: string) {
    ev.UpsertCall? && ev.n == n && ev.patch.prUrl == Some(pr)
  }

  /** The row comes to point at `pr` only by a recording or a compensation, and a detach takes it away. */
  lemma PointsStep(db: Db, ev: Event, n: nat, pr: string)
    requires pr != ""
    ensures Points(Next(db, ev), n, pr) + (if Detaches(db, ev, n, pr) then 1 else 0)
            <= Points(db, n, pr) + (if RecordsPr(ev, n, pr) || Reattaches(db, ev, n, pr) then 1 else 0)
  {
  }

  /** A handler starts holding only by a detach. */
  lemma HoldingStarts(s: State, e: Step, n: nat, pr: string)
    requires Guard(s, e) && Mine(ActsAfter(s, e), e, n, pr) == 1 && Mine(s.acts, e, n, pr) == 0
    ensures Detaches(s.db, EventOf(s, e), n, pr)
  {
  }

  /** A retry ends its holding unless its publish raised, and is no compensation. */
  lemma RetryEndsHolding(s: State, e: Step, n: nat, pr: string)
    requires Guard(s, e) && ForcesRetry(s, e, n, pr)
    ensures Mine(s.acts, e, n, pr) == 1 && EventOf(s, e).Elapse?
    ensures Mine(ActsAfter(s, e), e, n, pr) == if Doubts(s, e, n, pr) then 1 else 0
  {
  }

  /** A compensation ends it. */
  lemma ReattachEndsHolding(s: State, e: Step, n: nat, pr: string)
    requires Guard(s, e) && Reattaches(s.db, EventOf(s, e), n, pr)
    ensures Mine(s.acts, e, n, pr) == 1 && Mine(ActsAfter(s, e), e, n, pr) == 0
  {
  }

  /** A handler starts holding only by a detach, and ends with a retry, a compensation or nothing. */
  lemma HolderStep(s: State, e: Step, n: nat, pr: string)
    requires Guard(s, e)
    ensures Mine(ActsAfter(s, e), e, n, pr) + (if ForcesRetry(s, e, n, pr) then 1 else 0)
            + (if Reattaches(s.db, EventOf(s, e), n, pr) then 1 else 0)
            <= Mine(s.acts, e, n, pr) + (if Detaches(s.db, EventOf(s, e), n, pr) then 1 else 0)
               + (if Doubts(s, e, n, pr) then 1 else 0)
  {
    if ForcesRetry(s, e, n, pr) {
      RetryEndsHolding(s, e, n, pr);
    } else if Reattaches(s.db, EventOf(s, e), n, pr) {
      ReattachEndsHolding(s, e, n, pr);
    } else if Mine(ActsAfter(s, e), e, n, pr) == 1 && Mine(s.acts, e, n, pr) == 0 {
      HoldingStarts(s, e, n, pr);
    }
  }

  /** One step never creates more claims to a retry than it records or leaves in doubt. */
  lemma CreditStep(s: State, e: Step, n: nat, pr: string)
    requires Guard(s, e) && pr != ""
    ensures Points(Then(s, e).db, n, pr) + |Holders(ActsAfter(s, e), n, pr)|
            + (if ForcesRetry(s, e, n, pr) then 1 else 0)
            <= Points(s.db, n, pr) + |Holders(s.acts, n, pr)| + (if RecordsPr(EventOf(s, e), n, pr) then 1 else 0)
               + (if Doubts(s, e, n, pr) then 1 else 0)
  {
    HoldersStep(s, e, n, pr);
    HolderStep(s, e, n, pr);
    PointsStep(s.db, EventOf(s, e), n, pr);
  }

  /** However often close deliveries are replayed or overlap, and whichever publishes fail, the forced
      retries sent for a pull request plus the claims still open on it never exceed the number of
      times it was recorded for the issue plus the number of its publishes that raised with the retry
      already queued. */
  lemma {:induction false} CreditConserved(ss: seq<State>, es: seq<Step>, n: nat, pr: string, k: nat)
    requires IsExecution(ss, es) && ss[0] == EMPTY && k <= |es| && pr != ""
    ensures Points(ss[k].db, n, pr) + |Holders(ss[k].acts, n, pr)| + ForcedRetries(ss, es, n, pr, k)
            <= Recordings(ss, es, n, pr, k) + Doubtful(ss, es, n, pr, k)
  {
    if k == 0 {
      assert Holders(ss[0].acts, n, pr) == {};
    } else {
      CreditConserved(ss, es, n, pr, k - 1);
      assert Guard(ss[k - 1], es[k - 1]) && ss[k] == Then(ss[k - 1], es[k - 1]);
      CreditStep(ss[k - 1], es[k - 1], n, pr);
    }
  }

  // --- a retry in doubt is a second retry ----------------------------------------------------

  datatype Tally = Tally(recorded: nat, forced: nat, doubtful: nat)

  function Plus(t: Tally, s: State, e: Step, n: nat, pr: string): Tally {
    Tally(t.recorded + (if Records(s, e, n, pr) then 1 else 0),
          t.forced + (if ForcesRetry(s, e, n, pr) then 1 else 0),
          t.doubtful + (if Doubts(s, e, n, pr) then 1 else 0))
  }

  function TallyAt(ss: seq<State>, es: seq<Step>, n: nat, pr: string, k: nat): Tally
    requires k <= |es| <= |ss|
  {
    Tally(Recordings(ss, es, n, pr, k), ForcedRetries(ss, es, n, pr, k), Doubtful(ss, es, n, pr, k))
  }

  lemma {:induction false} TallyKept(ss: seq<State>, es: seq<Step>, s: State, e: Step, n: nat, pr: string, k: nat)
    requires k <= |es| < |ss|
    ensures TallyAt(ss + [s], es + [e], n, pr, k) == TallyAt(ss, es, n, pr, k)
  {
    if k > 0 {
      TallyKept(ss, es, s, e, n, pr, k - 1);
    }
  }

  /** An execution to `s` with this tally. */
  ghost predicate Told(ss: seq<State>, es: seq<Step>, s: State, n: nat, pr: string, t: Tally) {
    IsExecution(ss, es) && ss[|es|] == s && TallyAt(ss, es, n, pr, |es|) == t
  }

  lemma Tell(ss: seq<State>, es: seq<Step>, s: State, e: Step, acts: map<nat, Act>, n: nat, pr: string, t: Tally)
    returns (ss': seq<State>, es': seq<Step>, s': State)
    requires Told(ss, es, s, n, pr, t) && Guard(s, e) && acts == ActsAfter(s, e)
    ensures s'.db == Next(s.db, EventOf(s, e)) && s'.acts == acts
    ensures |ss'| > 0 && ss'[0] == ss[0] && es' == es + [e]
    ensures Told(ss', es', s', n, pr, Plus(t, s, e, n, pr))
  {
    s' := Then(s, e);
    ss', es' := ss + [s'], es + [e];
    StepMore(ss, es, s, e);
    TallyKept(ss, es, s', e, n, pr, |es|);
  }

  lemma LooksForPr(i: Issue, pr: string) returns (ss: seq<State>, es: seq<Step>, s: State)
    requires pr != ""
    ensures |ss| > 0 && ss[0] == EMPTY
    ensures Told(ss, es, s, i.number, pr, Tally(0, 0, 0))
    ensures s == State(EMPTY.db, map[0 := LookingForPr(i, false, None)])
  {
    var n, none := i.number, Tally(0, 0, 0);
    ss, es, s := Tell([EMPTY], [], EMPTY, Enqueue(0, i, false), map[0 := RemediateMsg(i, false)], n, pr, none);
    ss, es, s := Tell(ss, es, s, GetStatus(0), map[0 := LookingForPr(i, false, None)], n, pr, none);
  }

  lemma FoundPr(i: Issue, pr: string) returns (ss: seq<State>, es: seq<Step>, s: State)
    requires pr != ""
    ensures |ss| > 0 && ss[0] == EMPTY
    ensures Told(ss, es, s, i.number, pr, Tally(0, 0, 0)) && s == State(EMPTY.db, map[0 := PrKnown(i, pr)])
  {
    ss, es, s := LooksForPr(i, pr);
    ss, es, s := Tell(ss, es, s, LookUpPr(0, Some(pr)), map[0 := PrKnown(i, pr)], i.number, pr, Tally(0, 0, 0));
  }

  /** The pull request is recorded once. */
  lemma RecordedOnce(i: Issue, pr: string) returns (ss: seq<State>, es: seq<Step>, s: State)
    requires pr != ""
    ensures |ss| > 0 && ss[0] == EMPTY
    ensures Told(ss, es, s, i.number, pr, Tally(1, 0, 0))
    ensures s.acts == map[] && s.db.rows.Keys == {i.number} && CanDetach(s.db.rows, i.number, pr)
  {
    ss, es, s := FoundPr(i, pr);
    ss, es, s := Tell(ss, es, s, MarkCompleted(0), map[], i.number, pr, Tally(0, 0, 0));
  }

  lemma OnlyLinked(rows: Rows, n: nat, pr: string)
    requires rows.Keys == {n} && CanDetach(rows, n, pr)
    ensures Ascending(LinkedTo(rows, pr)) == [n]
  {
    var r := Ascending(LinkedTo(rows, pr));
    assert LinkedTo(rows, pr) == {n};
    assert n in r;
    assert forall k :: 0 <= k < |r| ==> r[k] in r;
  }

  /** A delivery of its closing looks at the issue. */
  lemma CloseDelivered(ss: seq<State>, es: seq<Step>, s: State, id: nat, i: Issue, pr: string, t: Tally)
    returns (ss': seq<State>, es': seq<Step>, s': State)
    requires Told(ss, es, s, i.number, pr, t) && id !in s.acts && pr != ""
    requires s.db.rows.Keys == {i.number} && CanDetach(s.db.rows, i.number, pr)
    ensures |ss'| > 0 && ss'[0] == ss[0]
    ensures Told(ss', es', s', i.number, pr, t) && s' == State(s.db, s.acts[id := Inspected(i, pr, [])])
  {
    var n := i.number;
    OnlyLinked(s.db.rows, n, pr);
    ss', es', s' := Tell(ss, es, s, PrClosed(id, pr), s.acts[id := Closing(pr, [n])], n, pr, t);
    ss', es', s' := Tell(ss', es', s', InspectLinked(id, Some(i)), s.acts[id := Inspected(i, pr, [])], n, pr, t);
  }

  /** And detaches it. */
  lemma CloseDetaches(ss: seq<State>, es: seq<Step>, s: State, id: nat, i: Issue, pr: string, t: Tally)
    returns (ss': seq<State>, es': seq<Step>, s': State)
    requires Told(ss, es, s, i.number, pr, t) && id !in s.acts && pr != ""
    requires s.db.rows.Keys == {i.number} && CanDetach(s.db.rows, i.number, pr)
    ensures |ss'| > 0 && ss'[0] == ss[0]
    ensures Told(ss', es', s', i.number, pr, t) && s'.acts == s.acts[id := Detached(i, pr, s.db.now, [])]
    ensures s'.db.rows.Keys == {i.number} && CanReattach(s'.db.rows, i.number, s.db.now) && s'.db.now == s.db.now
  {
    ss', es', s' := CloseDelivered(ss, es, s, id, i, pr, t);
    ss', es', s' := Tell(ss', es', s', Detach(id), s.acts[id := Detached(i, pr, s.db.now, [])], i.number, pr, t);
  }

  // --- exactly when a replay retries again ---------------------------------------------------

  function With(acts: map<nat, Act>, id: nat, a: Option<Act>): map<nat, Act> {
    if a.None? then acts - {id} else acts[id := a.value]
  }

  /** What is left of `todo` once the issue `n` has been handed back. */
  function Beyond(todo: seq<nat>, n: nat): seq<nat> {
    if todo == [] then [] else if todo[0] == n then todo[1..] else Beyond(todo[1..], n)
  }

  /** The activities after that: the handler with what is left to it, and the retry, if there is one. */
  function HandledActs(acts: map<nat, Act>, id: nat, msg: nat, i: Issue, pr: string, todo: seq<nat>): map<nat, Act> {
    var handled := With(acts, id, CloseRest(pr, Beyond(todo, i.number)));
    if i.number in todo then handled[msg := RemediateMsg(i, true)] else handled
  }

  /** A close handler works through `todo` up to issue `i`, the only one still eligible, and retries it. */
  function ReplaySteps(id: nat, msg: nat, i: Issue, todo: seq<nat>): seq<Step> {
    if todo == [] then []
    else if todo[0] == i.number then
      [InspectLinked(id, Some(i))] + [Detach(id)] + [PublishRetry(id, msg, Accepted)]
    else [InspectLinked(id, None)] + ReplaySteps(id, msg, i, todo[1..])
  }

  lemma Passed(ss: seq<State>, es: seq<Step>, s: State, id: nat, n: nat, pr: string, todo: seq<nat>, t: Tally)
    returns (ss': seq<State>, es': seq<Step>, s': State)
    requires Told(ss, es, s, n, pr, t) && todo != [] && Is(s.acts, id, CloseRest(pr, todo))
    ensures |ss'| > 0 && ss'[0] == ss[0] && es' == es + [InspectLinked(id, None)] && Told(ss', es', s', n, pr, t)
    ensures s' == State(s.db, With(s.acts, id, CloseRest(pr, todo[1..])))
  {
    ss', es', s' := Tell(ss, es, s, InspectLinked(id, None), With(s.acts, id, CloseRest(pr, todo[1..])), n, pr, t);
  }

  lemma Looked(ss: seq<State>, es: seq<Step>, s: State, id: nat, i: Issue, pr: string, todo: seq<nat>, t: Tally)
    returns (ss': seq<State>, es': seq<Step>, s': State)
    requires Told(ss, es, s, i.number, pr, t)
    requires todo != [] && todo[0] == i.number && Is(s.acts, id, CloseRest(pr, todo))
    ensures |ss'| > 0 && ss'[0] == ss[0] && es' == es + [InspectLinked(id, Some(i))]
    ensures Told(ss', es', s', i.number, pr, t) && s' == State(s.db, s.acts[id := Inspected(i, pr, todo[1..])])
  {
    var after := s.acts[id := Inspected(i, pr, todo[1..])];
    ss', es', s' := Tell(ss, es, s, InspectLinked(id, Some(i)), after, i.number, pr, t);
  }

  lemma Reached(ss: seq<State>, es: seq<Step>, s: State, id: nat, i: Issue, pr: string, todo: seq<nat>, t: Tally)
    returns (ss': seq<State>, es': seq<Step>, s': State)
    requires Told(ss, es, s, i.number, pr, t)
    requires todo != [] && todo[0] == i.number && Is(s.acts, id, CloseRest(pr, todo))
    requires CanDetach(s.db.rows, i.number, pr)
    ensures |ss'| > 0 && ss'[0] == ss[0] && es' == es + [InspectLinked(id, Some(i))] + [Detach(id)]
    ensures Told(ss', es', s', i.number, pr, t)
    ensures s'.acts == s.acts[id := Detached(i, pr, s.db.now, todo[1..])]
  {
    ss', es', s' := Looked(ss, es, s, id, i, pr, todo, t);
    ss', es', s' := Tell(ss', es', s', Detach(id), s.acts[id := Detached(i, pr, s.db.now, todo[1..])], i.number, pr, t);
  }

  lemma RetriedAgain(ss: seq<State>, es: seq<Step>, s: State, id: nat, msg: nat, i: Issue, pr: string,
                     todo: seq<nat>, t: Tally)
    returns (ss': seq<State>, es': seq<Step>, s': State)
    requires Told(ss, es, s, i.number, pr, t)
    requires todo != [] && todo[0] == i.number && Is(s.acts, id, CloseRest(pr, todo))
    requires CanDetach(s.db.rows, i.number, pr) && msg !in s.acts
    ensures |ss'| > 0 && ss'[0] == ss[0] && es' == es + ReplaySteps(id, msg, i, todo)
    ensures Told(ss', es', s', i.number, pr, t.(forced := t.forced + 1))
    ensures s'.acts == With(s.acts, id, CloseRest(pr, todo[1..]))[msg := RemediateMsg(i, true)]
  {
    ss', es', s' := Reached(ss, es, s, id, i, pr, todo, t);
    assert es + [InspectLinked(id, Some(i))] + [Detach(id)] + [PublishRetry(id, msg, Accepted)]
        == es + ReplaySteps(id, msg, i, todo);
    ss', es', s' := Tell(ss', es', s', PublishRetry(id, msg, Accepted),
                         With(s.acts, id, CloseRest(pr, todo[1..]))[msg := RemediateMsg(i, true)], i.number, pr, t);
  }

  /** The handler retries the issue exactly when it is among the linked ones. */
  lemma {:induction false} Replayed(ss: seq<State>, es: seq<Step>, s: State, id: nat, msg: nat, i: Issue, pr: string,
                                    todo: seq<nat>, t: Tally)
    returns (ss': seq<State>, es': seq<Step>, s': State)
    requires Told(ss, es, s, i.number, pr, t) && Is(s.acts, id, CloseRest(pr, todo)) && msg !in s.acts && msg != id
    requires i.number in todo ==> CanDetach(s.db.rows, i.number, pr)
    ensures |ss'| > 0 && ss'[0] == ss[0] && es' == es + ReplaySteps(id, msg, i, todo)
    ensures Told(ss', es', s', i.number, pr, if i.number in todo then t.(forced := t.forced + 1) else t)
    ensures s'.acts == HandledActs(s.acts, id, msg, i, pr, todo)
    decreases |todo|
  {
    if todo == [] {
      ss', es', s' := ss, es, s;
      NothingLeft(s.acts, id, msg, i, pr);
    } else if todo[0] == i.number {
      ss', es', s' := RetriedAgain(ss, es, s, id, msg, i, pr, todo, t);
    } else {
      ss', es', s' := Passed(ss, es, s, id, i.number, pr, todo, t);
      ss', es', s' := Replayed(ss', es', s', id, msg, i, pr, todo[1..], t);
      HandledPassed(s.acts, id, msg, i, pr, CloseRest(pr, todo[1..]), todo);
      StepsPassed(es, id, msg, i, todo);
    }
  }

  lemma StepsPassed(es: seq<Step>, id: nat, msg: nat, i: Issue, todo: seq<nat>)
    requires todo != [] && todo[0] != i.number
    ensures es + [InspectLinked(id, None)] + ReplaySteps(id, msg, i, todo[1..]) == es + ReplaySteps(id, msg, i, todo)
    ensures i.number in todo <==> i.number in todo[1..]
  {
  }

  lemma NothingLeft(acts: map<nat, Act>, id: nat, msg: nat, i: Issue, pr: string)
    requires id !in acts
    ensures HandledActs(acts, id, msg, i, pr, []) == acts
  {
    assert acts - {id} == acts;
  }

  lemma HandledAgain(acts: map<nat, Act>, id: nat, msg: nat, i: Issue, pr: string, a: Option<Act>, todo: seq<nat>)
    ensures HandledActs(With(acts, id, a), id, msg, i, pr, todo) == HandledActs(acts, id, msg, i, pr, todo)
  {
    WithTwice(acts, id, a, CloseRest(pr, Beyond(todo, i.number)));
  }

  lemma HandledPassed(acts: map<nat, Act>, id: nat, msg: nat, i: Issue, pr: string, a: Option<Act>, todo: seq<nat>)
    requires todo != [] && todo[0] != i.number
    ensures HandledActs(With(acts, id, a), id, msg, i, pr, todo[1..]) == HandledActs(acts, id, msg, i, pr, todo)
  {
    HandledAgain(acts, id, msg, i, pr, a, todo);
    assert i.number in todo <==> i.number in todo[1..];
  }

  lemma WithTwice(acts: map<nat, Act>, id: nat, a: Option<Act>, b: Option<Act>)
    ensures With(With(acts, id, a), id, b) == With(acts, id, b)
  {
  }

  /** The table when the handler has put the pull request back, if the compensation applied. */
  function PutBackRows(db: Db, i: Issue, pr: string, stamp: Time): Rows {
    ReattachClosedPr(db.rows, i.number, pr, stamp, db.now)
  }

  /** The publish raises although the retry is queued. */
  lemma Doubted(ss: seq<State>, es: seq<Step>, s: State, id: nat, msg: nat, i: Issue, pr: string, stamp: Time,
                linked: seq<nat>, t: Tally) returns (ss': seq<State>, es': seq<Step>, s': State)
    requires Told(ss, es, s, i.number, pr, t) && Is(s.acts, id, Some(Detached(i, pr, stamp, linked))) && msg !in s.acts
    ensures |ss'| > 0 && ss'[0] == ss[0] && es' == es + [PublishRetry(id, msg, RefusedButQueued)]
    ensures Told(ss', es', s', i.number, pr, Tally(t.recorded, t.forced + 1, t.doubtful + 1))
    ensures s' == State(s.db, s.acts[id := Reattaching(i.number, pr, stamp)][msg := RemediateMsg(i, true)])
  {
    var after := s.acts[id := Reattaching(i.number, pr, stamp)][msg := RemediateMsg(i, true)];
    ss', es', s' := Tell(ss, es, s, PublishRetry(id, msg, RefusedButQueued), after, i.number, pr, t);
  }

  /** The handler puts the pull request back. */
  lemma InDoubt(ss: seq<State>, es: seq<Step>, s: State, id: nat, msg: nat, i: Issue, pr: string, stamp: Time,
                linked: seq<nat>, t: Tally) returns (ss': seq<State>, es': seq<Step>, s': State)
    requires Told(ss, es, s, i.number, pr, t) && Is(s.acts, id, Some(Detached(i, pr, stamp, linked))) && msg !in s.acts
    ensures |ss'| > 0 && ss'[0] == ss[0]
    ensures es' == es + [PublishRetry(id, msg, RefusedButQueued)] + [Reattach(id)]
    ensures Told(ss', es', s', i.number, pr, Tally(t.recorded, t.forced + 1, t.doubtful + 1))
    ensures s'.db.rows == PutBackRows(s.db, i, pr, stamp)
    ensures s'.acts == (s.acts - {id})[msg := RemediateMsg(i, true)]
  {
    ss', es', s' := Doubted(ss, es, s, id, msg, i, pr, stamp, linked, t);
    ss', es', s' := Tell(ss', es', s', Reattach(id), (s.acts - {id})[msg := RemediateMsg(i, true)], i.number, pr,
                         Tally(t.recorded, t.forced + 1, t.doubtful + 1));
  }

  /** A replayed delivery takes up the issue exactly if the compensation applied or the row pointed at the
      pull request again anyway. */
  lemma LinkedAgain(db: Db, i: Issue, pr: string, stamp: Time)
    ensures i.number in LinkedTo(PutBackRows(db, i, pr, stamp), pr) <==> Again(db, i, pr, stamp)
    ensures i.number in LinkedTo(PutBackRows(db, i, pr, stamp), pr) ==>
              CanDetach(PutBackRows(db, i, pr, stamp), i.number, pr)
  {
  }

  /** The steps of a publish in doubt, the compensation and a replay, from table `db` on. */
  function DoubtSteps(db: Db, id: nat, msg: nat, i: Issue, pr: string, stamp: Time, id': nat, msg': nat): seq<Step> {
    [PublishRetry(id, msg, RefusedButQueued)] + [Reattach(id)] + [PrClosed(id', pr)]
    + ReplaySteps(id', msg', i, Ascending(LinkedTo(PutBackRows(db, i, pr, stamp), pr)))
  }

  /** The activities after the replay: the retry in doubt, the handler with what is left to it, and the
      second retry, if there is one. */
  function ReplayedActs(s: State, id: nat, msg: nat, i: Issue, pr: string, stamp: Time, id': nat, msg': nat)
    : map<nat, Act>
  {
    HandledActs((s.acts - {id})[msg := RemediateMsg(i, true)], id', msg', i, pr,
                Ascending(LinkedTo(PutBackRows(s.db, i, pr, stamp), pr)))
  }

  /** The compensation applies, or the row points at the pull request again anyway. */
  predicate Again(db: Db, i: Issue, pr: string, stamp: Time) {
    CanReattach(db.rows, i.number, stamp) || CanDetach(db.rows, i.number, pr)
  }

  lemma ReplayOn(ss: seq<State>, es: seq<Step>, s: State, id: nat, msg: nat, i: Issue, pr: string, stamp: Time,
                 linked: seq<nat>, id': nat, msg': nat, t: Tally)
    returns (ss': seq<State>, es': seq<Step>, s': State)
    requires Told(ss, es, s, i.number, pr, t) && Is(s.acts, id, Some(Detached(i, pr, stamp, linked))) && pr != ""
    requires msg !in s.acts && id' !in s.acts && msg' !in s.acts && msg != id' && msg != msg' && id' != msg'
    ensures |ss'| > 0 && ss'[0] == ss[0] && es' == es + DoubtSteps(s.db, id, msg, i, pr, stamp, id', msg')
    ensures Told(ss', es', s', i.number, pr,
                 Tally(t.recorded, t.forced + (if Again(s.db, i, pr, stamp) then 2 else 1), t.doubtful + 1))
    ensures s'.acts == ReplayedActs(s, id, msg, i, pr, stamp, id', msg')
  {
    var todo := Ascending(LinkedTo(PutBackRows(s.db, i, pr, stamp), pr));
    var doubted;
    ss', es', doubted := InDoubt(ss, es, s, id, msg, i, pr, stamp, linked, t);
    LinkedAgain(s.db, i, pr, stamp);
    ss', es', s' := DeliveredAndReplayed(ss', es', doubted, id', msg', i, pr, todo,
                                         Tally(t.recorded, t.forced + 1, t.doubtful + 1));
    Grouped(es, [PublishRetry(id, msg, RefusedButQueued)], [Reattach(id)], [PrClosed(id', pr)],
            ReplaySteps(id', msg', i, todo));
  }

  lemma Grouped(a: seq<Step>, b: seq<Step>, c: seq<Step>, d: seq<Step>, e: seq<Step>)
    ensures a + b + c + d + e == a + (b + c + d + e)
  {
  }

  lemma DeliveredAndReplayed(ss: seq<State>, es: seq<Step>, s: State, id: nat, msg: nat, i: Issue, pr: string,
                             todo: seq<nat>, t: Tally) returns (ss': seq<State>, es': seq<Step>, s': State)
    requires Told(ss, es, s, i.number, pr, t) && id !in s.acts && pr != "" && msg !in s.acts && msg != id
    requires todo == Ascending(LinkedTo(s.db.rows, pr)) && (i.number in todo ==> CanDetach(s.db.rows, i.number, pr))
    ensures |ss'| > 0 && ss'[0] == ss[0] && es' == es + [PrClosed(id, pr)] + ReplaySteps(id, msg, i, todo)
    ensures Told(ss', es', s', i.number, pr, if i.number in todo then t.(forced := t.forced + 1) else t)
    ensures s'.acts == HandledActs(s.acts, id, msg, i, pr, todo)
  {
    ss', es', s' := Delivered(ss, es, s, id, i.number, pr, todo, t);
    ss', es', s' := Replayed(ss', es', s', id, msg, i, pr, todo, t);
    HandledAgain(s.acts, id, msg, i, pr, CloseRest(pr, todo), todo);
  }

  lemma Delivered(ss: seq<State>, es: seq<Step>, s: State, id: nat, n: nat, pr: string, todo: seq<nat>, t: Tally)
    returns (ss': seq<State>, es': seq<Step>, s': State)
    requires Told(ss, es, s, n, pr, t) && id !in s.acts && pr != "" && todo == Ascending(LinkedTo(s.db.rows, pr))
    ensures |ss'| > 0 && ss'[0] == ss[0] && es' == es + [PrClosed(id, pr)] && Told(ss', es', s', n, pr, t)
    ensures s' == State(s.db, With(s.acts, id, CloseRest(pr, todo)))
  {
    ss', es', s' := Tell(ss, es, s, PrClosed(id, pr), With(s.acts, id, CloseRest(pr, todo)), n, pr, t);
  }

  lemma BothPending(s: State, id: nat, msg: nat, i: Issue, pr: string, stamp: Time, id': nat, msg': nat)
    requires msg' !in s.acts && msg != id' && msg != msg' && id' != msg'
    ensures var acts := ReplayedActs(s, id, msg, i, pr, stamp, id', msg');
            && Is(acts, msg, Some(RemediateMsg(i, true)))
            && (Is(acts, msg', Some(RemediateMsg(i, true))) <==> Again(s.db, i, pr, stamp))
  {
    LinkedAgain(s.db, i, pr, stamp);
  }

  /** From any state in which a close handler has detached an issue: let its publish raise with the retry
      queued, let it put the pull request back, and let the delivery be replayed. The retry in doubt is
      pending, and a second forced retry with it if and only if, at the publish, the compensation applied
      or the issue pointed at the pull request again. */
  lemma ReplayExact(s: State, id: nat, msg: nat, i: Issue, pr: string, stamp: Time, linked: seq<nat>, id': nat,
                    msg': nat)
    returns (ss: seq<State>, es: seq<Step>, last: State)
    requires Is(s.acts, id, Some(Detached(i, pr, stamp, linked))) && pr != ""
    requires msg !in s.acts && id' !in s.acts && msg' !in s.acts && msg != id' && msg != msg' && id' != msg'
    ensures IsExecution(ss, es) && ss[0] == s && ss[|es|] == last
    ensures es == DoubtSteps(s.db, id, msg, i, pr, stamp, id', msg')
    ensures Is(last.acts, msg, Some(RemediateMsg(i, true)))
    ensures Is(last.acts, msg', Some(RemediateMsg(i, true))) <==>
            CanReattach(s.db.rows, i.number, stamp) || CanDetach(s.db.rows, i.number, pr)
  {
    ss, es, last := ReplayOn([s], [], s, id, msg, i, pr, stamp, linked, id', msg', Tally(0, 0, 0));
    BothPending(s, id, msg, i, pr, stamp, id', msg');
  }

  lemma DetachedOnce(i: Issue, pr: string) returns (ss: seq<State>, es: seq<Step>, s: State)
    requires pr != ""
    ensures |ss| > 0 && ss[0] == EMPTY && Told(ss, es, s, i.number, pr, Tally(1, 0, 0))
    ensures s.acts == map[0 := Detached(i, pr, s.db.now, [])]
    ensures s.db.rows.Keys == {i.number} && CanReattach(s.db.rows, i.number, s.db.now)
  {
    ss, es, s := RecordedOnce(i, pr);
    ss, es, s := CloseDetaches(ss, es, s, 0, i, pr, Tally(1, 0, 0));
  }

  /** So the doubtful publishes are needed in the bound: after one recording, a publish that raises with the
      retry queued and a replay of the delivery have forced two retries, and both are pending. */
  lemma RetriedTwice(i: Issue, pr: string) returns (ss: seq<State>, es: seq<Step>, s: State)
    requires pr != ""
    ensures IsExecution(ss, es) && ss[0] == EMPTY && ss[|es|] == s
    ensures Recordings(ss, es, i.number, pr, |es|) == 1 && ForcedRetries(ss, es, i.number, pr, |es|) == 2
    ensures s.acts == map[2 := RemediateMsg(i, true), 3 := RemediateMsg(i, true)]
  {
    ss, es, s := DetachedOnce(i, pr);
    OnlyLinked(PutBackRows(s.db, i, pr, s.db.now), i.number, pr);
    assert HandledActs(map[2 := RemediateMsg(i, true)], 1, 3, i, pr, [i.number])
        == map[2 := RemediateMsg(i, true), 3 := RemediateMsg(i, true)];
    assert (s.acts - {0})[2 := RemediateMsg(i, true)] == map[2 := RemediateMsg(i, true)];
    ss, es, s := ReplayOn(ss, es, s, 0, 2, i, pr, s.db.now, [], 1, 3, Tally(1, 0, 0));
  }
}
