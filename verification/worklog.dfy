/** What one worker or handler has done so far: each function continues its log by the steps that the named
    part of the code takes. */
module WorkLog {
  import opened Options
  import opened Table
  import opened StoreLog
  import opened Protocol

  /** How a call to the outside ended. */
  datatype Reply<+T> = Answered(value: T) | Raised

  // --- what a worker has done ----------------------------------------------------------------

  /** A step without the message id or the token it drew. */
  function Bare(e: Step): Step {
    match e
    case ArmNext(id, _) => ArmNext(id, "")
    case Publish(id, _, outcome) => Publish(id, 0, outcome)
    case SendIssue(id, _, outcome) => SendIssue(id, 0, outcome)
    case PublishRetry(id, _, outcome) => PublishRetry(id, 0, outcome)
    case _ => e
  }

  /** The steps of activity `me`, in order. */
  function OwnSteps(es: seq<Step>, me: nat): seq<Step> {
    if es == [] then []
    else
      var e := es[|es| - 1];
      OwnSteps(es[..|es| - 1], me) + (if !e.Wait? && e.id == me then [Bare(e)] else [])
  }

  function Entry(done: map<nat, seq<Step>>, me: nat): seq<Step> {
    if me in done then done[me] else []
  }

  ghost predicate Logged(done: map<nat, seq<Step>>, es: seq<Step>) {
    forall id {:trigger OwnSteps(es, id)} :: Entry(done, id) == OwnSteps(es, id)
  }

  function LogStep(done: map<nat, seq<Step>>, e: Step): map<nat, seq<Step>> {
    if e.Wait? then done else done[e.id := Entry(done, e.id) + [Bare(e)]]
  }

  lemma LogMore(done: map<nat, seq<Step>>, es: seq<Step>, e: Step)
    requires Logged(done, es)
    ensures Logged(LogStep(done, e), es + [e])
  {
    assert (es + [e])[..|es|] == es;
    forall id
      ensures Entry(LogStep(done, e), id) == OwnSteps(es + [e], id)
    {
      assert Entry(done, id) == OwnSteps(es, id);
    }
  }

  // Each function below continues the log of one activity by the steps that the named part of the code
  // takes, given what the store and the outside answer it.

  /** The broker's answer to the publish number `i`; it takes what no answer is given for. */
  function Answer(outcomes: seq<Publication>, i: nat): Publication {
    if i < |outcomes| then outcomes[i] else Accepted
  }

  const LABEL := "devin-remediate"

  /** What GitHub answers about an issue. */
  datatype IssueData = IssueData(title: string, url: string, labels: seq<string>, state: string)

  /** The summary of issue `n`, if GitHub answers at all and the issue is open and still labelled. */
  function Heard(hears: map<nat, IssueData>, n: nat): Option<Issue> {
    if n in hears && LABEL in hears[n].labels && hears[n].state == "open"
    then Some(Issue(n, hears[n].title, hears[n].url)) else None
  }

  /** The delivery of a pull request event; an absent flag counts as false. */
  datatype Delivery = Delivery(
    action: string,
    state: string,
    merged: bool,
    url: Option<string>,
    title: Option<string>,
    body: Option<string>)

  function Published(log: seq<Step>, me: nat, outcome: Publication): seq<Step> {
    if outcome.Accepted? then log + [Publish(me, 0, outcome)] else log + [Publish(me, 0, outcome)] + [GiveBack(me)]
  }

  function Armed(log: seq<Step>, me: nat, won: bool, outcome: Publication): seq<Step> {
    if won then Published(log + [ArmNext(me, "")], me, outcome) else log + [ArmNext(me, "")]
  }

  function Continued(log: seq<Step>, me: nat, renewed: bool, outcome: Publication): seq<Step> {
    if renewed then Published(log + [RenewLease(me)], me, outcome) else log + [RenewLease(me)]
  }

  predicate PollsOn(owned: bool, hop: Reply<HopReply>) {
    owned && (hop.Raised? || HopStatus(hop.value) == Running)
  }

  function Polled(log: seq<Step>, me: nat, owned: bool, hop: Reply<HopReply>): seq<Step> {
    var checked := log + [CheckOwner(me)];
    if !owned then checked
    else if hop.Raised? then checked + [FetchSession(me, None)]
    else
      var saved := checked + [FetchSession(me, Some(hop.value))] + [SaveHop(me)];
      if HopStatus(hop.value) == Running then saved else saved + [GiveBack(me)]
  }

  function NewSession(creation: Reply<(Option<string>, Option<string>)>): Option<(string, Option<string>)> {
    if creation.Answered? && Truthy(creation.value.0) then Some((creation.value.0.value, creation.value.1)) else None
  }

  /** The creation gave a session if it was answered with a session id that is not empty; the URL is optional. */
  lemma SessionExactly(creation: Reply<(Option<string>, Option<string>)>, sid: string, url: Option<string>)
    ensures NewSession(creation) == Some((sid, url)) <==> sid != "" && creation == Answered((Some(sid), url))
  {
  }

  function SessionMade(log: seq<Step>, me: nat, session: Option<(string, Option<string>)>, saved: bool, armed: bool,
                   outcome: Publication): seq<Step>
  {
    var heard := log + [SessionReply(me, session)];
    if session.None? then heard + [SaveFailed(me)] + [DropLease(me)]
    else if saved then Armed(heard + [SaveSession(me, true)], me, armed, outcome)
    else heard + [SaveSession(me, false)] + [SaveFailed(me)] + [DropLease(me)]
  }

  function Claimed(log: seq<Step>, me: nat, granted: bool, session: Option<(string, Option<string>)>, saved: bool,
                   armed: bool, outcome: Publication): seq<Step>
  {
    if granted then SessionMade(log + [Claim(me)], me, session, saved, armed, outcome) else log + [Claim(me)]
  }

  function FollowedUp(log: seq<Step>, me: nat, current: Option<Status>, force: bool, found: Option<string>,
                      granted: bool, session: Option<(string, Option<string>)>, saved: bool, armed: bool,
                      outcome: Publication): seq<Step>
  {
    var looked := log + [LookUpPr(me, found)];
    if Truthy(found) then looked + [MarkCompleted(me)]
    else if current == Some(Failed) && !force then looked
    else Claimed(looked, me, granted, session, saved, armed, outcome)
  }

  function Processed(log: seq<Step>, me: nat, current: Option<Status>, force: bool, lookup: Reply<Option<string>>,
                     granted: bool, session: Option<(string, Option<string>)>, saved: bool, armed: bool,
                     outcome: Publication): seq<Step>
  {
    var read := log + [GetStatus(me)];
    if lookup.Raised? then read + [Vanish(me)]
    else FollowedUp(read, me, current, force, lookup.value, granted, session, saved, armed, outcome)
  }

  /** The first `k` issues of a scan are sent. */
  function Sent(log: seq<Step>, me: nat, k: nat, outcomes: seq<Publication>): seq<Step> {
    log + seq(k, i requires 0 <= i < k => SendIssue(me, 0, Answer(outcomes, i)))
  }

  /** The broker took the first `k` of them. */
  predicate AllTaken(outcomes: seq<Publication>, k: nat) {
    forall i: nat :: i < k ==> Answer(outcomes, i).Accepted?
  }

  /** It took all of `n` issues, or refused the last of the `k` that were sent. */
  predicate SendsUntil(outcomes: seq<Publication>, n: nat, k: nat, all: bool) {
    if all then k == n && AllTaken(outcomes, n)
    else 0 < k <= n && AllTaken(outcomes, k - 1) && !Answer(outcomes, k - 1).Accepted?
  }

  /** A lost chain is re-armed for each entry of `won`. */
  function Rearmed(log: seq<Step>, me: nat, won: seq<bool>, outcomes: seq<Publication>): seq<Step> {
    if won == [] then log
    else
      var k := |won| - 1;
      Armed(Rearmed(log, me, won[..k], outcomes), me, won[k], Answer(outcomes, k))
  }

  function CountRearmed(won: seq<bool>, outcomes: seq<Publication>): nat {
    if won == [] then 0
    else
      var k := |won| - 1;
      CountRearmed(won[..k], outcomes) + (if won[k] && Answer(outcomes, k).Accepted? then 1 else 0)
  }

  /** A whole scan: it re-arms only when the broker took every issue. */
  function Scanned(log: seq<Step>, me: nat, issues: seq<Issue>, force: bool, sent: nat, sends: seq<Publication>,
                   won: seq<bool>, outcomes: seq<Publication>): seq<Step>
  {
    var fanned := Sent(log + [StartScan(me, issues, force)], me, sent, sends);
    if AllTaken(sends, sent) then Rearmed(fanned + [ScanRows(me)], me, won, outcomes) else fanned
  }

  /** One linked issue is handed back. */
  function HandedBack(log: seq<Step>, me: nat, eligible: Option<Issue>, detached: bool, outcome: Publication)
    : seq<Step>
  {
    var heard := log + [InspectLinked(me, eligible)];
    if eligible.None? then heard
    else if !detached then heard + [Detach(me)]
    else if outcome.Accepted? then heard + [Detach(me)] + [PublishRetry(me, 0, outcome)]
    else heard + [Detach(me)] + [PublishRetry(me, 0, outcome)] + [Reattach(me)]
  }

  /** What became of one linked issue: passed over, enqueued, or an exception. */
  function HandedResult(eligible: Option<Issue>, detached: bool, outcome: Publication): Reply<bool> {
    if eligible.None? || !detached then Answered(false) else if outcome.Accepted? then Answered(true) else Raised
  }

  /** The first of the linked issues are handed back, one for each entry of `detached`. */
  function AllHandedBack(log: seq<Step>, me: nat, linked: seq<nat>, hears: map<nat, IssueData>, detached: seq<bool>,
                         outcomes: seq<Publication>): seq<Step>
    requires |detached| <= |linked|
  {
    if detached == [] then log
    else
      var k := |detached| - 1;
      HandedBack(AllHandedBack(log, me, linked, hears, detached[..k], outcomes), me, Heard(hears, linked[k]),
                 detached[k], Answer(outcomes, k))
  }

  /** The issues among them whose retry was enqueued. */
  function Retried(linked: seq<nat>, hears: map<nat, IssueData>, detached: seq<bool>, outcomes: seq<Publication>)
    : seq<nat>
    requires |detached| <= |linked|
  {
    if detached == [] then []
    else
      var k := |detached| - 1;
      Retried(linked, hears, detached[..k], outcomes)
      + (if HandedResult(Heard(hears, linked[k]), detached[k], Answer(outcomes, k)) == Answered(true)
         then [linked[k]] else [])
  }

  /** The first of the referenced issues are looked at, one for each entry of `tracked`, and the tracked
      ones completed. */
  function AllCompleted(log: seq<Step>, me: nat, tracked: seq<bool>): seq<Step> {
    if tracked == [] then log
    else
      var k := |tracked| - 1;
      var looked := AllCompleted(log, me, tracked[..k]) + [CheckTracked(me)];
      if tracked[k] then looked + [SaveOpened(me)] else looked
  }

  lemma RearmedMore(log: seq<Step>, me: nat, won: seq<bool>, last: bool, outcomes: seq<Publication>)
    ensures Rearmed(log, me, won + [last], outcomes)
            == Armed(Rearmed(log, me, won, outcomes), me, last, Answer(outcomes, |won|))
    ensures CountRearmed(won + [last], outcomes)
            == CountRearmed(won, outcomes) + (if last && Answer(outcomes, |won|).Accepted? then 1 else 0)
  {
    assert (won + [last])[..|won|] == won;
  }

  lemma HandedBackMore(log: seq<Step>, me: nat, linked: seq<nat>, hears: map<nat, IssueData>, detached: seq<bool>,
                       last: bool, outcomes: seq<Publication>)
    requires |detached| < |linked|
    ensures var n, all := linked[|detached|], detached + [last];
            && AllHandedBack(log, me, linked, hears, all, outcomes)
               == HandedBack(AllHandedBack(log, me, linked, hears, detached, outcomes), me, Heard(hears, n), last,
                             Answer(outcomes, |detached|))
            && Retried(linked, hears, all, outcomes)
               == Retried(linked, hears, detached, outcomes)
                  + (if HandedResult(Heard(hears, n), last, Answer(outcomes, |detached|)) == Answered(true)
                     then [n] else [])
            && (NoneRaised(linked, hears, all, outcomes) <==>
                NoneRaised(linked, hears, detached, outcomes)
                && !HandedResult(Heard(hears, n), last, Answer(outcomes, |detached|)).Raised?)
  {
    assert (detached + [last])[..|detached|] == detached;
  }

  /** The issues whose association a log takes away, each as the inspection before it heard of it. */
  function DetachedIn(log: seq<Step>): seq<Issue> {
    if |log| < 2 then []
    else
      var k := |log| - 1;
      DetachedIn(log[..k])
      + (if log[k].Detach? && log[k - 1].InspectLinked? && log[k - 1].eligible.Some? then [log[k - 1].eligible.value]
         else [])
  }

  lemma DetachesMore(log: seq<Step>, e: Step)
    ensures !e.Detach? ==> DetachedIn(log + [e]) == DetachedIn(log)
    ensures e.Detach? && |log| > 0 && log[|log| - 1].InspectLinked? && log[|log| - 1].eligible.Some? ==>
              DetachedIn(log + [e]) == DetachedIn(log) + [log[|log| - 1].eligible.value]
  {
    assert (log + [e])[..|log|] == log;
  }

  lemma OneDetach(log: seq<Step>, me: nat, eligible: Option<Issue>, detached: bool, outcome: Publication)
    ensures DetachedIn(HandedBack(log, me, eligible, detached, outcome))
            == DetachedIn(log) + if eligible.Some? then [eligible.value] else []
  {
    var heard := log + [InspectLinked(me, eligible)];
    DetachesMore(log, InspectLinked(me, eligible));
    DetachesMore(heard, Detach(me));
    DetachesMore(heard + [Detach(me)], PublishRetry(me, 0, outcome));
    DetachesMore(heard + [Detach(me)] + [PublishRetry(me, 0, outcome)], Reattach(me));
  }

  /** The open and labelled ones among some issues. */
  function Eligible(ns: seq<nat>, hears: map<nat, IssueData>): seq<Issue> {
    if ns == [] then []
    else
      var k := |ns| - 1;
      Eligible(ns[..k], hears) + (if Heard(hears, ns[k]).Some? then [Heard(hears, ns[k]).value] else [])
  }

  lemma {:induction false} EligibleExactly(ns: seq<nat>, hears: map<nat, IssueData>)
    ensures forall issue: Issue :: issue in Eligible(ns, hears) <==>
              && issue.number in ns && issue.number in hears
              && "devin-remediate" in hears[issue.number].labels && hears[issue.number].state == "open"
              && issue.title == hears[issue.number].title && issue.url == hears[issue.number].url
  {
    if ns != [] {
      var k := |ns| - 1;
      EligibleExactly(ns[..k], hears);
      assert ns == ns[..k] + [ns[k]];
    }
  }

  lemma {:induction false} AllDetaches(log: seq<Step>, me: nat, linked: seq<nat>, hears: map<nat, IssueData>,
                                       detached: seq<bool>, outcomes: seq<Publication>)
    requires |detached| <= |linked|
    ensures DetachedIn(AllHandedBack(log, me, linked, hears, detached, outcomes))
            == DetachedIn(log) + Eligible(linked[..|detached|], hears)
  {
    if detached != [] {
      var k := |detached| - 1;
      AllDetaches(log, me, linked, hears, detached[..k], outcomes);
      OneDetach(AllHandedBack(log, me, linked, hears, detached[..k], outcomes), me, Heard(hears, linked[k]),
                detached[k], Answer(outcomes, k));
      assert linked[..k + 1][..k] == linked[..k];
    }
  }

  /** A detach stands in the log for exactly the open and labelled ones of the linked issues looked at, each as
      GitHub described it. */
  lemma DetachStands(log: seq<Step>, me: nat, linked: seq<nat>, hears: map<nat, IssueData>, detached: seq<bool>,
                     outcomes: seq<Publication>)
    requires |detached| <= |linked|
    ensures var was, now := DetachedIn(log), DetachedIn(AllHandedBack(log, me, linked, hears, detached, outcomes));
            && was <= now
            && forall issue: Issue :: issue in now[|was|..] <==>
                 && issue.number in linked[..|detached|] && issue.number in hears
                 && "devin-remediate" in hears[issue.number].labels && hears[issue.number].state == "open"
                 && issue.title == hears[issue.number].title && issue.url == hears[issue.number].url
  {
    var was, reached := DetachedIn(log), linked[..|detached|];
    AllDetaches(log, me, linked, hears, detached, outcomes);
    EligibleExactly(reached, hears);
    assert (was + Eligible(reached, hears))[|was|..] == Eligible(reached, hears);
  }

  /** Only such an issue is reported. */
  lemma {:induction false} ReportedWereOpen(linked: seq<nat>, hears: map<nat, IssueData>, detached: seq<bool>,
                                            outcomes: seq<Publication>)
    requires |detached| <= |linked|
    ensures forall n: nat :: n in Retried(linked, hears, detached, outcomes) ==>
              && n in linked[..|detached|] && n in hears
              && "devin-remediate" in hears[n].labels && hears[n].state == "open"
  {
    if detached != [] {
      var k := |detached| - 1;
      ReportedWereOpen(linked, hears, detached[..k], outcomes);
      assert linked[..k + 1] == linked[..k] + [linked[k]];
    }
  }

  /** Every issue that is still open and labelled was detached. */
  predicate AllDetached(linked: seq<nat>, hears: map<nat, IssueData>, detached: seq<bool>)
    requires |detached| <= |linked|
  {
    detached == [] ||
    var k := |detached| - 1;
    AllDetached(linked, hears, detached[..k]) && (Heard(hears, linked[k]).Some? ==> detached[k])
  }

  lemma AllDetachedMore(linked: seq<nat>, hears: map<nat, IssueData>, detached: seq<bool>, last: bool)
    requires |detached| < |linked| && AllDetached(linked, hears, detached)
    requires Heard(hears, linked[|detached|]).Some? ==> last
    ensures AllDetached(linked, hears, detached + [last])
  {
    assert (detached + [last])[..|detached|] == detached;
  }

  /** Then, if the broker takes every message, exactly those issues are reported, in order. */
  lemma {:induction false} ReportedExactly(linked: seq<nat>, hears: map<nat, IssueData>, detached: seq<bool>,
                                           outcomes: seq<Publication>)
    requires |detached| <= |linked| && AllDetached(linked, hears, detached)
    requires forall p :: p in outcomes ==> p == Accepted
    requires forall i, j :: 0 <= i < j < |linked| ==> linked[i] < linked[j]
    ensures NoneRaised(linked, hears, detached, outcomes)
    ensures var touched := Retried(linked, hears, detached, outcomes);
            && (forall i, j :: 0 <= i < j < |touched| ==> touched[i] < touched[j])
            && forall n: nat :: n in touched <==>
                 && n in linked[..|detached|] && n in hears
                 && "devin-remediate" in hears[n].labels && hears[n].state == "open"
  {
    if detached != [] {
      var k := |detached| - 1;
      ReportedExactly(linked, hears, detached[..k], outcomes);
      assert linked[..k + 1] == linked[..k] + [linked[k]];
      assert Answer(outcomes, k).Accepted? by {
        assert k < |outcomes| ==> outcomes[k] in outcomes;
      }
      var before := Retried(linked, hears, detached[..k], outcomes);
      forall i | 0 <= i < |before|
        ensures before[i] < linked[k]
      {
        assert before[i] in before;
      }
    }
  }

  lemma CompletedMore(log: seq<Step>, me: nat, refs: seq<nat>, tracked: seq<bool>, last: bool, known: set<nat>)
    requires |tracked| < |refs|
    ensures FindsKnown(refs, tracked + [last], known) <==>
            FindsKnown(refs, tracked, known) && (refs[|tracked|] in known ==> last)
    ensures AllCompleted(log, me, tracked + [last])
            == if last then AllCompleted(log, me, tracked) + [CheckTracked(me)] + [SaveOpened(me)]
               else AllCompleted(log, me, tracked) + [CheckTracked(me)]
    ensures Picked(refs, tracked + [last]) == Picked(refs, tracked) + (if last then [refs[|tracked|]] else [])
  {
    assert (tracked + [last])[..|tracked|] == tracked;
  }

  lemma {:induction false} PickedAmong(refs: seq<nat>, tracked: seq<bool>, n: nat)
    requires |tracked| <= |refs|
    ensures n in Picked(refs, tracked) <==> exists k :: 0 <= k < |tracked| && tracked[k] && refs[k] == n
  {
    if tracked != [] {
      var k := |tracked| - 1;
      PickedAmong(refs, tracked[..k], n);
      assert Picked(refs, tracked) == Picked(refs, tracked[..k]) + if tracked[k] then [refs[k]] else [];
    }
  }

  lemma {:induction false} PickedAscends(refs: seq<nat>, tracked: seq<bool>)
    requires |tracked| <= |refs| && forall i, j :: 0 <= i < j < |refs| ==> refs[i] < refs[j]
    ensures var touched := Picked(refs, tracked); forall i, j :: 0 <= i < j < |touched| ==> touched[i] < touched[j]
  {
    if tracked != [] {
      var k := |tracked| - 1;
      var before := Picked(refs, tracked[..k]);
      PickedAscends(refs, tracked[..k]);
      forall i | 0 <= i < |before|
        ensures before[i] < refs[k]
      {
        PickedAmong(refs, tracked[..k], before[i]);
      }
      assert Picked(refs, tracked) == before + if tracked[k] then [refs[k]] else [];
    }
  }

  lemma {:induction false} KnownTracked(refs: seq<nat>, tracked: seq<bool>, known: set<nat>, k: nat)
    requires |tracked| <= |refs| && k < |tracked| && FindsKnown(refs, tracked, known) && refs[k] in known
    ensures tracked[k]
  {
    if k < |tracked| - 1 {
      KnownTracked(refs, tracked[..|tracked| - 1], known, k);
    }
  }

  /** What is reported are referenced issues, in order, and among them every one known beforehand. */
  lemma PickedExactly(refs: seq<nat>, tracked: seq<bool>, known: set<nat>)
    requires |tracked| == |refs| && FindsKnown(refs, tracked, known)
    requires forall i, j :: 0 <= i < j < |refs| ==> refs[i] < refs[j]
    ensures var touched := Picked(refs, tracked);
            && (forall i, j :: 0 <= i < j < |touched| ==> touched[i] < touched[j])
            && (forall n: nat :: n in touched ==> n in refs)
            && (forall n: nat :: n in refs && n in known ==> n in touched)
            && ((forall k :: 0 <= k < |tracked| && tracked[k] ==> refs[k] in known) ==>
                  forall n: nat :: n in touched ==> n in known)
  {
    PickedAscends(refs, tracked);
    forall n: nat
      ensures n in Picked(refs, tracked) <==> exists k :: 0 <= k < |tracked| && tracked[k] && refs[k] == n
    {
      PickedAmong(refs, tracked, n);
    }
    forall k | 0 <= k < |tracked| && refs[k] in known
      ensures tracked[k]
    {
      KnownTracked(refs, tracked, known, k);
    }
  }

  /** No publish raised. */
  predicate NoneRaised(linked: seq<nat>, hears: map<nat, IssueData>, detached: seq<bool>, outcomes: seq<Publication>)
    requires |detached| <= |linked|
  {
    detached == [] ||
    var k := |detached| - 1;
    && NoneRaised(linked, hears, detached[..k], outcomes)
    && !HandedResult(Heard(hears, linked[k]), detached[k], Answer(outcomes, k)).Raised?
  }

  /** All linked issues are looked at, or the publish of the last one looked at raised, and no earlier one. */
  predicate HandsUntil(linked: seq<nat>, hears: map<nat, IssueData>, detached: seq<bool>, outcomes: seq<Publication>,
                       raised: bool)
  {
    && |detached| <= |linked|
    && if !raised then |detached| == |linked| && NoneRaised(linked, hears, detached, outcomes)
       else
         && detached != []
         && var k := |detached| - 1;
         && NoneRaised(linked, hears, detached[..k], outcomes)
         && HandedResult(Heard(hears, linked[k]), detached[k], Answer(outcomes, k)).Raised?
  }

  /** The issues known beforehand are found tracked. */
  predicate FindsKnown(refs: seq<nat>, tracked: seq<bool>, known: set<nat>)
    requires |tracked| <= |refs|
  {
    tracked == [] ||
    var k := |tracked| - 1;
    FindsKnown(refs, tracked[..k], known) && (refs[k] in known ==> tracked[k])
  }

  /** The log of a handler of a closed pull request, and what it reports. */
  predicate HandlesClosed(log: seq<Step>, log': seq<Step>, me: nat, pr: string, linked: seq<nat>,
                          hears: map<nat, IssueData>, outcomes: seq<Publication>, touched: seq<nat>, raised: bool,
                          detached: seq<bool>)
  {
    && HandsUntil(linked, hears, detached, outcomes, raised)
    && log' == AllHandedBack(log + [PrClosed(me, pr)], me, linked, hears, detached, outcomes)
    && touched == Retried(linked, hears, detached, outcomes)
  }

  /** The same for an opened one; `known` are the issues tracked beforehand. */
  predicate HandlesOpened(log: seq<Step>, log': seq<Step>, me: nat, newPr: Option<string>, numbers: set<nat>,
                          known: set<nat>, touched: seq<nat>, tracked: seq<bool>)
  {
    && |tracked| == |Ascending(numbers)|
    && log' == AllCompleted(log + [PrOpened(me, newPr, numbers)], me, tracked)
    && touched == Picked(Ascending(numbers), tracked)
    && FindsKnown(Ascending(numbers), tracked, known)
  }

  lemma ActsNow(s: State, e: Step)
    requires Guard(s, e)
    ensures !e.Wait? ==> Is(ActsAfter(s, e), e.id, Becomes(s, e))
    ensures forall id :: id in s.acts && (e.Wait? || e.id != id) ==> Is(ActsAfter(s, e), id, Some(s.acts[id]))
  {
    if !e.Wait? {
      OwnAct(s, e);
    }
    forall id | id in s.acts && (e.Wait? || e.id != id)
      ensures Is(ActsAfter(s, e), id, Some(s.acts[id]))
    {
      OtherActs(s, e, id);
    }
  }

  function Picked(refs: seq<nat>, tracked: seq<bool>): seq<nat>
    requires |tracked| <= |refs|
  {
    if tracked == [] then []
    else
      var k := |tracked| - 1;
      Picked(refs, tracked[..k]) + (if tracked[k] then [refs[k]] else [])
  }
}
