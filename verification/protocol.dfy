/** Workers, webhook handlers and queued messages around the shared table.
    Every step makes at most one store call; between steps anything else may run, crash or wait.
    The broker delivers a message at most once and may lose it. */
module Protocol {
  import opened Options
  import opened Table
  import opened StoreLog

  datatype Issue = Issue(number: nat, title: string, url: string)

  datatype ArmReq = ArmReq(n: nat, sid: string, onlyIfLost: bool)

  /** One poll's answers: Devin's mapped status and PR, and the GitHub lookup (None when it raised). */
  datatype HopReply = HopReply(status: Status, devinPr: Option<string>, lookup: Option<Option<string>>)

  /** A message in the queue, or a task or handler with what it remembers between two steps. */
  datatype Act =
    // messages
    | RemediateMsg(issue: Issue, force: bool)
    | PollMsg(n: nat, sid: string, token: Token)
    // process_issue
    | LookingForPr(issue: Issue, force: bool, seen: Option<Status>)
    | PrKnown(issue: Issue, pr: string)
    | Claiming(issue: Issue)
    | Creating(n: nat, lease: Time)
    | Created(n: nat, lease: Time, sid: string, url: Option<string>)
    | CreateFailed(n: nat, lease: Time)
    | Settling(n: nat)
    // scan_and_process while it fans out
    | Scanning(issues: seq<Issue>, force: bool)
    // arm_poll, continue_poll and _publish_poll
    | Arming(todo: seq<ArmReq>)
    | Publishing(n: nat, sid: string, token: Token, todo: seq<ArmReq>)
    | GivingBack(n: nat, token: Token, todo: seq<ArmReq>)
    // poll_session_once and the hop around it
    | HopOwned(n: nat, sid: string, token: Token)
    | HopSaving(n: nat, sid: string, token: Token, status: Status, found: Option<string>)
    | Renewing(n: nat, sid: string, token: Token)
    // webhook handlers
    | Closing(pr: string, linked: seq<nat>)
    | Inspected(issue: Issue, pr: string, linked: seq<nat>)
    | Detached(issue: Issue, pr: string, stamp: Time, linked: seq<nat>)
    | Reattaching(n: nat, pr: string, stamp: Time)
    | Opening(newPr: Option<string>, refs: seq<nat>)
    | Tracked(n: nat, newPr: Option<string>, refs: seq<nat>)
    | Editing(n: nat, title: Option<string>, url: Option<string>)

  datatype State = State(db: Db, acts: map<nat, Act>)

  /** What became of a publish: taken, refused with an exception, or both. */
  datatype Publication = Accepted | Refused | RefusedButQueued

  datatype Step =
    | Wait(d: nat)
    | Vanish(id: nat)  // a lost message, a crash or an escaping exception
    | Enqueue(id: nat, issue: Issue, force: bool)
    | StartScan(id: nat, issues: seq<Issue>, force: bool)
    | PrClosed(id: nat, pr: string)
    | PrOpened(id: nat, newPr: Option<string>, numbers: set<nat>)
    | IssueEdited(id: nat, n: nat, title: Option<string>, url: Option<string>)
    | SendIssue(id: nat, msg: nat, outcome: Publication)
    | ScanRows(id: nat)
    | GetStatus(id: nat)
    | LookUpPr(id: nat, found: Option<string>)
    | MarkCompleted(id: nat)
    | Claim(id: nat)
    | SessionReply(id: nat, reply: Option<(string, Option<string>)>)
    | SaveSession(id: nat, saved: bool)
    | SaveFailed(id: nat)
    | DropLease(id: nat)
    | ArmNext(id: nat, token: Token)
    | Publish(id: nat, msg: nat, outcome: Publication)
    | GiveBack(id: nat)
    | CheckOwner(id: nat)
    | FetchSession(id: nat, hop: Option<HopReply>)
    | SaveHop(id: nat)
    | RenewLease(id: nat)
    | InspectLinked(id: nat, eligible: Option<Issue>)
    | Detach(id: nat)
    | PublishRetry(id: nat, msg: nat, outcome: Publication)
    | Reattach(id: nat)
    | CheckTracked(id: nat)
    | SaveOpened(id: nat)
    | SaveEdit(id: nat)

  /** Steps that add a message or a task under a new id. */
  predicate Spawns(e: Step) {
    e.Enqueue? || e.StartScan? || e.PrClosed? || e.PrOpened? || e.IssueEdited?
  }

  function StatusIn(rows: Rows, n: nat): Option<Status> {
    if n in rows then Some(rows[n].status) else None
  }

  /** The ownership check of a poll. */
  predicate Owns(db: Db, n: nat, sid: string, token: Token) {
    && IsRunning(db, n)
    && db.rows[n].sessionId == Some(sid)
    && db.rows[n].pollToken == Some(token)
  }

  /** The PR a poll records: Devin's if it names one, else what GitHub finds. */
  function HopPr(r: HopReply): Option<string> {
    if Truthy(r.devinPr) || r.lookup.None? then r.devinPr else r.lookup.value
  }

  /** A PR that exists while the session still runs counts as completed. */
  function HopStatus(r: HopReply): Status {
    if Truthy(HopPr(r)) && r.status == Running then Completed else r.status
  }

  predicate RightAct(s: State, e: Step)
    requires !e.Wait? && e.id in s.acts
  {
    var a := s.acts[e.id];
    match e
    case Vanish(_) => true
    case SendIssue(_, msg, _) => a.Scanning? && a.issues != [] && msg !in s.acts
    case ScanRows(_) => a.Scanning? && a.issues == []
    case GetStatus(_) => a.RemediateMsg?
    case LookUpPr(_, _) => a.LookingForPr?
    case MarkCompleted(_) => a.PrKnown?
    case Claim(_) => a.Claiming?
    case SessionReply(_, reply) => a.Creating? && (reply.Some? ==> reply.value.0 != "")
    case SaveSession(_, _) => a.Created?
    case SaveFailed(_) => a.CreateFailed?
    case DropLease(_) => a.Settling?
    case ArmNext(_, _) => a.Arming? && a.todo != []
    case Publish(_, msg, _) => a.Publishing? && msg !in s.acts
    case GiveBack(_) => a.GivingBack?
    case CheckOwner(_) => a.PollMsg?
    case FetchSession(_, _) => a.HopOwned?
    case SaveHop(_) => a.HopSaving?
    case RenewLease(_) => a.Renewing?
    case InspectLinked(_, eligible) =>
      a.Closing? && a.linked != [] && (eligible.Some? ==> eligible.value.number == a.linked[0])
    case Detach(_) => a.Inspected?
    case PublishRetry(_, msg, _) => a.Detached? && msg !in s.acts
    case Reattach(_) => a.Reattaching?
    case CheckTracked(_) => a.Opening? && a.refs != []
    case SaveOpened(_) => a.Tracked?
    case SaveEdit(_) => a.Editing?
    case _ => false
  }

  predicate Fits(s: State, e: Step) {
    if e.Wait? then true
    else if Spawns(e) then e.id !in s.acts && (e.IssueEdited? ==> e.n in s.db.rows) && (e.PrClosed? ==> e.pr != "")
    else e.id in s.acts && RightAct(s, e)
  }

  /** The store call a step makes; `Elapse(0)` when it makes none that writes. */
  function EventOf(s: State, e: Step): Event
    requires Fits(s, e)
  {
    match e
    case Wait(d) => Elapse(d)
    case MarkCompleted(id) =>
      var a := s.acts[id];
      UpsertCall(a.issue.number, Patch(Some(a.issue.title), Some(a.issue.url), None, None, Some(Completed), Some(a.pr)))
    case Claim(id) =>
      var a := s.acts[id];
      ClaimCall(a.issue.number, a.issue.title, a.issue.url)
    case SaveSession(id, saved) =>
      var a := s.acts[id];
      if saved
      then UpsertCall(a.n, NO_CHANGE.(sessionId := Some(a.sid), sessionUrl := a.url, status := Some(Running)))
      else Elapse(0)
    case SaveFailed(id) => UpsertCall(s.acts[id].n, NO_CHANGE.(status := Some(Failed)))
    case DropLease(id) => ReleaseCall(s.acts[id].n, None)
    case ArmNext(id, token) =>
      var req := s.acts[id].todo[0];
      ClaimPollCall(req.n, req.sid, token, req.onlyIfLost)
    case GiveBack(id) => ReleaseCall(s.acts[id].n, Some(s.acts[id].token))
    case SaveHop(id) =>
      var a := s.acts[id];
      UpsertCall(a.n, NO_CHANGE.(status := Some(a.status), prUrl := a.found))
    case RenewLease(id) => RenewCall(s.acts[id].n, s.acts[id].token)
    case Detach(id) => DetachCall(s.acts[id].issue.number, s.acts[id].pr)
    case Reattach(id) => ReattachCall(s.acts[id].n, s.acts[id].pr, s.acts[id].stamp)
    case SaveOpened(id) =>
      var a := s.acts[id];
      UpsertCall(a.n, NO_CHANGE.(status := Some(Completed), prUrl := a.newPr))
    case SaveEdit(id) =>
      var a := s.acts[id];
      UpsertCall(a.n, NO_CHANGE.(title := a.title, issueUrl := a.url))
    case _ => Elapse(0)
  }

  predicate Guard(s: State, e: Step) {
    Fits(s, e) && Allowed(s.db, EventOf(s, e))
  }

  /** What activity `id` becomes when its step is done: gone, or the next thing it will do. */
  function Becomes(s: State, e: Step): Option<Act>
    requires Fits(s, e) && !e.Wait?
  {
    var db := s.db;
    match e
    case Enqueue(_, issue, force) => Some(RemediateMsg(issue, force))
    case StartScan(_, issues, force) => Some(Scanning(issues, force))
    case PrClosed(_, pr) => CloseRest(pr, Ascending(LinkedTo(db.rows, pr)))
    case PrOpened(_, newPr, numbers) => OpenRest(newPr, Ascending(numbers))
    case IssueEdited(_, n, title, url) => Some(Editing(n, title, url))
    case SendIssue(id, _, outcome) =>
      var a := s.acts[id];
      if outcome.Accepted? then Some(Scanning(a.issues[1..], a.force)) else None
    case ScanRows(_) => ArmRest(ScanRequests(db))
    case GetStatus(id) =>
      var a := s.acts[id];
      Some(LookingForPr(a.issue, a.force, StatusIn(db.rows, a.issue.number)))
    case LookUpPr(id, found) =>
      var a := s.acts[id];
      if Truthy(found) then Some(PrKnown(a.issue, found.value))
      else if a.seen == Some(Failed) && !a.force then None
      else Some(Claiming(a.issue))
    case Claim(id) =>
      var n := s.acts[id].issue.number;
      if CanClaim(db.rows, n, db.now) then Some(Creating(n, db.now + CREATE_LEASE)) else None
    case SessionReply(id, reply) =>
      var a := s.acts[id];
      if reply.Some? then Some(Created(a.n, a.lease, reply.value.0, reply.value.1))
      else Some(CreateFailed(a.n, a.lease))
    case SaveSession(id, saved) =>
      var a := s.acts[id];
      if saved then Some(Arming([ArmReq(a.n, a.sid, false)])) else Some(CreateFailed(a.n, a.lease))
    case SaveFailed(id) => Some(Settling(s.acts[id].n))
    case ArmNext(id, token) =>
      var req, rest := s.acts[id].todo[0], s.acts[id].todo[1..];
      if CanClaimPoll(db.rows, req.n, req.sid, req.onlyIfLost, db.now)
      then Some(Publishing(req.n, req.sid, token, rest))
      else ArmRest(rest)
    case Publish(id, _, outcome) =>
      var a := s.acts[id];
      if outcome.Accepted? then ArmRest(a.todo) else Some(GivingBack(a.n, a.token, a.todo))
    case GiveBack(id) => ArmRest(s.acts[id].todo)
    case CheckOwner(id) =>
      var a := s.acts[id];
      if Owns(db, a.n, a.sid, a.token) then Some(HopOwned(a.n, a.sid, a.token)) else None
    case FetchSession(id, hop) =>
      var a := s.acts[id];
      if hop.Some? then Some(HopSaving(a.n, a.sid, a.token, HopStatus(hop.value), HopPr(hop.value)))
      else Some(Renewing(a.n, a.sid, a.token))
    case SaveHop(id) =>
      var a := s.acts[id];
      if a.status == Running then Some(Renewing(a.n, a.sid, a.token)) else Some(GivingBack(a.n, a.token, []))
    case RenewLease(id) =>
      var a := s.acts[id];
      if HoldsToken(db.rows, a.n, a.token) then Some(Publishing(a.n, a.sid, a.token, [])) else None
    case InspectLinked(id, eligible) =>
      var a := s.acts[id];
      if eligible.Some? then Some(Inspected(eligible.value, a.pr, a.linked[1..])) else CloseRest(a.pr, a.linked[1..])
    case Detach(id) =>
      var a := s.acts[id];
      if CanDetach(db.rows, a.issue.number, a.pr) then Some(Detached(a.issue, a.pr, db.now, a.linked))
      else CloseRest(a.pr, a.linked)
    case PublishRetry(id, _, outcome) =>
      var a := s.acts[id];
      if outcome.Accepted? then CloseRest(a.pr, a.linked) else Some(Reattaching(a.issue.number, a.pr, a.stamp))
    case CheckTracked(id) =>
      var a := s.acts[id];
      if a.refs[0] in db.rows then Some(Tracked(a.refs[0], a.newPr, a.refs[1..])) else OpenRest(a.newPr, a.refs[1..])
    case SaveOpened(id) => OpenRest(s.acts[id].newPr, s.acts[id].refs)
    case _ => None
  }

  function ArmRest(todo: seq<ArmReq>): Option<Act> {
    if todo == [] then None else Some(Arming(todo))
  }

  function CloseRest(pr: string, linked: seq<nat>): Option<Act> {
    if linked == [] then None else Some(Closing(pr, linked))
  }

  function OpenRest(newPr: Option<string>, refs: seq<nat>): Option<Act> {
    if refs == [] then None else Some(Opening(newPr, refs))
  }

  /** The lost chains a scan re-arms, in issue order. */
  function ScanRequests(db: Db): seq<ArmReq> {
    var ns := Ascending(UnpolledRunning(db.rows, db.now));
    seq(|ns|, i requires 0 <= i < |ns| =>
      assert ns[i] in UnpolledRunning(db.rows, db.now);
      ArmReq(ns[i], db.rows[ns[i]].sessionId.value, true))
  }

  /** The message a publishing step adds to the queue. */
  function Sends(s: State, e: Step): Option<(nat, Act)>
    requires Fits(s, e)
  {
    if e.Publish? && !e.outcome.Refused? then
      var a := s.acts[e.id];
      Some((e.msg, PollMsg(a.n, a.sid, a.token)))
    else if e.SendIssue? && !e.outcome.Refused? then
      var a := s.acts[e.id];
      Some((e.msg, RemediateMsg(a.issues[0], a.force)))
    else if e.PublishRetry? && !e.outcome.Refused? then
      Some((e.msg, RemediateMsg(s.acts[e.id].issue, true)))
    else None
  }

  function ActsAfter(s: State, e: Step): map<nat, Act>
    requires Fits(s, e)
  {
    if e.Wait? then s.acts
    else
      var own := match Becomes(s, e) case None => s.acts - {e.id} case Some(a) => s.acts[e.id := a];
      match Sends(s, e) case None => own case Some(m) => own[m.0 := m.1]
  }

  function Then(s: State, e: Step): State
    requires Fits(s, e)
  {
    State(Next(s.db, EventOf(s, e)), ActsAfter(s, e))
  }

  predicate Is(acts: map<nat, Act>, id: nat, a: Option<Act>) {
    if a.None? then id !in acts else id in acts && acts[id] == a.value
  }

  /** A step changes its own activity and may add a message; it leaves every other activity alone. */
  lemma OwnAct(s: State, e: Step)
    requires Guard(s, e) && !e.Wait?
    ensures Is(ActsAfter(s, e), e.id, Becomes(s, e))
  {
  }

  lemma OtherActs(s: State, e: Step, id: nat)
    requires Guard(s, e) && id in s.acts && (e.Wait? || e.id != id)
    ensures Is(ActsAfter(s, e), id, Some(s.acts[id]))
  {
  }

  /** Every other activity after a step was there before it, or is the message it sent. */
  lemma ActSource(s: State, e: Step, id: nat)
    requires Guard(s, e) && id in ActsAfter(s, e) && (e.Wait? || id != e.id)
    ensures Is(s.acts, id, Some(ActsAfter(s, e)[id])) || Sends(s, e) == Some((id, ActsAfter(s, e)[id]))
  {
  }

  /** What a step sends is a message. */
  lemma SendsMessages(s: State, e: Step)
    requires Guard(s, e) && Sends(s, e).Some?
    ensures Sends(s, e).value.1.PollMsg? || Sends(s, e).value.1.RemediateMsg?
  {
  }

  /** So any other activity is what it was, unless it is a message just sent. */
  lemma OthersAlike(s: State, e: Step, id: nat)
    requires Guard(s, e) && (e.Wait? || id != e.id)
    ensures id in s.acts ==> Is(ActsAfter(s, e), id, Some(s.acts[id]))
    ensures id !in s.acts && id in ActsAfter(s, e) ==>
              ActsAfter(s, e)[id].PollMsg? || ActsAfter(s, e)[id].RemediateMsg?
  {
    if id in s.acts {
      OtherActs(s, e, id);
    } else if id in ActsAfter(s, e) {
      ActSource(s, e, id);
      SendsMessages(s, e);
    }
  }

  const EMPTY := State(Db(0, map[], {}), map[])

  ghost predicate IsExecution(ss: seq<State>, es: seq<Step>) {
    && |ss| == |es| + 1
    && forall k :: 0 <= k < |es| ==> Guard(ss[k], es[k]) && ss[k + 1] == Then(ss[k], es[k])
  }

  lemma StepMore(ss: seq<State>, es: seq<Step>, s: State, e: Step)
    requires IsExecution(ss, es) && ss[|es|] == s && Guard(s, e)
    ensures IsExecution(ss + [Then(s, e)], es + [e])
  {
  }

  /** The store's view of an execution. */
  ghost function Dbs(ss: seq<State>): seq<Db> {
    seq(|ss|, k requires 0 <= k < |ss| => ss[k].db)
  }

  ghost function Events(ss: seq<State>, es: seq<Step>): seq<Event>
    requires IsExecution(ss, es)
  {
    seq(|es|, k requires 0 <= k < |es| => EventOf(ss[k], es[k]))
  }

  /** Every execution is, seen from the table, a history of store calls, so the laws of `StoreLog` hold of it. */
  lemma ExecutionIsRun(ss: seq<State>, es: seq<Step>)
    requires IsExecution(ss, es)
    ensures IsRun(Dbs(ss), Events(ss, es))
  {
    forall k | 0 <= k < |es|
      ensures Allowed(Dbs(ss)[k], Events(ss, es)[k]) && Dbs(ss)[k + 1] == Next(Dbs(ss)[k], Events(ss, es)[k])
    {
      assert Guard(ss[k], es[k]) && ss[k + 1] == Then(ss[k], es[k]);
    }
  }

  lemma AlwaysValid(ss: seq<State>, es: seq<Step>, k: nat)
    requires IsExecution(ss, es) && ss[0] == EMPTY && k < |ss|
    ensures Valid(ss[k].db)
  {
    ExecutionIsRun(ss, es);
    RowInvariant(Dbs(ss), Events(ss, es), k);
    assert Dbs(ss)[k] == ss[k].db;
  }
}
