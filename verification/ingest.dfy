/** Filing findings as issues: once each, at most so many per run, until the backlog is gone. */
module Ingest {
  import opened Options
  import opened Strings
  import opened Discovery
  import opened GitHub

  /** Title and body of an issue. */
  datatype Text = Text(title: string, body: string)

  /** What findings are printed as. */
  ghost predicate PrintsIssues(printed: Finding -> Text, word: char -> bool) {
    forall f: Finding {:trigger IssueBody(f, word)} :: printed(f) == Text(f.Title(), IssueBody(f, word))
  }

  /** The labelled issues of the repository, newest first. */
  class Tracker {
    const word: char -> bool  // what the mention filter takes for word characters
    ghost const printed: Finding -> Text
    var listing: seq<Item>
    var next: nat

    constructor (word: char -> bool, listing: seq<Item>, next: nat)
      ensures this.word == word && this.listing == listing && this.next == next
      ensures PrintsIssues(printed, word)
    {
      this.word := word;
      this.printed := (f: Finding) => Text(f.Title(), IssueBody(f, word));
      this.listing := listing;
      this.next := next;
    }

    method CreateIssue(title: string, body: string) returns (number: nat)
      modifies this
      ensures number == old(next) && next == number + 1
      ensures listing == [Item(number, false, title, Some(body))] + old(listing)
    {
      number := next;
      next := next + 1;
      listing := [Item(number, false, title, Some(body))] + listing;
    }
  }

  /** The fingerprint at `i` is neither filed nor an earlier finding's. */
  predicate IsNew(fs: seq<Finding>, filed: set<string>, i: nat) {
    && i < |fs| && fs[i].fingerprint !in filed
    && forall j :: 0 <= j < i ==> fs[j].fingerprint != fs[i].fingerprint
  }

  /** The new ones among the first `n` findings, in order. */
  function Fresh(fs: seq<Finding>, filed: set<string>, n: nat): seq<Finding>
    requires n <= |fs|
  {
    if n == 0 then [] else Fresh(fs, filed, n - 1) + (if IsNew(fs, filed, n - 1) then [fs[n - 1]] else [])
  }

  /** The cap stops the run at finding `i`: it is new, and enough new ones came before it. */
  predicate StopsAt(fs: seq<Finding>, filed: set<string>, cap: Option<int>, i: nat) {
    IsNew(fs, filed, i) && cap.Some? && |Fresh(fs, filed, i)| >= cap.value
  }

  /** The run looks at `looked` findings. */
  predicate LooksAt(fs: seq<Finding>, filed: set<string>, cap: Option<int>, looked: nat) {
    && looked <= |fs|
    && (looked < |fs| ==> StopsAt(fs, filed, cap, looked))
    && forall i: nat :: i < looked ==> !StopsAt(fs, filed, cap, i)
  }

  function Fingerprints(fs: seq<Finding>): seq<string> {
    seq(|fs|, i requires 0 <= i < |fs| => fs[i].fingerprint)
  }

  /** The issues a run adds, newest first. */
  ghost function Posted(created: seq<Finding>, next: nat, printed: Finding -> Text): seq<Item> {
    if created == [] then []
    else
      var n := |created| - 1;
      [Item(next + n, false, printed(created[n]).title, Some(printed(created[n]).body))]
      + Posted(created[..n], next, printed)
  }

  /** The environment's limit, where zero means none. */
  function Limit(maxNew: Option<int>, envLimit: int): Option<int> {
    if maxNew.Some? then maxNew else if envLimit == 0 then None else Some(envLimit)
  }

  lemma PostedOneMore(created: seq<Finding>, f: Finding, next: nat, printed: Finding -> Text)
    ensures Posted(created + [f], next, printed) ==
            [Item(next + |created|, false, printed(f).title, Some(printed(f).body))] + Posted(created, next, printed)
  {
    assert (created + [f])[..|created|] == created;
  }

  method FileFinding(tracker: Tracker, f: Finding)
    requires PrintsIssues(tracker.printed, tracker.word)
    modifies tracker
    ensures tracker.next == old(tracker.next) + 1
    ensures tracker.listing ==
            [Item(old(tracker.next), false, tracker.printed(f).title, Some(tracker.printed(f).body))]
            + old(tracker.listing)
  {
    var body := BuildIssueBody(f, tracker.word);
    var _ := tracker.CreateIssue(f.Title(), body);
  }

  /** The fingerprints met as new among the first `n` findings. */
  function Seen(fs: seq<Finding>, filed: set<string>, n: nat): set<string>
    requires n <= |fs|
  {
    if n == 0 then {}
    else Seen(fs, filed, n - 1) + (if IsNew(fs, filed, n - 1) then {fs[n - 1].fingerprint} else {})
  }

  lemma {:induction false} SeenIs(fs: seq<Finding>, filed: set<string>, n: nat, fp: string)
    requires n <= |fs|
    ensures fp in Seen(fs, filed, n) <==> fp !in filed && exists j :: 0 <= j < n && fs[j].fingerprint == fp
  {
    if n > 0 {
      SeenIs(fs, filed, n - 1, fp);
    }
  }

  /** The test of the loop tells whether the next finding is new. */
  lemma SeenTellsNew(fs: seq<Finding>, filed: set<string>, n: nat)
    requires n < |fs|
    ensures IsNew(fs, filed, n) <==> fs[n].fingerprint !in Seen(fs, filed, n) && fs[n].fingerprint !in filed
  {
    SeenIs(fs, filed, n, fs[n].fingerprint);
  }

  /** What the tracker holds once `created` is filed on top of `base`; nothing new on a dry run. */
  ghost predicate Booked(tracker: Tracker, dryRun: bool, created: seq<Finding>, base: seq<Item>, first: nat)
    reads tracker
  {
    if dryRun then tracker.next == first && tracker.listing == base
    else tracker.next == first + |created| && tracker.listing == Posted(created, first, tracker.printed) + base
  }

  method FileUnlessDry(tracker: Tracker, f: Finding, dryRun: bool, ghost created: seq<Finding>,
                       ghost base: seq<Item>, ghost first: nat)
    requires PrintsIssues(tracker.printed, tracker.word) && Booked(tracker, dryRun, created, base, first)
    modifies tracker
    ensures Booked(tracker, dryRun, created + [f], base, first)
  {
    if !dryRun {
      FileFinding(tracker, f);
      PostedOneMore(created, f, first, tracker.printed);
    }
  }

  /** The filing loop, given the fingerprints already filed. */
  method FileNew(tracker: Tracker, fs: seq<Finding>, dryRun: bool, cap: Option<int>, filed: set<string>)
    returns (created: seq<Finding>, skipped: nat, looked: nat)
    requires PrintsIssues(tracker.printed, tracker.word)
    modifies tracker
    ensures LooksAt(fs, filed, cap, looked)
    ensures created == Fresh(fs, filed, looked) && skipped == looked - |created|
    ensures if cap.Some? then |created| <= (if cap.value >= 0 then cap.value else 0) else looked == |fs|
    ensures cap.Some? && looked < |fs| ==> |created| >= cap.value
    ensures dryRun ==> tracker.listing == old(tracker.listing) && tracker.next == old(tracker.next)
    ensures !dryRun ==> tracker.listing == Posted(created, old(tracker.next), tracker.printed) + old(tracker.listing)
    ensures !dryRun ==> tracker.next == old(tracker.next) + |created|
  {
    created, skipped, looked := [], 0, 0;
    var seen: set<string> := {};
    while looked < |fs|
      invariant 0 <= looked <= |fs| && skipped == looked - |created|
      invariant created == Fresh(fs, filed, looked) && seen == Seen(fs, filed, looked)
      invariant forall i: nat :: i < looked ==> !StopsAt(fs, filed, cap, i)
      invariant cap.Some? ==> |created| <= (if cap.value >= 0 then cap.value else 0)
      invariant Booked(tracker, dryRun, created, old(tracker.listing), old(tracker.next))
    {
      var f := fs[looked];
      SeenTellsNew(fs, filed, looked);
      if f.fingerprint in seen || f.fingerprint in filed {
        skipped := skipped + 1;
        looked := looked + 1;
        continue;
      }
      if cap.Some? && |created| >= cap.value {
        break;
      }
      seen := seen + {f.fingerprint};
      FileUnlessDry(tracker, f, dryRun, created, old(tracker.listing), old(tracker.next));
      created := created + [f];
      looked := looked + 1;
    }
  }

  ghost predicate IsFiled(listing: seq<Item>, fp: string) {
    exists i :: 0 <= i < |listing| && Files(listing[i], fp)
  }

  /** Files one issue per new fingerprint. */
  method IngestFindings(tracker: Tracker, fs: seq<Finding>, dryRun: bool, maxNew: Option<int>, envLimit: int)
    returns (created: seq<Finding>, skipped: nat, looked: nat, ghost filed: set<string>)
    requires PrintsIssues(tracker.printed, tracker.word)
    modifies tracker
    ensures forall fp :: fp in Wanted(Fingerprints(fs)) ==> (fp in filed <==> IsFiled(old(tracker.listing), fp))
    ensures LooksAt(fs, filed, Limit(maxNew, envLimit), looked)
    ensures created == Fresh(fs, filed, looked) && skipped == looked - |created|
    ensures maxNew.None? && envLimit == 0 ==> looked == |fs|
    ensures maxNew.Some? || envLimit != 0 ==>
              var cap := if maxNew.Some? then maxNew.value else envLimit;
              && |created| <= (if cap >= 0 then cap else 0)
              && (looked < |fs| ==> |created| >= cap && IsNew(fs, filed, looked))
    ensures dryRun ==> tracker.listing == old(tracker.listing) && tracker.next == old(tracker.next)
    ensures !dryRun ==> tracker.listing == Posted(created, old(tracker.next), tracker.printed) + old(tracker.listing)
    ensures !dryRun ==> tracker.next == old(tracker.next) + |created|
  {
    var existing, _ := FindIssuesByFingerprint(Fingerprints(fs), tracker.listing);
    filed := existing.Keys;
    forall fp | fp in Wanted(Fingerprints(fs))
      ensures fp in filed <==> IsFiled(tracker.listing, fp)
    {
      FoundIffFiled(existing, Wanted(Fingerprints(fs)), tracker.listing, fp);
    }
    created, skipped, looked := FileNew(tracker, fs, dryRun, Limit(maxNew, envLimit), existing.Keys);
  }
}
