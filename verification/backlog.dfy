/** What a run files, and how repeated runs drain the backlog. */
module Backlog {
  import opened Options
  import opened Strings
  import opened Discovery
  import opened GitHub
  import opened Ingest

  // --- one run -------------------------------------------------------------------------------

  lemma {:induction false} FreshGrows(fs: seq<Finding>, filed: set<string>, m: nat, n: nat)
    requires m <= n <= |fs|
    ensures |Fresh(fs, filed, m)| <= |Fresh(fs, filed, n)|
    ensures Fresh(fs, filed, n)[..|Fresh(fs, filed, m)|] == Fresh(fs, filed, m)
    ensures (exists i :: m <= i < n && IsNew(fs, filed, i)) ==> |Fresh(fs, filed, m)| < |Fresh(fs, filed, n)|
  {
    if m < n {
      FreshGrows(fs, filed, m, n - 1);
    }
  }

  /** Two sets that agree on the fingerprints of the findings, as what a dry run and the real run find filed. */
  predicate AgreeOn(fs: seq<Finding>, a: set<string>, b: set<string>) {
    forall i :: 0 <= i < |fs| ==> (fs[i].fingerprint in a <==> fs[i].fingerprint in b)
  }

  lemma {:induction false} FreshDepends(fs: seq<Finding>, a: set<string>, b: set<string>, n: nat)
    requires n <= |fs| && AgreeOn(fs, a, b)
    ensures Fresh(fs, a, n) == Fresh(fs, b, n)
  {
    if n > 0 {
      FreshDepends(fs, a, b, n - 1);
    }
  }

  lemma StopDepends(fs: seq<Finding>, a: set<string>, b: set<string>, cap: Option<int>, i: nat)
    requires i < |fs| && AgreeOn(fs, a, b)
    ensures StopsAt(fs, a, cap, i) <==> StopsAt(fs, b, cap, i)
  {
    FreshDepends(fs, a, b, i);
  }

  /** The findings, what is filed of them and the cap decide how far a run looks and what it takes, so a dry
      run reports what the real run files and skips. */
  lemma DryRunAgrees(fs: seq<Finding>, a: set<string>, b: set<string>, cap: Option<int>, dry: nat, real_: nat)
    requires AgreeOn(fs, a, b) && LooksAt(fs, a, cap, dry) && LooksAt(fs, b, cap, real_)
    ensures dry == real_ && Fresh(fs, a, dry) == Fresh(fs, b, real_)
  {
    if dry < |fs| {
      StopDepends(fs, a, b, cap, dry);
    }
    if real_ < |fs| {
      StopDepends(fs, a, b, cap, real_);
    }
    FreshDepends(fs, a, b, dry);
  }

  lemma FiledAlike(listing: seq<Item>, fs: seq<Finding>, a: set<string>, b: set<string>)
    requires forall fp :: fp in Wanted(Fingerprints(fs)) ==> (fp in a <==> IsFiled(listing, fp))
    requires forall fp :: fp in Wanted(Fingerprints(fs)) ==> (fp in b <==> IsFiled(listing, fp))
    ensures AgreeOn(fs, a, b)
  {
    forall i | 0 <= i < |fs|
      ensures fs[i].fingerprint in a <==> fs[i].fingerprint in b
    {
      assert Fingerprints(fs)[i] in Wanted(Fingerprints(fs));
    }
  }

  /** A dry run and then the real one: they report the same findings and the same number skipped, and the
      tracker is what the real run alone would leave. */
  method PreviewThenFile(tracker: Tracker, fs: seq<Finding>, maxNew: Option<int>, envLimit: int)
    returns (preview: seq<Finding>, wouldSkip: nat, created: seq<Finding>, skipped: nat)
    requires PrintsIssues(tracker.printed, tracker.word)
    modifies tracker
    ensures preview == created && wouldSkip == skipped
    ensures tracker.listing == Posted(created, old(tracker.next), tracker.printed) + old(tracker.listing)
    ensures tracker.next == old(tracker.next) + |created|
  {
    ghost var listing := tracker.listing;
    var dry, looked;
    ghost var a, b;
    preview, wouldSkip, dry, a := IngestFindings(tracker, fs, true, maxNew, envLimit);
    created, skipped, looked, b := IngestFindings(tracker, fs, false, maxNew, envLimit);
    FiledAlike(listing, fs, a, b);
    DryRunAgrees(fs, a, b, Limit(maxNew, envLimit), dry, looked);
  }

  function AtMost(cap: Option<int>, available: nat): nat {
    if cap.None? || cap.value >= available then available else if cap.value < 0 then 0 else cap.value
  }

  /** A run files the first min(cap, available) new findings, in input order. */
  lemma FilesFirst(fs: seq<Finding>, filed: set<string>, cap: Option<int>, looked: nat)
    requires LooksAt(fs, filed, cap, looked)
    ensures var all := Fresh(fs, filed, |fs|);
            Fresh(fs, filed, looked) == all[..AtMost(cap, |all|)]
  {
    FreshGrows(fs, filed, looked, |fs|);
    NotPastCap(fs, filed, cap, looked);
  }

  lemma {:induction false} NotPastCap(fs: seq<Finding>, filed: set<string>, cap: Option<int>, n: nat)
    requires n <= |fs| && forall i: nat :: i < n ==> !StopsAt(fs, filed, cap, i)
    ensures cap.Some? ==> Fresh(fs, filed, n) == [] || |Fresh(fs, filed, n)| <= cap.value
  {
    if n > 0 {
      NotPastCap(fs, filed, cap, n - 1);
      assert !StopsAt(fs, filed, cap, n - 1);
    }
  }

  // --- what is new ---------------------------------------------------------------------------

  lemma {:induction false} FreshAreNew(fs: seq<Finding>, filed: set<string>, n: nat, k: nat) returns (i: nat)
    requires n <= |fs| && k < |Fresh(fs, filed, n)|
    ensures i < n && IsNew(fs, filed, i) && fs[i] == Fresh(fs, filed, n)[k] && |Fresh(fs, filed, i)| == k
  {
    if k < |Fresh(fs, filed, n - 1)| {
      i := FreshAreNew(fs, filed, n - 1, k);
    } else {
      i := n - 1;
    }
  }

  /** The new findings have distinct fingerprints. */
  lemma FreshDistinct(fs: seq<Finding>, filed: set<string>, a: nat, b: nat)
    requires a < b < |Fresh(fs, filed, |fs|)|
    ensures Fresh(fs, filed, |fs|)[a].fingerprint != Fresh(fs, filed, |fs|)[b].fingerprint
  {
    var i := FreshAreNew(fs, filed, |fs|, a);
    var j := FreshAreNew(fs, filed, |fs|, b);
    if i > j {
      FreshGrows(fs, filed, j, i);
    }
  }

  /** Every fingerprint not filed before is among the new findings, once. */
  lemma {:induction false} FreshCovers(fs: seq<Finding>, filed: set<string>, n: nat, i: nat) returns (k: nat)
    requires i < n <= |fs| && fs[i].fingerprint !in filed
    ensures k < |Fresh(fs, filed, n)| && Fresh(fs, filed, n)[k].fingerprint == fs[i].fingerprint
  {
    if i < n - 1 {
      k := FreshCovers(fs, filed, n - 1, i);
    } else if IsNew(fs, filed, i) {
      k := |Fresh(fs, filed, n)| - 1;
    } else {
      var j :| 0 <= j < i && fs[j].fingerprint == fs[i].fingerprint;
      k := FreshCovers(fs, filed, n - 1, j);
    }
  }

  /** Filing the first `m` new findings leaves exactly the others new. */
  lemma {:induction false} FreshAfter(fs: seq<Finding>, filed: set<string>, filed': set<string>, m: nat, n: nat)
    requires n <= |fs| && m <= |Fresh(fs, filed, |fs|)|
    requires forall i :: 0 <= i < |fs| ==> (fs[i].fingerprint in filed' <==>
               fs[i].fingerprint in filed
               || exists j :: 0 <= j < m && Fresh(fs, filed, |fs|)[j].fingerprint == fs[i].fingerprint)
    ensures var before := Fresh(fs, filed, n);
            Fresh(fs, filed', n) == if |before| <= m then [] else before[m..]
  {
    if n > 0 {
      FreshAfter(fs, filed, filed', m, n - 1);
      var all, p := Fresh(fs, filed, |fs|), |Fresh(fs, filed, n - 1)|;
      if IsNew(fs, filed, n - 1) {
        FreshGrows(fs, filed, n, |fs|);
        assert all[p] == Fresh(fs, filed, n)[p] == fs[n - 1];
        forall j | 0 <= j < m && all[j].fingerprint == fs[n - 1].fingerprint
          ensures j == p
        {
          if j < p {
            FreshDistinct(fs, filed, j, p);
          } else if p < j {
            FreshDistinct(fs, filed, p, j);
          }
        }
      }
    }
  }

  // --- repeated runs -------------------------------------------------------------------------

  /** A printed finding carries the marker of its own fingerprint and of no other finding's. */
  ghost predicate Identifies(printed: Finding -> Text, fs: seq<Finding>) {
    forall f, g :: f in fs && g in fs ==>
      (Contains(printed(f).body, MarkerOf(g.fingerprint)) <==> g.fingerprint == f.fingerprint)
  }

  predicate PlainFingerprints(fs: seq<Finding>) {
    forall f :: f in fs ==> PlainFingerprint(f.fingerprint)
  }

  /** No text of a finding contains the marker of another fingerprint. */
  ghost predicate NoneQuoted(fs: seq<Finding>, word: char -> bool) {
    forall f, g :: f in fs && g in fs && Quotes(f, g.fingerprint, word) ==> g.fingerprint == f.fingerprint
  }

  /** Issue bodies do if and only if no finding quotes the marker of another. */
  lemma BodiesIdentify(fs: seq<Finding>, word: char -> bool, printed: Finding -> Text)
    requires PrintsIssues(printed, word) && PlainFingerprints(fs)
    ensures Identifies(printed, fs) <==> NoneQuoted(fs, word)
  {
    forall f, g | f in fs && g in fs
      ensures Contains(printed(f).body, MarkerOf(g.fingerprint)) <==>
              g.fingerprint == f.fingerprint || Quotes(f, g.fingerprint, word)
    {
      MarkerIdentifies(f, g.fingerprint, word);
    }
  }

  ghost function FiledSet(listing: seq<Item>, fs: seq<Finding>): set<string> {
    set f | f in fs && IsFiled(listing, f.fingerprint) :: f.fingerprint
  }

  /** The findings still to be filed. */
  ghost function Remaining(listing: seq<Item>, fs: seq<Finding>): seq<Finding> {
    Fresh(fs, FiledSet(listing, fs), |fs|)
  }

  lemma FiledSetIs(listing: seq<Item>, fs: seq<Finding>, g: Finding)
    requires g in fs
    ensures g.fingerprint in FiledSet(listing, fs) <==> IsFiled(listing, g.fingerprint)
  {
  }

  lemma FiledOnTop(item: Item, listing: seq<Item>, fp: string)
    ensures IsFiled([item] + listing, fp) <==> Files(item, fp) || IsFiled(listing, fp)
  {
    var all := [item] + listing;
    if Files(item, fp) {
      assert Files(all[0], fp);
    }
    if i :| 0 <= i < |listing| && Files(listing[i], fp) {
      assert Files(all[i + 1], fp);
    }
  }

  /** The issues a run adds file exactly the fingerprints it created. */
  lemma {:induction false} PostedFiles(created: seq<Finding>, next: nat, printed: Finding -> Text,
                                       listing: seq<Item>, fs: seq<Finding>, g: Finding)
    requires Identifies(printed, fs) && g in fs && forall f :: f in created ==> f in fs
    ensures IsFiled(Posted(created, next, printed) + listing, g.fingerprint) <==>
            IsFiled(listing, g.fingerprint) || exists j :: 0 <= j < |created| && created[j].fingerprint == g.fingerprint
  {
    if created == [] {
      assert Posted(created, next, printed) + listing == listing;
    } else {
      var n := |created| - 1;
      var item := Item(next + n, false, printed(created[n]).title, Some(printed(created[n]).body));
      var below := Posted(created[..n], next, printed) + listing;
      assert Posted(created, next, printed) + listing == [item] + below;
      PostedFiles(created[..n], next, printed, listing, fs, g);
      FiledOnTop(item, below, g.fingerprint);
      assert created[n] in fs;
      LastOrEarlier(created, n, g.fingerprint);
    }
  }

  lemma LastOrEarlier(created: seq<Finding>, n: nat, fp: string)
    requires n == |created| - 1
    ensures (exists j :: 0 <= j < |created| && created[j].fingerprint == fp) <==>
            created[n].fingerprint == fp || exists j :: 0 <= j < n && created[..n][j].fingerprint == fp
  {
    forall j | 0 <= j < n
      ensures created[..n][j] == created[j]
    {
    }
    if j :| 0 <= j < |created| && created[j].fingerprint == fp && j != n {
      assert created[..n][j].fingerprint == fp;
    }
  }

  lemma FreshInFindings(fs: seq<Finding>, filed: set<string>, f: Finding)
    requires f in Fresh(fs, filed, |fs|)
    ensures f in fs
  {
    var k :| 0 <= k < |Fresh(fs, filed, |fs|)| && Fresh(fs, filed, |fs|)[k] == f;
    var i := FreshAreNew(fs, filed, |fs|, k);
  }

  lemma RunFiles(listing: seq<Item>, next: nat, fs: seq<Finding>, printed: Finding -> Text, all: seq<Finding>,
                 m: nat, g: Finding)
    requires Identifies(printed, fs) && m <= |all| && g in fs && forall f :: f in all[..m] ==> f in fs
    ensures g.fingerprint in FiledSet(Posted(all[..m], next, printed) + listing, fs) <==>
            g.fingerprint in FiledSet(listing, fs) || exists j :: 0 <= j < m && all[j].fingerprint == g.fingerprint
  {
    PostedFiles(all[..m], next, printed, listing, fs, g);
    FiledSetIs(listing, fs, g);
    FiledSetIs(Posted(all[..m], next, printed) + listing, fs, g);
    assert forall j :: 0 <= j < m ==> all[..m][j] == all[j];
  }

  /** A run that files the first `m` remaining findings leaves exactly the others. */
  lemma RunLeaves(listing: seq<Item>, next: nat, fs: seq<Finding>, printed: Finding -> Text, m: nat)
    requires Identifies(printed, fs) && m <= |Remaining(listing, fs)|
    ensures Remaining(Posted(Remaining(listing, fs)[..m], next, printed) + listing, fs) == Remaining(listing, fs)[m..]
  {
    var all := Remaining(listing, fs);
    var listing' := Posted(all[..m], next, printed) + listing;
    forall f | f in all[..m]
      ensures f in fs
    {
      FreshInFindings(fs, FiledSet(listing, fs), f);
    }
    forall i | 0 <= i < |fs|
      ensures fs[i].fingerprint in FiledSet(listing', fs) <==>
              fs[i].fingerprint in FiledSet(listing, fs)
              || exists j :: 0 <= j < m && all[j].fingerprint == fs[i].fingerprint
    {
      RunFiles(listing, next, fs, printed, all, m, fs[i]);
    }
    FreshAfter(fs, FiledSet(listing, fs), FiledSet(listing', fs), m, |fs|);
  }

  /** The listing and the next issue number after one run capped at `k`. */
  ghost function AfterRun(listing: seq<Item>, next: nat, fs: seq<Finding>, k: nat, printed: Finding -> Text)
    : (seq<Item>, nat)
  {
    var left := Remaining(listing, fs);
    var m := AtMost(Some(k), |left|);
    (Posted(left[..m], next, printed) + listing, next + m)
  }

  /** The same after `r` runs over the same findings. */
  ghost function AfterRuns(listing: seq<Item>, next: nat, fs: seq<Finding>, k: nat, printed: Finding -> Text,
                           r: nat): (seq<Item>, nat)
  {
    if r == 0 then (listing, next)
    else
      var before := AfterRuns(listing, next, fs, k, printed, r - 1);
      AfterRun(before.0, before.1, fs, k, printed)
  }

  /** What `IngestFindings` leaves behind is this. */
  lemma RunIsAfterRun(listing: seq<Item>, next: nat, fs: seq<Finding>, k: nat, printed: Finding -> Text,
                      filed: set<string>, looked: nat)
    requires forall fp :: fp in Wanted(Fingerprints(fs)) ==> (fp in filed <==> IsFiled(listing, fp))
    requires LooksAt(fs, filed, Some(k), looked)
    ensures var created := Fresh(fs, filed, looked);
            (Posted(created, next, printed) + listing, next + |created|) == AfterRun(listing, next, fs, k, printed)
  {
    forall i | 0 <= i < |fs|
      ensures fs[i].fingerprint in filed <==> fs[i].fingerprint in FiledSet(listing, fs)
    {
      assert Fingerprints(fs)[i] in Wanted(Fingerprints(fs));
      FiledSetIs(listing, fs, fs[i]);
    }
    FreshDepends(fs, filed, FiledSet(listing, fs), |fs|);
    FilesFirst(fs, filed, Some(k), looked);
  }

  lemma {:induction false} PostedConcat(a: seq<Finding>, b: seq<Finding>, next: nat, printed: Finding -> Text)
    ensures Posted(b, next + |a|, printed) + Posted(a, next, printed) == Posted(a + b, next, printed)
  {
    if b == [] {
      assert a + b == a;
    } else {
      var n := |b| - 1;
      PostedConcat(a, b[..n], next, printed);
      var item := Item(next + |a| + n, false, printed(b[n]).title, Some(printed(b[n]).body));
      assert (a + b)[..|a| + n] == a + b[..n] && (a + b)[|a| + n] == b[n];
      assert Posted(a + b, next, printed) == [item] + Posted(a + b[..n], next, printed);
      assert Posted(b, next + |a|, printed) == [item] + Posted(b[..n], next + |a|, printed);
    }
  }

  /** How many of `d` are done after `r` rounds of at most `k`. */
  function Done(r: nat, k: nat, d: nat): nat {
    AtMost(Some(r * k), d)
  }

  lemma DoneGrows(r: nat, k: nat, d: nat)
    requires r > 0
    ensures Done(r - 1, k, d) + AtMost(Some(k), d - Done(r - 1, k, d)) == Done(r, k, d) <= d
  {
    assert r * k == (r - 1) * k + k;
  }

  lemma TakeOn<T>(s: seq<T>, a: nat, m: nat)
    requires a + m <= |s|
    ensures s[..a] + s[a..][..m] == s[..a + m] && s[a..][m..] == s[a + m..]
  {
    assert s[a..][..m] == s[a..a + m];
  }

  lemma PostedOnTop(listing: seq<Item>, next: nat, printed: Finding -> Text, all: seq<Finding>, before: nat, m: nat)
    requires before + m <= |all|
    ensures Posted(all[before..][..m], next + before, printed) + (Posted(all[..before], next, printed) + listing)
            == Posted(all[..before + m], next, printed) + listing
    ensures all[before..][m..] == all[before + m..]
  {
    var a, b := Posted(all[..before], next, printed), Posted(all[before..][..m], next + before, printed);
    PostedConcat(all[..before], all[before..][..m], next, printed);
    TakeOn(all, before, m);
    assert b + (a + listing) == (b + a) + listing;
  }

  /** One more run on top of a tracker that holds the first `before`. */
  lemma OneMoreRun(listing: seq<Item>, next: nat, fs: seq<Finding>, k: nat, printed: Finding -> Text,
                   all: seq<Finding>, before: nat)
    requires Identifies(printed, fs) && before <= |all|
    requires Remaining(Posted(all[..before], next, printed) + listing, fs) == all[before..]
    ensures var done := before + AtMost(Some(k), |all| - before);
            && AfterRun(Posted(all[..before], next, printed) + listing, next + before, fs, k, printed)
               == (Posted(all[..done], next, printed) + listing, next + done)
            && Remaining(Posted(all[..done], next, printed) + listing, fs) == all[done..]
  {
    var state, m := Posted(all[..before], next, printed) + listing, AtMost(Some(k), |all| - before);
    RunLeaves(state, next + before, fs, printed, m);
    PostedOnTop(listing, next, printed, all, before, m);
  }

  /** The tracker holds the first `done` of `all` on top of what it held at the start, and the rest of
      them remain. */
  ghost predicate Holds(state: (seq<Item>, nat), listing: seq<Item>, next: nat, fs: seq<Finding>,
                        printed: Finding -> Text, all: seq<Finding>, done: nat)
  {
    && done <= |all|
    && state == (Posted(all[..done], next, printed) + listing, next + done)
    && Remaining(state.0, fs) == all[done..]
  }

  lemma HoldsMore(state: (seq<Item>, nat), listing: seq<Item>, next: nat, fs: seq<Finding>, k: nat,
                  printed: Finding -> Text, all: seq<Finding>, before: nat, done: nat)
    requires Identifies(printed, fs) && Holds(state, listing, next, fs, printed, all, before)
    requires done == before + AtMost(Some(k), |all| - before)
    ensures Holds(AfterRun(state.0, state.1, fs, k, printed), listing, next, fs, printed, all, done)
  {
    OneMoreRun(listing, next, fs, k, printed, all, before);
  }

  /** After `r` runs capped at `k` the tracker holds the first min(r*k, d) of the d findings that were
      not filed at the start, each filed once and in order, and the others remain. */
  lemma {:induction false} RunsDrain(listing: seq<Item>, next: nat, fs: seq<Finding>, k: nat,
                                     printed: Finding -> Text, r: nat)
    requires Identifies(printed, fs)
    ensures var all := Remaining(listing, fs);
            Holds(AfterRuns(listing, next, fs, k, printed, r), listing, next, fs, printed, all, Done(r, k, |all|))
  {
    var all := Remaining(listing, fs);
    if r == 0 {
      assert Posted(all[..0], next, printed) + listing == listing;
    } else {
      RunsDrain(listing, next, fs, k, printed, r - 1);
      DoneGrows(r, k, |all|);
      HoldsMore(AfterRuns(listing, next, fs, k, printed, r - 1), listing, next, fs, k, printed, all,
                Done(r - 1, k, |all|), Done(r, k, |all|));
    }
  }

  /** The backlog is empty after ceil(d / k) runs and not before. */
  lemma BacklogDrains(listing: seq<Item>, next: nat, fs: seq<Finding>, k: nat, printed: Finding -> Text, r: nat)
    requires Identifies(printed, fs) && k > 0
    ensures var d := |Remaining(listing, fs)|;
            Remaining(AfterRuns(listing, next, fs, k, printed, r).0, fs) == [] <==> r >= (d + k - 1) / k
  {
    RunsDrain(listing, next, fs, k, printed, r);
    CeilingReached(|Remaining(listing, fs)|, k, r);
  }

  lemma CeilingReached(d: nat, k: nat, r: nat)
    requires k > 0
    ensures r * k >= d <==> r >= (d + k - 1) / k
  {
    var q := (d + k - 1) / k;
    assert q * k <= d + k - 1 < q * k + k;
    if r >= q {
      assert r * k >= q * k;
    } else {
      assert (r + 1) * k <= q * k;
    }
  }

  method IngestOnce(tracker: Tracker, fs: seq<Finding>, k: nat, envLimit: int)
    requires PrintsIssues(tracker.printed, tracker.word)
    modifies tracker
    ensures (tracker.listing, tracker.next)
            == AfterRun(old(tracker.listing), old(tracker.next), fs, k, tracker.printed)
  {
    ghost var listing, next := tracker.listing, tracker.next;
    var created, skipped, looked, filed := IngestFindings(tracker, fs, false, Some(k), envLimit);
    RunIsAfterRun(listing, next, fs, k, tracker.printed, filed, looked);
  }

  /** Run after run of the filing method over the same findings, each capped at `k`. */
  method IngestRepeatedly(tracker: Tracker, fs: seq<Finding>, k: nat, envLimit: int, runs: nat)
    requires PrintsIssues(tracker.printed, tracker.word)
    modifies tracker
    ensures (tracker.listing, tracker.next)
            == AfterRuns(old(tracker.listing), old(tracker.next), fs, k, tracker.printed, runs)
  {
    ghost var listing, next := tracker.listing, tracker.next;
    for r := 0 to runs
      invariant (tracker.listing, tracker.next) == AfterRuns(listing, next, fs, k, tracker.printed, r)
    {
      IngestOnce(tracker, fs, k, envLimit);
    }
  }

  /** When no finding quotes another's marker, the runs together file the first min(runs * k, d) of the d
      findings that were not filed, each once and in order, and nothing is left if and only if there were
      ceil(d / k) of them. */
  method DrainBacklog(tracker: Tracker, fs: seq<Finding>, k: nat, envLimit: int, runs: nat)
    requires PrintsIssues(tracker.printed, tracker.word) && k > 0
    requires PlainFingerprints(fs) && NoneQuoted(fs, tracker.word)
    modifies tracker
    ensures Drained(tracker.listing, tracker.next, old(tracker.listing), old(tracker.next), fs, k, tracker.printed,
                    runs)
  {
    ghost var listing, next := tracker.listing, tracker.next;
    IngestRepeatedly(tracker, fs, k, envLimit, runs);
    BodiesIdentify(fs, tracker.word, tracker.printed);
    RunsLeaveDrained(listing, next, fs, k, tracker.printed, runs);
  }

  ghost predicate Drained(listing': seq<Item>, next': nat, listing: seq<Item>, next: nat, fs: seq<Finding>, k: nat,
                          printed: Finding -> Text, runs: nat)
    requires k > 0
  {
    var all := Remaining(listing, fs);
    var done := Done(runs, k, |all|);
    && listing' == Posted(all[..done], next, printed) + listing && next' == next + done
    && Remaining(listing', fs) == all[done..]
    && (Remaining(listing', fs) == [] <==> runs >= (|all| + k - 1) / k)
  }

  lemma RunsLeaveDrained(listing: seq<Item>, next: nat, fs: seq<Finding>, k: nat, printed: Finding -> Text, runs: nat)
    requires Identifies(printed, fs) && k > 0
    ensures var after := AfterRuns(listing, next, fs, k, printed, runs);
            Drained(after.0, after.1, listing, next, fs, k, printed, runs)
  {
    RunsDrain(listing, next, fs, k, printed, runs);
    BacklogDrains(listing, next, fs, k, printed, runs);
  }

  // --- a quoted marker -----------------------------------------------------------------------

  /** What `f` quotes counts as filed once `f` is. */
  lemma QuotedCountsAsFiled(listing: seq<Item>, number: nat, f: Finding, title: string, fp: string,
                            word: char -> bool)
    requires PlainFingerprint(f.fingerprint) && PlainFingerprint(fp) && Quotes(f, fp, word)
    requires Item(number, false, title, Some(IssueBody(f, word))) in listing
    ensures IsFiled(listing, fp)
  {
    MarkerIdentifies(f, fp, word);
    var i :| 0 <= i < |listing| && listing[i] == Item(number, false, title, Some(IssueBody(f, word)));
    assert Files(listing[i], fp);
  }

  lemma BothRemain(f: Finding, g: Finding)
    requires f.fingerprint != g.fingerprint
    ensures Remaining([], [f, g]) == [f, g]
  {
    var fs, filed := [f, g], FiledSet([], [f, g]);
    assert filed == {};
    assert IsNew(fs, filed, 0) && IsNew(fs, filed, 1);
    assert Fresh(fs, filed, 1) == Fresh(fs, filed, 0) + [f] == [f];
    assert Fresh(fs, filed, 2) == Fresh(fs, filed, 1) + [g];
  }

  lemma FirstOfTwo(f: Finding, g: Finding, printed: Finding -> Text)
    requires f.fingerprint != g.fingerprint
    ensures AfterRun([], 1, [f, g], 1, printed) == ([Item(1, false, printed(f).title, Some(printed(f).body))], 2)
  {
    BothRemain(f, g);
    assert AtMost(Some(1), 2) == 1;
    assert [f, g][..1] == [f] && [f][..0] == [];
    var only := [Item(1, false, printed(f).title, Some(printed(f).body))];
    assert Posted([f], 1, printed) == only + Posted([], 1, printed) == only && only + [] == only;
  }

  lemma NoRunNeeded(listing: seq<Item>, next: nat, fs: seq<Finding>, k: nat, printed: Finding -> Text)
    requires Remaining(listing, fs) == []
    ensures AfterRun(listing, next, fs, k, printed) == (listing, next)
  {
    assert AtMost(Some(k), 0) == 0;
    assert Posted([], next, printed) + listing == listing;
  }

  /** Once `f` is filed, so is what it quotes, and a run over the two files nothing. */
  lemma QuotedRemainsNot(listing: seq<Item>, f: Finding, g: Finding, word: char -> bool, text: Text)
    requires PlainFingerprint(f.fingerprint) && PlainFingerprint(g.fingerprint) && Quotes(f, g.fingerprint, word)
    requires text.body == IssueBody(f, word) && listing == [Item(1, false, text.title, Some(text.body))]
    ensures Remaining(listing, [f, g]) == []
  {
    OwnCountsAsFiled(listing, 1, f, text.title, word);
    QuotedCountsAsFiled(listing, 1, f, text.title, g.fingerprint, word);
    NothingRemains(listing, [f, g]);
  }

  lemma NothingRemains(listing: seq<Item>, fs: seq<Finding>)
    requires forall f :: f in fs ==> IsFiled(listing, f.fingerprint)
    ensures Remaining(listing, fs) == []
  {
    forall i | 0 <= i < |fs|
      ensures fs[i].fingerprint in FiledSet(listing, fs)
    {
      FiledSetIs(listing, fs, fs[i]);
    }
    NothingFresh(fs, FiledSet(listing, fs), |fs|);
  }

  lemma {:induction false} NothingFresh(fs: seq<Finding>, filed: set<string>, n: nat)
    requires n <= |fs| && forall i :: 0 <= i < |fs| ==> fs[i].fingerprint in filed
    ensures Fresh(fs, filed, n) == []
  {
    if n > 0 {
      NothingFresh(fs, filed, n - 1);
    }
  }

  /** Once a run leaves the tracker as it is, so do all after it. */
  lemma {:induction false} RunsStay(listing: seq<Item>, next: nat, fs: seq<Finding>, k: nat, printed: Finding -> Text,
                                    runs: nat, last: (seq<Item>, nat))
    requires AfterRun(listing, next, fs, k, printed) == last && AfterRun(last.0, last.1, fs, k, printed) == last
    requires runs >= 1
    ensures AfterRuns(listing, next, fs, k, printed, runs) == last
    decreases runs
  {
    if runs == 1 {
      assert AfterRuns(listing, next, fs, k, printed, 0) == (listing, next);
    } else {
      RunsStay(listing, next, fs, k, printed, runs - 1, last);
    }
  }

  /** That is why no finding may quote another's marker: if `f` quotes that of `g`, runs over the two, one
      issue at a time, file `f` and never `g`, however many there are. */
  lemma QuotedNeverFiled(f: Finding, g: Finding, word: char -> bool, printed: Finding -> Text, runs: nat)
    requires PrintsIssues(printed, word) && PlainFingerprint(f.fingerprint) && PlainFingerprint(g.fingerprint)
    requires f.fingerprint != g.fingerprint && Quotes(f, g.fingerprint, word) && runs >= 1
    ensures AfterRuns([], 1, [f, g], 1, printed, runs) == ([Item(1, false, printed(f).title, Some(printed(f).body))], 2)
  {
    var listing := [Item(1, false, printed(f).title, Some(printed(f).body))];
    assert printed(f).body == IssueBody(f, word);
    FirstOfTwo(f, g, printed);
    QuotedRemainsNot(listing, f, g, word, printed(f));
    NoRunNeeded(listing, 2, [f, g], 1, printed);
    RunsStay([], 1, [f, g], 1, printed, runs, (listing, 2));
  }

  lemma OwnCountsAsFiled(listing: seq<Item>, number: nat, f: Finding, title: string, word: char -> bool)
    requires PlainFingerprint(f.fingerprint) && Item(number, false, title, Some(IssueBody(f, word))) in listing
    ensures IsFiled(listing, f.fingerprint)
  {
    MarkerIdentifies(f, f.fingerprint, word);
    var i :| 0 <= i < |listing| && listing[i] == Item(number, false, title, Some(IssueBody(f, word)));
    assert Files(listing[i], f.fingerprint);
  }
}
