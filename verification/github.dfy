/** The GitHub listings the service reads, page by page, and the search for an open pull request. */
module GitHub {
  import opened Options
  import opened Strings
  import opened Discovery
  import opened References

  const PER_PAGE: nat := 100

  /** An entry of the issues endpoint, which lists pull requests too. */
  datatype Item = Item(number: nat, isPr: bool, title: string, body: Option<string>)

  /** Page `p`, counted from 1, of a listing that does not change while it is read. */
  function Page(listing: seq<Item>, p: nat): (batch: seq<Item>)
    requires p >= 1
  {
    if (p - 1) * PER_PAGE >= |listing| then []
    else if p * PER_PAGE >= |listing| then listing[(p - 1) * PER_PAGE..]
    else listing[(p - 1) * PER_PAGE..p * PER_PAGE]
  }

  function Issues(items: seq<Item>): seq<Item> {
    if items == [] then []
    else Issues(items[..|items| - 1]) + (if items[|items| - 1].isPr then [] else [items[|items| - 1]])
  }

  /** How many of the items are no pull requests. */
  function IssueCount(items: seq<Item>): nat {
    if items == [] then 0 else IssueCount(items[..|items| - 1]) + (if items[|items| - 1].isPr then 0 else 1)
  }

  /** Exactly the items that are no pull requests are kept, in their order. */
  lemma {:induction false} IssuesExactly(items: seq<Item>)
    ensures |Issues(items)| == IssueCount(items)
    ensures forall i :: 0 <= i < |items| && !items[i].isPr ==>
              IssueCount(items[..i]) < |Issues(items)| && Issues(items)[IssueCount(items[..i])] == items[i]
  {
    if items != [] {
      var init, last := items[..|items| - 1], items[|items| - 1];
      IssuesExactly(init);
      forall i | 0 <= i < |items| && !items[i].isPr
        ensures IssueCount(items[..i]) < |Issues(items)| && Issues(items)[IssueCount(items[..i])] == items[i]
      {
        if i < |init| {
          assert init[..i] == items[..i] && init[i] == items[i];
        }
      }
    }
  }

  lemma {:induction false} IssuesOfConcat(a: seq<Item>, b: seq<Item>)
    ensures Issues(a + b) == Issues(a) + Issues(b)
  {
    if b == [] {
      assert a + b == a;
    } else {
      IssuesOfConcat(a, b[..|b| - 1]);
      assert (a + b)[..|a + b| - 1] == a + b[..|b| - 1];
    }
  }

  /** A page extends the part of the listing read so far. */
  lemma PageExtends(listing: seq<Item>, p: nat, read: nat)
    requires p >= 1 && read == (p - 1) * PER_PAGE <= |listing|
    ensures var n := |Page(listing, p)|;
            && read + n <= |listing| && listing[..read] + Page(listing, p) == listing[..read + n]
            && n <= PER_PAGE && (n < PER_PAGE ==> read + n == |listing|)
  {
  }

  /** Collects every open labelled issue, leaving pull requests out. */
  method GetLabeledIssues(listing: seq<Item>) returns (issues: seq<Item>, requests: nat)
    ensures issues == Issues(listing)
    ensures requests == |listing| / 100 + 1
  {
    issues, requests := [], 0;
    var page := 1;
    while true
      invariant page >= 1 && requests == page - 1 && requests * PER_PAGE <= |listing|
      invariant issues == Issues(listing[..requests * PER_PAGE])
      decreases |listing| + PER_PAGE - requests * PER_PAGE
    {
      var batch := Page(listing, page);
      PageExtends(listing, page, requests * PER_PAGE);
      IssuesOfConcat(listing[..requests * PER_PAGE], batch);
      requests := requests + 1;
      issues := issues + Issues(batch);
      if |batch| < PER_PAGE {
        assert listing[..|listing|] == listing;
        return;
      }
      page := page + 1;
    }
  }

  /** The item is an issue whose body carries the marker of `fp`. */
  predicate Files(item: Item, fp: string) {
    !item.isPr && Contains(OrElse(item.body, ""), MarkerOf(fp))
  }

  /** `item` is the last of the first `n` that files `fp`. */
  ghost predicate LastToFile(listing: seq<Item>, n: nat, fp: string, item: Item) {
    n <= |listing| &&
    exists i :: 0 <= i < n && listing[i] == item && Files(item, fp) && forall j :: i < j < n ==> !Files(listing[j], fp)
  }

  ghost predicate NoneFiles(listing: seq<Item>, n: nat, fp: string) {
    n <= |listing| && forall i :: 0 <= i < n ==> !Files(listing[i], fp)
  }

  /** The map holds, for each wanted fingerprint that some item files, the last item that does. */
  ghost predicate Finds(found: map<string, Item>, wanted: set<string>, listing: seq<Item>, n: nat) {
    && found.Keys <= wanted
    && forall fp :: fp in wanted ==>
         if fp in found then LastToFile(listing, n, fp, found[fp]) else NoneFiles(listing, n, fp)
  }

  /** One item is looked at for every wanted fingerprint. */
  method ScanItem(wanted: set<string>, item: Item, found: map<string, Item>) returns (found': map<string, Item>)
    ensures forall fp :: fp in found' <==> fp in found || (fp in wanted && Files(item, fp))
    ensures forall fp :: fp in found' ==>
              found'[fp] == if fp in wanted && Files(item, fp) then item else found[fp]
  {
    found' := found;
    if item.isPr {
      return;
    }
    var body := OrElse(item.body, "");
    var rest := wanted;
    while rest != {}
      invariant rest <= wanted
      invariant forall fp :: fp in found' <==> fp in found || (fp in wanted && fp !in rest && Files(item, fp))
      invariant forall fp :: fp in found' ==>
                  found'[fp] == if fp in wanted && fp !in rest && Files(item, fp) then item else found[fp]
      decreases |rest|
    {
      var fp :| fp in rest;
      rest := rest - {fp};
      if Contains(body, MarkerOf(fp)) {
        found' := found'[fp := item];
      }
    }
  }

  /** `last` is the last of the first `n` items that files `fp`, if there is one. */
  ghost predicate IsLast(listing: seq<Item>, n: nat, fp: string, last: Option<Item>) {
    if last.Some? then LastToFile(listing, n, fp, last.value) else NoneFiles(listing, n, fp)
  }

  lemma LastOneMore(listing: seq<Item>, n: nat, fp: string, last: Option<Item>)
    requires n < |listing| && IsLast(listing, n, fp, last)
    ensures IsLast(listing, n + 1, fp, if Files(listing[n], fp) then Some(listing[n]) else last)
  {
    if !Files(listing[n], fp) && last.Some? {
      var i :| 0 <= i < n && listing[i] == last.value && Files(last.value, fp)
               && forall j :: i < j < n ==> !Files(listing[j], fp);
    }
  }

  lemma FindsMore(found: map<string, Item>, found': map<string, Item>, wanted: set<string>, listing: seq<Item>, n: nat)
    requires n < |listing| && Finds(found, wanted, listing, n)
    requires forall fp :: fp in found' <==> fp in found || (fp in wanted && Files(listing[n], fp))
    requires forall fp :: fp in found' ==>
               found'[fp] == if fp in wanted && Files(listing[n], fp) then listing[n] else found[fp]
    ensures Finds(found', wanted, listing, n + 1)
  {
    forall fp | fp in wanted
      ensures if fp in found' then LastToFile(listing, n + 1, fp, found'[fp]) else NoneFiles(listing, n + 1, fp)
    {
      LastOneMore(listing, n, fp, if fp in found then Some(found[fp]) else None);
    }
  }

  /** A page that begins at item `read` of the listing is looked through. */
  method ScanPage(wanted: set<string>, issues: seq<Item>, before: map<string, Item>, ghost listing: seq<Item>,
                  ghost read: nat) returns (found: map<string, Item>)
    requires read + |issues| <= |listing| && issues == listing[read..read + |issues|]
    requires Finds(before, wanted, listing, read)
    ensures Finds(found, wanted, listing, read + |issues|)
  {
    found := before;
    for i := 0 to |issues|
      invariant Finds(found, wanted, listing, read + i)
    {
      assert issues[i] == listing[read + i];
      var more := ScanItem(wanted, issues[i], found);
      FindsMore(found, more, wanted, listing, read + i);
      found := more;
    }
  }

  function Wanted(fingerprints: seq<string>): set<string> {
    set fp | fp in fingerprints
  }

  /** Maps each fingerprint to the issue that files it, reading every page once; no request at all when
      nothing is wanted. */
  method FindIssuesByFingerprint(fingerprints: seq<string>, listing: seq<Item>)
    returns (found: map<string, Item>, requests: nat)
    ensures Finds(found, Wanted(fingerprints), listing, |listing|)
    ensures requests == if fingerprints == [] then 0 else |listing| / 100 + 1
  {
    var wanted := Wanted(fingerprints);
    found, requests := map[], 0;
    assert fingerprints == [] || fingerprints[0] in wanted;
    if wanted == {} {
      return;
    }
    var page := 1;
    while true
      invariant page >= 1 && requests == page - 1 && requests * PER_PAGE <= |listing|
      invariant Finds(found, wanted, listing, requests * PER_PAGE)
      decreases |listing| + PER_PAGE - requests * PER_PAGE
    {
      var issues := Page(listing, page);
      var read := requests * PER_PAGE;
      PageExtends(listing, page, read);
      assert issues == (listing[..read] + issues)[read..] == listing[read..read + |issues|];
      found := ScanPage(wanted, issues, found, listing, read);
      requests := requests + 1;
      if |issues| < PER_PAGE {
        return;
      }
      page := page + 1;
    }
  }

  /** A fingerprint is found exactly when some issue of the listing files it. */
  lemma FoundIffFiled(found: map<string, Item>, wanted: set<string>, listing: seq<Item>, fp: string)
    requires Finds(found, wanted, listing, |listing|) && fp in wanted
    ensures fp in found <==> exists i :: 0 <= i < |listing| && Files(listing[i], fp)
  {
  }

  /** An item files a fingerprint if it is no pull request and its body contains the marker. */
  lemma FilesExactly(item: Item, fp: string)
    ensures Files(item, fp) <==>
              && !item.isPr && item.body.Some?
              && exists a, b :: item.body.value == a + ("<!-- semgrep-fingerprint: " + fp + " -->") + b
  {
    var m := MarkerOf(fp);
    assert m == "<!-- semgrep-fingerprint: " + fp + " -->";
    ContainsExactly(OrElse(item.body, ""), m);
    assert item.body.None? ==> !Contains("", m);
  }

  // --- open pull requests --------------------------------------------------------------------

  /** A timeline event; `source` is the referring issue when it is a pull request. */
  datatype TimelineEvent = TimelineEvent(crossReference: bool, fromPr: bool, fromOpen: bool, url: string)

  datatype PullRequest = PullRequest(title: string, body: Option<string>, url: string)

  predicate RefersOpenly(ev: TimelineEvent) {
    ev.crossReference && ev.fromPr && ev.fromOpen
  }

  ghost predicate FirstReference(timeline: seq<TimelineEvent>, i: nat) {
    i < |timeline| && RefersOpenly(timeline[i]) && forall j :: 0 <= j < i ==> !RefersOpenly(timeline[j])
  }

  ghost predicate FirstMention(prs: seq<PullRequest>, n: nat, i: nat) {
    && i < |prs| && Mentions(prs[i].title, prs[i].body, n)
    && forall j :: 0 <= j < i ==> !Mentions(prs[j].title, prs[j].body, n)
  }

  ghost predicate NoReference(timeline: seq<TimelineEvent>) {
    forall i :: 0 <= i < |timeline| ==> !RefersOpenly(timeline[i])
  }

  /** The first open pull request that cross-references the issue, else the first listed one that
      mentions its number. */
  method FindExistingPr(n: nat, timeline: seq<TimelineEvent>, prs: seq<PullRequest>) returns (url: Option<string>)
    ensures url.Some? ==>
              || (exists i: nat :: FirstReference(timeline, i) && url.value == timeline[i].url)
              || (NoReference(timeline) && exists i: nat :: FirstMention(prs, n, i) && url.value == prs[i].url)
    ensures url.None? <==>
            NoReference(timeline) && forall i :: 0 <= i < |prs| ==> !Mentions(prs[i].title, prs[i].body, n)
    ensures (forall i :: 0 <= i < |timeline| ==>
               !(timeline[i].crossReference && timeline[i].fromPr && timeline[i].fromOpen))
            || exists i :: 0 <= i < |timeline| && url == Some(timeline[i].url)
                           && timeline[i].crossReference && timeline[i].fromPr && timeline[i].fromOpen
  {
    for i := 0 to |timeline|
      invariant forall j :: 0 <= j < i ==> !RefersOpenly(timeline[j])
    {
      if RefersOpenly(timeline[i]) {
        assert FirstReference(timeline, i);
        return Some(timeline[i].url);
      }
    }
    for i := 0 to |prs|
      invariant forall j :: 0 <= j < i ==> !Mentions(prs[j].title, prs[j].body, n)
    {
      if Mentions(prs[i].title, prs[i].body, n) {
        assert FirstMention(prs, n, i);
        return Some(prs[i].url);
      }
    }
    url := None;
  }

  /** A listed pull request whose opening would complete issue `n`, by a reference without leading
      zeros, also keeps the search from coming back empty. */
  lemma ReferencedPrIsFound(pr: PullRequest, prs: seq<PullRequest>, k: nat)
    requires pr in prs && MatchAt(Text(Some(pr.title), pr.body), k)
    requires Canonical(Text(Some(pr.title), pr.body)[k + 1..RunEnd(Text(Some(pr.title), pr.body), k + 1)])
    ensures var n := NumberAt(Text(Some(pr.title), pr.body), k);
            && n in ReferencedIssues(Some(pr.title), pr.body)
            && exists i :: 0 <= i < |prs| && Mentions(prs[i].title, prs[i].body, n)
  {
    var n := NumberAt(Text(Some(pr.title), pr.body), k);
    ReferenceIsMentioned(pr.title, pr.body, k);
    ScannerExact(Text(Some(pr.title), pr.body), 0, n);
    var i :| 0 <= i < |prs| && prs[i] == pr;
    assert Mentions(prs[i].title, prs[i].body, n);
  }
}
