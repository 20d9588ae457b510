/**
 * What the job board page derives from the loaded list of jobs: the list
 * shown for the selected tab and search query, the status counts and the
 * application rate, the status badge text, and the status buttons each
 * job card offers.
 */
module JobBoard {
  import opened Wrappers
  import opened Strings
  import opened Seqs
  import opened Jobs

  /** The tab selected above the list: every job, or only jobs in one status. */
  datatype Tab = AllJobs | StatusTab(status: Status)

  /** The tab filter: the all-jobs tab passes everything, a status tab only its own status. */
  predicate PassesTab(tab: Tab, j: Job)
  {
    tab.AllJobs? || j.status == tab.status
  }

  /** `value ?? ''`. */
  function OrEmpty(value: Option<string>): (r: string)
  {
    match value
    case None => ""
    case Some(v) => v
  }

  /** The searchable fields of a job, missing ones as "". */
  function SearchFields(j: Job): (r: seq<string>)
  {
    [j.title, OrEmpty(j.company), OrEmpty(j.source), OrEmpty(j.url), OrEmpty(j.notes)]
  }

  /** The text searched for a job: its fields separated by single spaces. */
  function SearchBlob(j: Job): (r: string)
  {
    j.title + " " + OrEmpty(j.company) + " " + OrEmpty(j.source) + " " + OrEmpty(j.url) + " " + OrEmpty(j.notes)
  }

  /** `text.includes(q)` behind the page's `if (!q) return true`. */
  predicate SearchMatches(q: string, text: string)
  {
    q == [] || Contains(text, q)
  }

  /** The search filter for a normalised query `q`. */
  predicate MatchesQuery(q: string, j: Job)
  {
    SearchMatches(q, Lower(SearchBlob(j)))
  }

  /** The query as the page compares it: trimmed, then lower-cased. */
  function NormalizeQuery(query: string): (r: string)
  {
    Lower(Trim(query))
  }

  /** The tab filter as a callback. */
  function TabFilter(tab: Tab): (r: Job -> bool)
  {
    (j: Job) => PassesTab(tab, j)
  }

  /** The search filter as a callback. */
  function SearchFilter(q: string): (r: Job -> bool)
  {
    (j: Job) => MatchesQuery(q, j)
  }

  /** The `filtered` list: the jobs that pass the tab filter and then the search filter. */
  function Filtered(jobs: seq<Job>, tab: Tab, query: string): (r: seq<Job>)
    ensures IsSubsequence(r, jobs)
    ensures |r| <= |jobs|
  {
    var q := NormalizeQuery(query);
    var r := Filter(Filter(jobs, TabFilter(tab)), SearchFilter(q));
    FilteredFused(jobs, tab, q);
    FilterIsSubsequence(jobs, ListFilter(tab, q));
    SubsequenceLength(r, jobs);
    r
  }

  /** Both filters at once. */
  function ListFilter(tab: Tab, q: string): (r: Job -> bool)
  {
    (j: Job) => PassesTab(tab, j) && MatchesQuery(q, j)
  }

  /** The two filters in a row are one filter by `ListFilter`. */
  lemma FilteredFused(jobs: seq<Job>, tab: Tab, q: string)
    ensures Filter(Filter(jobs, TabFilter(tab)), SearchFilter(q)) == Filter(jobs, ListFilter(tab, q))
  {
    FilterFusion(jobs, TabFilter(tab), SearchFilter(q), ListFilter(tab, q));
  }

  /** The query is blank, or, trimmed and lower-cased, occurs in `text`. */
  ghost predicate QueryFound(query: string, text: string)
  {
    AllSpace(query) || exists i: nat :: OccursAt(text, Lower(Trim(query)), i)
  }

  /**
   * Which jobs the page shows, stated without the filters: the tab admits
   * the job, and the query is found in the lower-cased search text.
   */
  ghost predicate Shown(tab: Tab, query: string, j: Job)
  {
    (tab == AllJobs || j.status == tab.status) && QueryFound(query, Lower(SearchBlob(j)))
  }

  /** Searching `text` for the normalised query is `QueryFound`. */
  lemma NormalizedSearchIff(text: string, query: string)
    ensures SearchMatches(NormalizeQuery(query), text) <==> QueryFound(query, text)
  {
    var q := NormalizeQuery(query);
    assert |q| == |Trim(query)|;
    TrimEmptyIffAllSpace(query);
    assert q == [] <==> AllSpace(query);
    ContainsIff(text, q);
    assert Contains(text, q) <==> exists i: nat :: OccursAt(text, q, i);
  }

  /** Each job is kept, with all its copies, exactly when it is `Shown`, and dropped otherwise. */
  lemma FilteredCount(jobs: seq<Job>, tab: Tab, query: string, j: Job)
    ensures multiset(Filtered(jobs, tab, query))[j] == if Shown(tab, query, j) then multiset(jobs)[j] else 0
  {
    var q := NormalizeQuery(query);
    FilteredFused(jobs, tab, q);
    FilterCount(jobs, ListFilter(tab, q), j);
    NormalizedSearchIff(Lower(SearchBlob(j)), query);
    assert ListFilter(tab, q)(j) == (PassesTab(tab, j) && SearchMatches(q, Lower(SearchBlob(j))));
  }

  /** A job appears in the list exactly when it is among the jobs and `Shown`. */
  lemma FilteredMembership(jobs: seq<Job>, tab: Tab, query: string, j: Job)
    ensures j in Filtered(jobs, tab, query) <==> j in jobs && Shown(tab, query, j)
  {
    FilteredCount(jobs, tab, query, j);
    assert j in Filtered(jobs, tab, query) <==> multiset(Filtered(jobs, tab, query))[j] > 0;
    assert j in jobs <==> multiset(jobs)[j] > 0;
  }

  /** On a status tab every listed job has that status. */
  lemma FilteredStatusTab(jobs: seq<Job>, s: Status, query: string)
    ensures forall k :: 0 <= k < |Filtered(jobs, StatusTab(s), query)| ==> Filtered(jobs, StatusTab(s), query)[k].status == s
  {
    FilteredFused(jobs, StatusTab(s), NormalizeQuery(query));
  }

  /** A blank query keeps every job the tab admits, in order. */
  lemma BlankQueryKeepsTab(jobs: seq<Job>, tab: Tab, query: string)
    requires AllSpace(query)
    ensures Filtered(jobs, tab, query) == Filter(jobs, TabFilter(tab))
  {
    TrimEmptyIffAllSpace(query);
    var byTab := Filter(jobs, TabFilter(tab));
    FilterAll(byTab, SearchFilter(NormalizeQuery(query)));
  }

  /** The all-jobs tab with a blank query lists every job, in order. */
  lemma AllTabBlankQueryKeepsAll(jobs: seq<Job>, query: string)
    requires AllSpace(query)
    ensures Filtered(jobs, AllJobs, query) == jobs
  {
    BlankQueryKeepsTab(jobs, AllJobs, query);
    FilterAll(jobs, TabFilter(AllJobs));
  }

  /** A match inside one part of a concatenation is a match in the lower-cased whole. */
  lemma LowerOccursInContext(pre: string, f: string, post: string, q: string, i: nat)
    requires OccursAt(Lower(f), q, i)
    ensures Contains(Lower(pre + f + post), q)
  {
    LowerAppend(pre, f);
    LowerAppend(pre + f, post);
    OccursInContext(Lower(pre), Lower(f), Lower(post), q, i);
    OccurrenceIsContained(Lower(pre + f + post), q, |Lower(pre)| + i);
  }

  /** A query found in any single field of a job finds the job. */
  lemma QueryInFieldMatches(j: Job, q: string, k: nat)
    requires k < |SearchFields(j)|
    requires Contains(Lower(SearchFields(j)[k]), q)
    ensures MatchesQuery(q, j)
  {
    var t, c, s, u, n := j.title, OrEmpty(j.company), OrEmpty(j.source), OrEmpty(j.url), OrEmpty(j.notes);
    var f := SearchFields(j)[k];
    var i := ContainsFindsOccurrence(Lower(f), q);
    var blob := SearchBlob(j);
    if k == 0 {
      assert blob == [] + t + (" " + c + " " + s + " " + u + " " + n);
      LowerOccursInContext([], t, " " + c + " " + s + " " + u + " " + n, q, i);
    } else if k == 1 {
      assert blob == t + " " + c + (" " + s + " " + u + " " + n);
      LowerOccursInContext(t + " ", c, " " + s + " " + u + " " + n, q, i);
    } else if k == 2 {
      assert blob == t + " " + c + " " + s + (" " + u + " " + n);
      LowerOccursInContext(t + " " + c + " ", s, " " + u + " " + n, q, i);
    } else if k == 3 {
      assert blob == t + " " + c + " " + s + " " + u + (" " + n);
      LowerOccursInContext(t + " " + c + " " + s + " ", u, " " + n, q, i);
    } else {
      assert blob == t + " " + c + " " + s + " " + u + " " + n + [];
      LowerOccursInContext(t + " " + c + " " + s + " " + u + " ", n, [], q, i);
    }
  }

  /** So a job the tab admits is listed when the normalised query occurs in one of its fields. */
  lemma FieldMatchIsListed(jobs: seq<Job>, tab: Tab, query: string, j: Job, k: nat)
    requires j in jobs && PassesTab(tab, j)
    requires k < |SearchFields(j)|
    requires Contains(Lower(SearchFields(j)[k]), NormalizeQuery(query))
    ensures j in Filtered(jobs, tab, query)
  {
    QueryInFieldMatches(j, NormalizeQuery(query), k);
    NormalizedSearchIff(Lower(SearchBlob(j)), query);
    FilteredMembership(jobs, tab, query, j);
  }

  /** The number of jobs in status `s`. */
  function CountStatus(jobs: seq<Job>, s: Status): (r: nat)
  {
    |Filter(jobs, (j: Job) => j.status == s)|
  }

  /** Every job is in exactly one status, so the three counts add up to the number of jobs. */
  lemma {:induction false} CountsSumToTotal(jobs: seq<Job>)
    ensures CountStatus(jobs, Todo) + CountStatus(jobs, Applied) + CountStatus(jobs, Hidden) == |jobs|
  {
    if jobs != [] {
      CountsSumToTotal(jobs[1..]);
    }
  }

  /** The count for a status is the length of that status tab's list under a blank query. */
  lemma CountIsTabLength(jobs: seq<Job>, s: Status, query: string)
    requires AllSpace(query)
    ensures CountStatus(jobs, s) == |Filtered(jobs, StatusTab(s), query)|
  {
    BlankQueryKeepsTab(jobs, StatusTab(s), query);
    FilterCongruent(jobs, (j: Job) => j.status == s, TabFilter(StatusTab(s)));
  }

  /**
   * `Math.round(applied / total * 100)`, or 0 with no jobs: the integer
   * nearest to the percentage, halves rounded up.
   */
  function ApplicationRate(applied: nat, total: nat): (r: nat)
    requires applied <= total
    ensures total == 0 ==> r == 0
    ensures total > 0 ==> 2 * (r * total) <= 200 * applied + total && 200 * applied < 2 * (r * total) + total
    ensures r <= 100
    ensures applied == 0 ==> r == 0
    ensures 0 < applied == total ==> r == 100
  {
    if total == 0 then 0
    else
      var n, d := 200 * applied + total, 2 * total;
      var r := n / d;
      FloorDivision(n, d);
      assert r * d == 2 * (r * total);
      assert (r + 1) * d == 2 * (r * total) + 2 * total;
      RateBounds(applied, total, r);
      r
  }

  /** Euclidean division of naturals rounds down. */
  lemma FloorDivision(n: nat, d: nat)
    requires d > 0
    ensures (n / d) * d <= n < (n / d) * d + d
  {
  }

  /** Cancelling a positive factor from both sides of `<=`. */
  lemma MulCancel(x: int, y: int, t: int)
    requires t > 0 && x * t <= y * t
    ensures x <= y
  {
  }

  /** A percentage within one half of the nearest integer `r` lies between 0 and 100 and is exact at the extremes. */
  lemma RateBounds(applied: nat, total: nat, r: nat)
    requires 0 < total && applied <= total
    requires 2 * (r * total) <= 200 * applied + total && 200 * applied < 2 * (r * total) + total
    ensures r <= 100
    ensures applied == 0 ==> r == 0
    ensures applied == total ==> r == 100
  {
    var rt := r * total;
    assert 2 * rt <= 201 * total;
    assert (2 * r) * total == 2 * rt;
    MulCancel(2 * r, 201, total);
    if applied == 0 {
      assert (2 * r) * total <= 1 * total;
      MulCancel(2 * r, 1, total);
    }
    if applied == total {
      assert (2 * r + 1) * total == 2 * rt + total;
      assert 200 * total < (2 * r + 1) * total;
      MulCancel(200, 2 * r + 1, total);
    }
  }

  /** The numbers shown in the summary cards. */
  datatype Stats = Stats(total: nat, todo: nat, applied: nat, hidden: nat, applicationRate: nat)

  /** The status counts and application rate of `stats`. */
  function ComputeStats(jobs: seq<Job>): (r: Stats)
    ensures r.total == |jobs|
    ensures r.todo == CountStatus(jobs, Todo) && r.applied == CountStatus(jobs, Applied) && r.hidden == CountStatus(jobs, Hidden)
    ensures r.todo + r.applied + r.hidden == r.total
    ensures r.applicationRate <= 100
    ensures r.total == 0 ==> r.applicationRate == 0
    ensures r.total > 0 ==> 2 * (r.applicationRate * r.total) <= 200 * r.applied + r.total
    ensures r.total > 0 ==> 200 * r.applied < 2 * (r.applicationRate * r.total) + r.total
  {
    CountsSumToTotal(jobs);
    var applied := CountStatus(jobs, Applied);
    Stats(|jobs|, CountStatus(jobs, Todo), applied, CountStatus(jobs, Hidden), ApplicationRate(applied, |jobs|))
  }

  /** The status badge text. */
  function LabelForStatus(s: Status): (r: string)
    ensures r != []
  {
    if s == Todo then "To apply"
    else if s == Applied then "Applied"
    else "Hidden"
  }

  /** Different statuses have different badges. */
  lemma LabelForStatusInjective(a: Status, b: Status)
    ensures a != b ==> LabelForStatus(a) != LabelForStatus(b)
  {
  }

  /** A card button that moves the job to `target`. */
  datatype StatusButton = StatusButton(caption: string, target: Status)

  /** A card's two status buttons: Applied or Undo, and Hide or Unhide. */
  datatype CardButtons = CardButtons(applyButton: StatusButton, hideButton: StatusButton)

  /** The status buttons shown on the card of a job in status `s`. */
  function CardActions(s: Status): (r: CardButtons)
    ensures r.applyButton.target == if s == Applied then Todo else Applied
    ensures r.hideButton.target == if s == Hidden then Todo else Hidden
    ensures r.applyButton.caption == if s == Applied then "Undo" else "Applied"
    ensures r.hideButton.caption == if s == Hidden then "Unhide" else "Hide"
    ensures r.applyButton.target != s && r.hideButton.target != s
    ensures r.applyButton.target != r.hideButton.target
    ensures {r.applyButton.target, r.hideButton.target} == AllStatuses() - {s}
  {
    CardButtons(
      if s != Applied then StatusButton("Applied", Applied) else StatusButton("Undo", Todo),
      if s != Hidden then StatusButton("Hide", Hidden) else StatusButton("Unhide", Todo))
  }

  /** From any status, every other status is one button away. */
  lemma EveryStatusOneClickAway(from: Status, to: Status)
    requires from != to
    ensures CardActions(from).applyButton.target == to || CardActions(from).hideButton.target == to
  {
  }
}
