/**
 * Creating a job from a submitted link: validating the request body,
 * inferring the source site and a default title from the URL's host, and
 * building the new record in its initial state.
 *
 * URL parsing is a parameter `hostOf`: `hostOf(u)` is the hostname of
 * `new URL(u)`, or `None` when that constructor throws. The schema's own
 * URL check is a separate parameter `isUrl`: nothing here depends on
 * the two agreeing, so every lemma holds for any pair.
 */
module JobCreation {
  import opened Wrappers
  import opened Strings
  import opened Jobs

  /** A rule of the source lookup: any of `patterns` inside the host gives `site`. */
  datatype SourceRule = SourceRule(patterns: seq<string>, site: string)

  /** The lookup table, in the order the rules are tried. */
  const SourceRules: seq<SourceRule> := [
    SourceRule(["x.com", "twitter.com"], "X"),
    SourceRule(["linkedin.com"], "LinkedIn"),
    SourceRule(["greenhouse.io"], "Greenhouse"),
    SourceRule(["lever.co"], "Lever")
  ]

  /** Some pattern of a rule occurs in `host`. */
  predicate AnyPatternIn(host: string, patterns: seq<string>)
  {
    patterns != [] && (Contains(host, patterns[0]) || AnyPatternIn(host, patterns[1..]))
  }

  /** `AnyPatternIn` holds exactly when one of the patterns occurs somewhere in `host`. */
  lemma {:induction false} AnyPatternInIff(host: string, patterns: seq<string>)
    ensures AnyPatternIn(host, patterns) <==> exists k: nat, i: nat :: k < |patterns| && OccursAt(host, patterns[k], i)
  {
    if patterns != [] {
      ContainsIff(host, patterns[0]);
      AnyPatternInIff(host, patterns[1..]);
      if AnyPatternIn(host, patterns[1..]) {
        var k: nat, i: nat :| k < |patterns| - 1 && OccursAt(host, patterns[1..][k], i);
        assert OccursAt(host, patterns[k + 1], i);
      }
      forall k: nat, i: nat | k < |patterns| && OccursAt(host, patterns[k], i) ensures AnyPatternIn(host, patterns) {
        if k > 0 {
          assert OccursAt(host, patterns[1..][k - 1], i);
        }
      }
    }
  }

  /** A single-pattern rule matches when its pattern is contained. */
  lemma OnePattern(host: string, pattern: string)
    ensures AnyPatternIn(host, [pattern]) == Contains(host, pattern)
  {
  }

  /** The site of the first rule that matches `host`, or `None` when none does. */
  function FirstMatchingSite(host: string, rules: seq<SourceRule>): (r: Option<string>)
  {
    if rules == [] then None
    else if AnyPatternIn(host, rules[0].patterns) then Some(rules[0].site)
    else FirstMatchingSite(host, rules[1..])
  }

  /** The site is that of rule `k` when rule `k` matches and no earlier rule does. */
  lemma {:induction false} FirstMatchingSiteIsFirst(host: string, rules: seq<SourceRule>, k: nat)
    requires k < |rules|
    requires AnyPatternIn(host, rules[k].patterns)
    requires forall j :: 0 <= j < k ==> !AnyPatternIn(host, rules[j].patterns)
    ensures FirstMatchingSite(host, rules) == Some(rules[k].site)
  {
    if k > 0 {
      assert !AnyPatternIn(host, rules[0].patterns);
      forall j | 0 <= j < k - 1 ensures !AnyPatternIn(host, rules[1..][j].patterns) {
        assert rules[1..][j] == rules[j + 1];
      }
      FirstMatchingSiteIsFirst(host, rules[1..], k - 1);
    }
  }

  /** No site is found exactly when no rule matches. */
  lemma {:induction false} FirstMatchingSiteNone(host: string, rules: seq<SourceRule>)
    ensures FirstMatchingSite(host, rules) == None <==> forall j :: 0 <= j < |rules| ==> !AnyPatternIn(host, rules[j].patterns)
  {
    if rules != [] {
      FirstMatchingSiteNone(host, rules[1..]);
      assert forall j :: 1 <= j < |rules| ==> rules[j] == rules[1..][j - 1];
    }
  }

  /** The label for a lower-cased host: a site name for well-known job boards, else the host itself. */
  function SourceForHost(host: string): (r: string)
  {
    if Contains(host, "x.com") || Contains(host, "twitter.com") then "X"
    else if Contains(host, "linkedin.com") then "LinkedIn"
    else if Contains(host, "greenhouse.io") then "Greenhouse"
    else if Contains(host, "lever.co") then "Lever"
    else host
  }

  /** `inferSourceFromUrl`: the label for the lower-cased host, or `None` if the URL does not parse. */
  function InferSource(url: string, hostOf: string -> Option<string>): (r: Option<string>)
  {
    match hostOf(url)
    case None => None
    case Some(h) => Some(SourceForHost(Lower(h)))
  }

  /**
   * The source is found by trying the rules of `SourceRules` in order and
   * taking the first match; with no match it is the lower-cased host, and
   * with no host there is no source.
   */
  lemma InferSourceFollowsRules(url: string, hostOf: string -> Option<string>)
    ensures hostOf(url) == None ==> InferSource(url, hostOf) == None
    ensures hostOf(url).Some? ==>
      var host := Lower(hostOf(url).value);
      InferSource(url, hostOf) == Some(match FirstMatchingSite(host, SourceRules) case Some(s) => s case None => host)
  {
    if hostOf(url).Some? {
      SourceForHostFollowsRules(Lower(hostOf(url).value));
    }
  }

  /** `SourceForHost` is the first-match lookup in `SourceRules`, falling back to the host. */
  lemma SourceForHostFollowsRules(host: string)
    ensures SourceForHost(host) == match FirstMatchingSite(host, SourceRules) case Some(s) => s case None => host
  {
    var rs := SourceRules;
    OnePattern(host, "linkedin.com");
    OnePattern(host, "greenhouse.io");
    OnePattern(host, "lever.co");
    OnePattern(host, "twitter.com");
    assert ["x.com", "twitter.com"][1..] == ["twitter.com"];
    assert rs[1..] == [rs[1], rs[2], rs[3]] && rs[2..] == [rs[2], rs[3]] && rs[3..] == [rs[3]] && rs[4..] == [];
    assert FirstMatchingSite(host, rs[3..]) == if Contains(host, "lever.co") then Some("Lever") else None;
    assert FirstMatchingSite(host, rs[2..]) == if Contains(host, "greenhouse.io") then Some("Greenhouse") else FirstMatchingSite(host, rs[3..]);
    assert FirstMatchingSite(host, rs[1..]) == if Contains(host, "linkedin.com") then Some("LinkedIn") else FirstMatchingSite(host, rs[2..]);
  }

  /** A host merely containing "x.com", such as a Netflix or Dropbox one, is labelled "X" by the first rule. */
  lemma ContainedXComIsLabelledX()
    ensures SourceForHost("jobs.netflix.com") == "X"
    ensures SourceForHost("www.dropbox.com") == "X"
  {
    OccurrenceIsContained("jobs.netflix.com", "x.com", 11);
    OccurrenceIsContained("www.dropbox.com", "x.com", 10);
  }

  /** `hostname.replace(/^www\./, '')`: drops one leading "www.". */
  function StripWww(host: string): (r: string)
    ensures host == r || host == "www." + r
    ensures StartsWith(host, "www.") <==> host == "www." + r
  {
    if StartsWith(host, "www.") then host[4..] else host
  }

  /** `titleFromUrl`: "Job link (<host>)" with one leading "www." removed, or "Job link" if the URL does not parse. */
  function TitleFromUrl(url: string, hostOf: string -> Option<string>): (r: string)
    ensures StartsWith(r, "Job link")
    ensures hostOf(url) == None <==> r == "Job link"
    ensures hostOf(url).Some? ==>
      exists h :: r == "Job link (" + h + ")" && (hostOf(url).value == h || hostOf(url).value == "www." + h)
        && (StartsWith(hostOf(url).value, "www.") <==> hostOf(url).value == "www." + h)
  {
    match hostOf(url)
    case None => "Job link"
    case Some(h) =>
      var r := "Job link (" + StripWww(h) + ")";
      assert r[..8] == "Job link";
      assert |r| > 8;
      r
  }

  /** `value?.trim() || null`: the trimmed value, or `None` when absent or blank. */
  function TrimOrNone(value: Option<string>): (r: Option<string>)
    ensures r == None <==> (value == None || AllSpace(value.value))
    ensures r.Some? ==> r.value != [] && TrimmedFrom(value.value, r.value)
    ensures r.Some? ==> !IsSpace(r.value[0]) && !IsSpace(r.value[|r.value| - 1])
  {
    match value
    case None => None
    case Some(v) =>
      TrimEmptyIffAllSpace(v);
      var t := Trim(v);
      if t == [] then None else Some(t)
  }

  /** The body of a create request; every field may be missing. */
  datatype AddJobRequest = AddJobRequest(
    url: Option<string>,
    title: Option<string>,
    notes: Option<string>,
    company: Option<string>,
    source: Option<string>)

  /** The schema's complaints: the url is missing or invalid, the title is present but empty. */
  datatype SchemaErrors = SchemaErrors(url: bool, title: bool)

  /** `AddJobSchema`: url required and accepted by `isUrl`, title at least one character when present. */
  function CheckSchema(req: AddJobRequest, isUrl: string -> bool): (r: SchemaErrors)
  {
    SchemaErrors(
      url := req.url == None || !isUrl(req.url.value),
      title := req.title.Some? && |req.title.value| < 1)
  }

  /**
   * The `POST` handler's record construction. A body the schema rejects gives
   * its errors and no record; otherwise the record starts out as `Todo`,
   * never stamped, created at `now`, with the submitted url.
   */
  function CreateJob(req: AddJobRequest, isUrl: string -> bool, hostOf: string -> Option<string>,
                     id: string, now: string): (r: Result<Job, SchemaErrors>)
    ensures r.Failure? <==> (req.url == None || !isUrl(req.url.value) || req.title == Some(""))
    ensures r.Failure? ==> r.error.url || r.error.title
    ensures r.Failure? ==> (r.error.url <==> req.url == None || !isUrl(req.url.value))
    ensures r.Failure? ==> (r.error.title <==> req.title == Some(""))
    ensures r.Success? ==>
      && r.value.id == id
      && r.value.url == req.url
      && r.value.status == Todo
      && r.value.createdAt == now
      && r.value.appliedAt == None
      && r.value.hiddenAt == None
      && r.value.title != []
  {
    var errors := CheckSchema(req, isUrl);
    if errors.url || errors.title then Failure(errors)
    else
      var url := req.url.value;
      var job := Job(
        id := id,
        title := match TrimOrNone(req.title) case Some(t) => t case None => TitleFromUrl(url, hostOf),
        company := TrimOrNone(req.company),
        url := Some(url),
        source := match TrimOrNone(req.source) case Some(s) => Some(s) case None => InferSource(url, hostOf),
        notes := TrimOrNone(req.notes),
        status := Todo,
        createdAt := now,
        appliedAt := None,
        hiddenAt := None);
      Success(job)
  }

  /**
   * The title of a new job is the user's title trimmed when that is not
   * blank, and otherwise the title derived from the URL, so a title of
   * spaces only, which the schema accepts, still falls back.
   */
  lemma CreatedTitle(req: AddJobRequest, isUrl: string -> bool, hostOf: string -> Option<string>, id: string, now: string)
    requires req.url.Some? && isUrl(req.url.value) && req.title != Some("")
    ensures var job := CreateJob(req, isUrl, hostOf, id, now).value;
      if req.title == None || AllSpace(req.title.value) then job.title == TitleFromUrl(req.url.value, hostOf)
      else TrimmedFrom(req.title.value, job.title) && !IsSpace(job.title[0]) && !IsSpace(job.title[|job.title| - 1])
  {
  }

  /**
   * Company and notes are the trimmed values, absent when blank; the source is
   * the trimmed user value when not blank, and otherwise the inferred one.
   */
  lemma CreatedOptionalFields(req: AddJobRequest, isUrl: string -> bool, hostOf: string -> Option<string>, id: string, now: string)
    requires req.url.Some? && isUrl(req.url.value) && req.title != Some("")
    ensures var job := CreateJob(req, isUrl, hostOf, id, now).value;
      && job.company == TrimOrNone(req.company)
      && job.notes == TrimOrNone(req.notes)
      && (if req.source == None || AllSpace(req.source.value) then job.source == InferSource(req.url.value, hostOf)
          else job.source == TrimOrNone(req.source) && job.source.Some?)
  {
  }

  /**
   * When every URL the schema accepts also parses, a new job without a
   * usable title gets "Job link (<host>)" with one leading "www." removed,
   * and a new job without a usable source gets one inferred from its host.
   */
  lemma CreatedFromParsableUrl(req: AddJobRequest, isUrl: string -> bool, hostOf: string -> Option<string>, id: string, now: string)
    requires forall u :: isUrl(u) ==> hostOf(u).Some?
    requires req.url.Some? && isUrl(req.url.value) && req.title != Some("")
    ensures var job := CreateJob(req, isUrl, hostOf, id, now).value;
      var host := hostOf(req.url.value).value;
      && (req.title == None || AllSpace(req.title.value) ==> job.title == "Job link (" + StripWww(host) + ")")
      && (req.source == None || AllSpace(req.source.value) ==> job.source == Some(SourceForHost(Lower(host))))
  {
  }
}
