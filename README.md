# rolelist job tracker: verified model of job creation and the job board's list logic

The tracker records job postings, each with a status: to apply (`todo`),
`applied` or `hidden`. This project models two pieces of its logic in
Dafny and proves properties about them.

- **Creating a job** (`src/app/api/jobs/route.ts`). The create request is
  validated against its schema. The source site is inferred from the URL's
  host by a fixed, ordered table of rules: X/Twitter, LinkedIn, Greenhouse,
  then Lever. The first rule that matches wins, and with no match the
  lower-cased host itself is the source. A default title
  `Job link (<host>)` is built, with one leading `www.` removed. The title,
  company, source and notes are trimmed, and a blank value falls back to
  a default; the url, id and creation time are stored as given. A new record is always `todo`, with no `appliedAt` or
  `hiddenAt`, created at `now`, and keeps the submitted URL.
- **The job board page** (`src/app/page.tsx`). The shown list is filtered
  by the selected tab and then by a case-insensitive substring search. The
  page also shows the three status counts and the rounded application
  rate, each job's status badge, and the two status buttons on each card:
  Applied/Undo and Hide/Unhide.

All of this is pure, so the model is made of datatypes, functions and
lemmas:

- `wrappers.dfy`: `Option` and `Result`.
- `strings.dfy`: JavaScript's `trim`, `toLowerCase`, `includes` and a
  prefix test.
- `seqs.dfy`: `Array.prototype.filter`, order-preserving subsequences, and
  the facts about filtering.
- `jobs.dfy`: the `Job` record of `src/lib/db.ts` and `Status`.
- `job_creation.dfy`: the create handler's rules.
- `job_board.dfy`: the page's derived values.

Parameters stand for the outside world:

- URL parsing is `hostOf: string -> Option<string>`. It gives the hostname
  of `new URL(u)`, or `None` where that constructor throws.
- The schema's URL check (`z.string().url()`) is a separate
  `isUrl: string -> bool`. Keeping it apart from `hostOf` is a
  generalisation: every lemma holds whatever the two parameters are, so
  the model does not rely on the check and the parser agreeing. When
  the assumption that every URL `isUrl` accepts also parses is added, `JobCreation.CreatedFromParsableUrl`
  states the resulting title and source.
- The new record's `id` and the `now` timestamp are plain inputs.

## Model

| member | source | states |
|---|---|---|
| `JobCreation.SourceForHostFollowsRules` | src/app/api/jobs/route.ts:33-37 | `SourceForHost` (the if-chain) gives the site of the first rule in `SourceRules` (X/Twitter, LinkedIn, Greenhouse, Lever, in that order) with a matching pattern, and the host itself when no rule matches |
| `JobCreation.InferSourceFollowsRules` | src/app/api/jobs/route.ts:30-41 | `InferSource`, the model of `inferSourceFromUrl`, gives no source when the URL does not parse; otherwise it gives the first-match lookup on the lower-cased host, falling back to that host |
| `JobCreation.FirstMatchingSiteIsFirst` | src/app/api/jobs/route.ts:33-36 | first match wins: if rule k matches and no earlier rule does, the lookup gives rule k's site, whatever later rules say |
| `JobCreation.FirstMatchingSiteNone` | src/app/api/jobs/route.ts:33-37 | the lookup finds no site exactly when no rule matches, which is when the host itself becomes the source |
| `JobCreation.AnyPatternInIff` | src/app/api/jobs/route.ts:33-36 | a rule matches a host exactly when one of its patterns occurs as a substring of the host |
| `JobCreation.ContainedXComIsLabelledX` | src/app/api/jobs/route.ts:33 | a host that merely contains "x.com" (`jobs.netflix.com`, `www.dropbox.com`) is labelled "X", because the test is a substring test |
| `JobCreation.StripWww` | src/app/api/jobs/route.ts:46 | the host loses exactly one leading "www.", and loses it only when it starts with "www." |
| `JobCreation.TitleFromUrl` | src/app/api/jobs/route.ts:43-51 | the title always starts with "Job link"; it is exactly "Job link" iff the URL does not parse; otherwise it is "Job link (h)", where h is the host with its one leading "www." removed when it has one, and the host itself otherwise |
| `JobCreation.TrimOrNone` | src/app/api/jobs/route.ts:70-74 | the trim-or-fallback of an optional field: the result is absent iff the value is absent or all white space; when present it is non-empty, is the value with white space removed at both ends, and has no white space at either end |
| `JobCreation.CreateJob` | src/app/api/jobs/route.ts:22-79 | `CreateJob` rejects the request (with `CheckSchema` naming the failing fields) iff the url is missing or fails the URL check, or the title is present but empty; a rejection reports exactly the failing fields, at least one of them, and builds no record. An accepted request yields a record with the given id and the submitted url unchanged, status `todo`, `createdAt = now`, no `appliedAt` or `hiddenAt`, and a non-empty title |
| `JobCreation.CreatedTitle` | src/app/api/jobs/route.ts:70 | the title is the URL-derived title when the user's title is absent or all white space (which the schema accepts); otherwise it is the user's title with edge white space removed |
| `JobCreation.CreatedFromParsableUrl` | src/app/api/jobs/route.ts:66-73 | if every URL the schema accepts parses, a job created without a usable title is titled "Job link (host without one leading www.)" and one without a usable source gets the label inferred from its lower-cased host |
| `JobCreation.CreatedOptionalFields` | src/app/api/jobs/route.ts:71-74 | company and notes are trimmed, and absent when blank; the source is the inferred one when the user's is absent or blank, and the user's trimmed value otherwise |
| `JobBoard.Filtered` | src/app/page.tsx:93-102 | the shown list is an order-preserving subsequence of the jobs, so it is never longer |
| `JobBoard.FilteredCount` | src/app/page.tsx:93-102 | every job that is `Shown` keeps all its copies and every other job is dropped. `Shown` means the tab admits the job and the query is blank or, trimmed and lower-cased, occurs in the lower-cased search text |
| `JobBoard.FilteredMembership` | src/app/page.tsx:95-101 | a job is listed iff it is among the jobs and `Shown` |
| `JobBoard.FilteredStatusTab` | src/app/page.tsx:96 | on a status tab every listed job has that status |
| `JobBoard.BlankQueryKeepsTab` | src/app/page.tsx:94-98 | a query that is blank after trimming keeps, in order, every job the tab admits |
| `JobBoard.AllTabBlankQueryKeepsAll` | src/app/page.tsx:96-98 | the all-jobs tab with a blank query lists exactly the jobs |
| `JobBoard.NormalizedSearchIff` | src/app/page.tsx:94-100 | the search test on the trimmed, lower-cased query holds iff the query is blank or occurs in the text |
| `JobBoard.QueryInFieldMatches` | src/app/page.tsx:99-100 | a query that occurs in the lower-cased title, company, source, url or notes matches the job; a missing field counts as "" |
| `JobBoard.FieldMatchIsListed` | src/app/page.tsx:93-102 | a job the tab admits is listed when the normalised query occurs in one of its fields |
| `JobBoard.CountsSumToTotal` | src/app/page.tsx:105-108 | the `CountStatus` counts for todo, applied and hidden add up to the number of jobs |
| `JobBoard.CountIsTabLength` | src/app/page.tsx:96-106 | a status's count equals the length of that status tab's list when the query is blank |
| `JobBoard.ApplicationRate` | src/app/page.tsx:133 | 0 with no jobs; otherwise the integer nearest 100·applied/total, with halves rounded up; always between 0 and 100, 0 when nothing is applied, 100 when everything is |
| `JobBoard.RateBounds` | src/app/page.tsx:133 | any integer within one half of the percentage lies in 0..100 and is exact at 0 % and 100 % |
| `JobBoard.ComputeStats` | src/app/page.tsx:104-135 | `total` is the number of jobs and `todo`, `applied`, `hidden` are the numbers of jobs in each status; the three counts sum to the total, and the rate is the nearest-integer percentage of applied jobs, at most 100, and 0 when there are no jobs |
| `JobBoard.LabelForStatus` | src/app/page.tsx:711-715 | every status has a non-empty badge text |
| `JobBoard.LabelForStatusInjective` | src/app/page.tsx:711-715 | different statuses get different badge texts |
| `JobBoard.CardActions` | src/app/page.tsx:579-617 | the first button, captioned "Applied" or "Undo", marks the job applied, or moves an applied job back to todo; the second, captioned "Hide" or "Unhide", hides it, or moves a hidden job back to todo; so neither targets the current status, they target different statuses, and together they reach exactly the other two |
| `JobBoard.EveryStatusOneClickAway` | src/app/page.tsx:579-617 | from any status, every other status is one button away |
| `Strings.Trim` | src/app/api/jobs/route.ts:70 | `trim` returns a slice of its input with only white space before and after it, and the slice does not begin or end with white space |
| `Strings.TrimEmptyIffAllSpace` | src/app/page.tsx:94-98 | a string trims to "" exactly when it is all white space |
| `Strings.ContainsIff` | src/app/page.tsx:100 | `Contains`, the model of `includes`, holds exactly when the needle occurs at some position of the text |
| `Strings.LowerAppend` | src/app/page.tsx:99 | lower-casing the joined search text is joining the lower-cased fields |
| `Seqs.FilterIsSubsequence` | src/app/page.tsx:95-101 | `filter` returns an order-preserving subsequence of its input |
| `Seqs.FilterCount` | src/app/page.tsx:95-101 | `filter` keeps every copy of each element that passes and none of any other element |
| `Seqs.FilterFusion` | src/app/page.tsx:95-101 | two filters in a row are one filter by the conjunction of their tests |

## Left out

- The PATCH and DELETE handlers in `src/app/api/jobs/[id]/route.ts` are not part of this model, and neither is the `appliedAt`/`hiddenAt` stamping they do when the status changes. The card buttons' effect is modelled only as the target status they request.
- `GET` lists the jobs in an order chosen by an SQL `ORDER BY`, which the database evaluates. It is not modelled.
- Database access (`getDb`, the WAL pragma, table creation, the column migration, the insert in `POST`) is I/O and is not modelled. `newId` depends on `Math.random` and the clock, so the record's id is a parameter. `new Date()` is the `now` parameter.
- The 500 responses of `POST` are not modelled. They come from `request.json()` failing or the database throwing, and both are I/O.
- URL parsing and zod's URL check are library behaviour. They are the `hostOf` and `isUrl` parameters. Other zod behaviour is not modelled: the request is taken to be an object whose fields are strings or missing, so non-string values and non-object bodies are outside the model.
- String lengths are counted in Unicode scalar values, where JavaScript counts UTF-16 code units. This only matters for `min(1)`, which checks for emptiness either way, and for `trim`, whose white-space characters all lie in the Basic Multilingual Plane.
- `Strings.Lower`: only ASCII `A`-`Z` are folded. JavaScript's `toLowerCase` also folds non-ASCII letters, so searches over non-ASCII text may differ.
- `JobBoard.ApplicationRate`: `Math.round` works on a floating-point ratio. The model uses the exact integer nearest the percentage. The two differ at ordinary sizes whenever the double quotient falls just below a half: for 23 applied jobs out of 40, `(23/40)*100` is 57.49999999999999 in double arithmetic, so the page shows 57 while the model gives 58.
- `JobBoard.LabelForStatus`: its contract says only that the text is non-empty. The exact texts ("To apply", "Applied", "Hidden") are in its body, and `JobBoard.LabelForStatusInjective` states that they differ.
- The time-based figures on the page (`needsFollowUp`, `thisWeek`, `lastWeek`, the "Follow up!" badge) depend on the wall clock and date parsing. They are not modelled.
- React state and effects, the fetch wrappers, the modal, the layout, styling, the "Open" link and the delete button are UI and network code. They are not modelled.
- `ecosystem.config.js` and `next.config.ts` are deployment configuration and are not modelled.
