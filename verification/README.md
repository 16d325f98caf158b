# Resume screening pipeline — Dafny model

This project models the decision core of a resume-screening pipeline. The pipeline has four stages:

- **Filter.** A bias guard first strips protected attributes from the caller's filter criteria and records one warning per stripped key. The stage then keeps, in input order, the resumes that pass a keyword check, a minimum-years check and the recognised criteria (`location`, `required_skill`).
- **Score.** Each admitted resume gets a LinkedIn flag (from its URL, else from an injected link check), domain tags (from a fixed keyword table, merged with tags from an optional enrichment capability) and a cost score. Lower is better. The results are stably sorted ascending by score.
- **Rank.** The results are numbered 1, 2, … in the order given.
- **Feedback.** One line is produced per result, tagged `Top i` for the first `top_n` positions and `#i` after that.

The project also models two dictionary helpers: the required-key validator and the four-line resume formatter.

Everything is pure. The filter agent's append-only warning list is threaded through as an explicit `FilterAgent` value. The two external capabilities are fields of `ScoringAgent` holding functions:

- the link check answers `Answer(b)` or `Raised`;
- the enrichment returns an `Enrichment` report, which is empty when the call fails.

Modules, one file each:

| file | module | models |
|---|---|---|
| optional.dfy | Optional | `Option` for absent values and `dict.get` defaults |
| text.dfy | Text | ASCII `str.lower`, substring `in`, `str.join`, decimal rendering, line splitting |
| seqs.dfy | Seqs | order-preserving selection, subsequences, first-seen de-duplication |
| filter.dfy | Filter | `PROTECTED_ATTRIBUTES`, `Resume`, `FilterAgent`, `_check_biases`, `filter` |
| scoring.dfy | Scoring | `DOMAIN_KEYWORDS`, `ScoreResult`, `_detect_domains`, `score`, stable sort |
| rank.dfy | Rank | `RateAgent.rate` |
| feedback.dfy | Feedback | `FeedbackAgent.feedback_for` |
| helpers.dfy | Helpers | `validate_resume`, `format_resume` |

## Model

| member | source | states |
|---|---|---|
| Text.Contains | src/agents/filter_agent.py:44 | Python's `needle in hay` is true exactly when `needle` occurs at some position of `hay`, and the empty needle occurs everywhere |
| Filter.Guard | src/agents/filter_agent.py:26-30 | the guard loop keeps exactly the entries whose lower-cased key is not protected, in order, and emits `"Ignored protected attribute filter: <k>"` for each protected entry, in order, with `k` as the caller spelled it |
| Filter.CheckBiases | src/agents/filter_agent.py:24-31 | no safe key is protected; the safe list is a subsequence of the criteria and holds every unprotected entry exactly as often as the criteria do; the old warnings are a prefix of the new ones, and the added part is one warning per protected key; `None` or empty criteria give no safe entries and leave the agent unchanged |
| Filter.CheckBiasesKeepsKeysDistinct | src/agents/filter_agent.py:25-30 | if the criteria keys are distinct, as a dict's are, the safe keys are distinct |
| Filter.CriteriaPass | src/agents/filter_agent.py:51-60 | the short-circuiting criteria loop succeeds exactly when every safe criterion holds: for key `location` the lower-cased value is a substring of the lower-cased location (default empty), for `required_skill` of the lower-cased text, and any other key demands nothing |
| Filter.OtherKeysIgnored | src/agents/filter_agent.py:52-60 | inserting a criterion whose key is not exactly `location` or `required_skill`, at any position, never changes the verdict |
| Filter.AdmitsIsAdmissible | src/agents/filter_agent.py:41-61 | the loop body admits a resume exactly when the keyword check, the years check and all criteria hold |
| Filter.Filter | src/agents/filter_agent.py:33-63 | the admitted list is a subsequence of the input; every admitted resume is admissible under the safe criteria; every admissible resume is kept exactly as often as it occurs in the input, and nothing else is kept; the warnings are those of the bias guard |
| Filter.AdmittedMeetYears | src/agents/filter_agent.py:38-49 | every admitted resume has `years_experience` (default 0) at least `min_years_experience` (default 0) |
| Filter.AdmissibleIsKept | src/agents/filter_agent.py:40-62 | a resume of the input that passes all three checks is in the output |
| Scoring.DetectIn | src/agents/scoring_agent.py:61-63 | the detected tags follow table order; a tag is present exactly when one of its keywords occurs in the lower-cased text; distinct table tags give distinct detections |
| Scoring.DetectDomains | src/agents/scoring_agent.py:58-64 | heuristic tags are a subsequence of finance, healthcare, ml, web with no duplicates, and a tag is present exactly when one of its keywords occurs in the lower-cased corpus |
| Scoring.DetectLinkedIn | src/agents/scoring_agent.py:93-100 | a non-empty URL gives true whatever the link check would answer; with an empty URL the flag is true exactly when a link check is configured and answers true, so no check or a raised check gives false |
| Seqs.Dedupe | src/agents/scoring_agent.py:116 | `dict.fromkeys` de-duplication has no duplicates, keeps exactly the input's elements, and lists them by first occurrence |
| Seqs.AppendNew | src/agents/scoring_agent.py:118-120 | the append-if-absent loop keeps the original list as a prefix, adds exactly the missing elements, and keeps a duplicate-free list duplicate-free |
| Scoring.MergeDomains | src/agents/scoring_agent.py:113-122 | the heuristic tags form a prefix; the result has no duplicates; the appended tags are exactly the lower-cased enrichment tags not already present, in first-seen order; absent or empty enrichment tags leave the heuristic list unchanged |
| Scoring.ScoreValue | src/agents/scoring_agent.py:124-128 | the cost score is at least `80 - 5·domains` and, for non-negative years, at most 100 |
| Scoring.ScoreValueMonotone | src/agents/scoring_agent.py:124-128 | LinkedIn lowers the score by 10; each domain lowers it by 5; each year lowers it by one half, up to 20 years; years beyond 20 change nothing |
| Scoring.ScoreOne | src/agents/scoring_agent.py:92-129 | the result carries the input resume; the heuristic tags are a prefix of its duplicate-free domains; with no enrichment capability the flag and the domains are exactly the heuristic ones; a report without a boolean `linkedin_found` leaves the heuristic flag, and a boolean one becomes the flag; a report whose `domains` is absent or empty leaves the heuristic domains; the score follows the formula for the final flag, the domain count and the years (default 0), with the formula's bounds |
| Scoring.EmptyEnrichmentDegrades | src/agents/scoring_agent.py:102-113 | a failed or empty enrichment report leaves exactly the heuristic LinkedIn flag and domains |
| Scoring.EnrichmentFlagOverrides | src/agents/scoring_agent.py:104-108 | a boolean `linkedin_found` in the report is the final flag, whatever the URL or the link check say |
| Scoring.InsertMultiset | src/agents/scoring_agent.py:130 | one insertion step adds exactly the inserted result |
| Scoring.InsertSorted | src/agents/scoring_agent.py:130 | one insertion step keeps a score-sorted list sorted |
| Scoring.InsertWithScore | src/agents/scoring_agent.py:130 | an inserted result goes ahead of the equal scores already placed, which came later in the input |
| Scoring.InsertResumes | src/agents/scoring_agent.py:130 | one insertion step adds exactly the inserted result's resume |
| Scoring.SortByScore | src/agents/scoring_agent.py:130 | the sort output is non-decreasing by score and is a permutation of its input |
| Scoring.SortByScoreResumes | src/agents/scoring_agent.py:130 | sorting keeps every resume, each as often as it occurred |
| Scoring.SortByScoreStable | src/agents/scoring_agent.py:130 | for every score value, the results with that score keep their input order |
| Scoring.StableSortUnique | src/agents/scoring_agent.py:130 | two score-sorted lists that list each score's results in the same order are equal, so any stable sort, Python's `sorted` included, gives the modelled output |
| Scoring.ScoreEachResumes | src/agents/scoring_agent.py:91-129 | before sorting, the results list the input resumes in input order, one result per resume |
| Scoring.Score | src/agents/scoring_agent.py:90-130 | one result per input resume; the output is non-decreasing by score; its resumes are the input resumes with their multiplicities; each result is that resume's scoring; equal scores keep input order |
| Seqs.Numbered | src/agents/rate_agent.py:15 | the `enumerate(xs, start=1)` loop gives one output per element, in order, the `i`-th built from position `i + 1` and `xs[i]` |
| Rank.Rate | src/agents/rate_agent.py:9-24 | the output has the input's length; `out[i].rating == i + 1`; id, name, flag, domains and raw score are copied from `scored[i]`; an ascending input gives non-decreasing raw scores |
| Feedback.TagIsTop | src/agents/feedback_agent.py:15 | a tag starts with `Top ` exactly when its position is within `top_n` |
| Feedback.TagRoundTrip | src/agents/feedback_agent.py:15 | reading a tag back yields its position and whether it is a `Top` tag |
| Feedback.DomainsTextGeneral | src/agents/feedback_agent.py:16 | the domain text is `general` exactly for no domains or for the single domain `general`, since two or more tags always contain `", "` |
| Feedback.FeedbackLine | src/agents/feedback_agent.py:18 | a line starts with `"{tag} - {full_name}: strong in "` and ends with a full stop |
| Feedback.LinkedInClause | src/agents/feedback_agent.py:17-18 | the closing clause `; {linkedin}.` ends with `; has LinkedIn.` exactly when the flag is set |
| Feedback.FeedbackLineLinkedIn | src/agents/feedback_agent.py:17-18 | a feedback line ends with `; has LinkedIn.` exactly when the result's LinkedIn flag is set |
| Feedback.LineIsTop | src/agents/feedback_agent.py:15-18 | a line starts with `Top ` exactly when its position is within `top_n` |
| Feedback.FeedbackFor | src/agents/feedback_agent.py:9-19 | one line per result, in order; line `i` is the formatted line of position `i + 1`; `top_n <= 0` gives no `Top` lines; `top_n >= n` makes every line a `Top` line |
| Feedback.DefaultFeedback | src/agents/feedback_agent.py:9-19 | called without `top_n`, `feedback_for` gives one line per result and only the first line is tagged `Top` |
| Helpers.AllPresent | src/utils/helpers.py:11-15 | the early-return key loop succeeds exactly when every listed field is a key |
| Helpers.ValidateResume | src/utils/helpers.py:9-15 | true exactly when `name`, `email`, `experience` and `education` are all keys; values and extra keys play no part |
| Helpers.FormatResumeLines | src/utils/helpers.py:1-7 | when no printed value contains a newline, the text splits into exactly the four lines `Name:`, `Email:`, `Experience:`, `Education:` in that order, each showing the key's printed value or `None` when the key is missing |
| Helpers.FormatResume | src/utils/helpers.py:1-7 | the formatted text ends with a newline and holds exactly four newlines besides those inside the printed values, for every dictionary, including values with newlines of their own |

## Left out

- Vertex AI set-up, the prompt and the JSON extraction (src/agents/scoring_agent.py:45-56, 66-88) depend on a foreign SDK and a network model. Enrichment is an injected function returning an `Enrichment` report. A failure, or output that does not parse, is the empty report.
- The link check is an injected function answering `Answer(b)` or `Raised`. Python's `bool(...)` applied to a non-boolean return value is not modelled.
- Ill-typed values are not modelled, because every value here is a string or a number.
  - A non-dict enrichment result and non-string domain entries are caught by the `try` blocks at src/agents/scoring_agent.py:105-122.
  - A criterion value is read only for the keys exactly `location` and `required_skill` (src/agents/filter_agent.py:54, 58), and only once a resume has passed the keyword and years checks. Only there does a non-string value raise. A protected key such as `age` is dropped with a warning before anything reads its value (src/agents/filter_agent.py:27-29). Any other key is carried along and never read. With no resumes, nothing is read at all. The model gives every criterion a string value. For a value that is never read, any string gives the same result as the source.
  - A metadata value `None` raises only where it is used. For `location`, that is when a `location` criterion is evaluated (src/agents/filter_agent.py:54). For `years_experience`, it is the years check (src/agents/filter_agent.py:48) and the score (src/agents/scoring_agent.py:128). The model has no `None` metadata values: a key is either missing (`None` in `Option`) or holds a value.
  - Two of them neither raise nor are caught. A `keywords` value that is a string becomes the set of its characters (src/agents/filter_agent.py:37) and is matched letter by letter. A `domains` value that is a string or a dict is iterated at src/agents/scoring_agent.py:116, so its characters or keys are merged as tags. The model's inputs can still express both results, as a list of one-character keywords or a list of tags.
- `str.lower` is modelled as ASCII lower-casing. Unicode case mapping is not modelled.
- Scoring.ScoreValue: years and scores are exact `real` numbers, so float rounding is not modelled.
  - Python's float arithmetic gives the exact score when years is a whole number no less than `-2**52` and there are fewer than `2**48` domains. Outside that range it can round.
  - Example: years `-(2**60)`, with no domains and no LinkedIn, give the float score `2**59 + 128`. The exact score is `2**59 + 100`.
  - Example: years `10 + 2**-48` with no domains give the float score `95.0`. That ties a one-domain resume with 0 years, and `sorted` keeps the two in input order. The exact score is below 95, so `Scoring.Score` puts that resume first.
- Filter.AdmittedMeetYears: years and minimums are real numbers, so NaN and infinite values of `years_experience` or `min_years_experience` are not modelled. In the source, a NaN behaves as follows:
  - At src/agents/filter_agent.py:47-48, `nan < min_years` is false, so a resume with NaN years is admitted whatever the minimum is. A NaN minimum admits every resume in the same way.
  - At src/agents/scoring_agent.py:128, `min(nan, 20)` is `nan`, so the score is `nan`.
  - At src/agents/scoring_agent.py:130, every comparison with NaN is false. For example, years 0, NaN and 10, with no domains and no LinkedIn, give scores `[100.0, nan, 95.0]`, and `sorted` returns them unchanged. So for such inputs the output of `score` is not sorted, and `Scoring.Score` and `Scoring.StableSortUnique` do not describe it.
- Scoring.ScoreOne: an int `years_experience` of `-2**1024` or less makes `min(years, 20) * 0.5` at src/agents/scoring_agent.py:128 raise `OverflowError` when the int is converted to a float. The model has no error for this and returns the exact score. Such a resume can reach scoring, because the int-to-number comparison at src/agents/filter_agent.py:48 never overflows.
- The job's keyword `set(...)` is kept as the original list. The `any` test gives the same answer whatever the order or duplicates.
- Python's Timsort is modelled by a stable insertion sort. `Scoring.StableSortUnique` shows that every stable ascending sort gives the same list.
- `Resume.text` is always a string, so the `or ""` guard has nothing to do.
- `Rank.Rate` returns a `Rating` record instead of a dict with the same six fields.
- Nothing in the code checks a `Resume`'s identity fields (`id`, `full_name`, `text`), so a record with empty ones goes through filtering and scoring like any other. The model follows the code and does not add such a rejection. `Helpers.ValidateResume` works on a different record, a plain dictionary with the keys `name`, `email`, `experience` and `education`.
- Uniqueness of resume ids within a batch is not checked anywhere in the code, so it is not assumed.
- `BaseAgent` and the `initialize` methods are left out, because they do nothing. So are the CLI wiring in src/main.py, configuration loading in src/config/settings.py and the re-exports in src/agents/__init__.py.
- `ShortlisterAgent` and its tests are not part of this model, and neither is its source.
- Helpers.FormatResumeLines: states the four-line shape only for values without newlines, because a value that contains a newline adds lines of its own.
