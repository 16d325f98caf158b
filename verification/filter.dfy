/** The bias guard and the filter stage (`FilterAgent`): protected criteria
    are stripped with a warning each, then resumes are kept, in input order,
    when they pass the keyword, years-of-experience and criteria checks. */
module Filter {
  import opened Optional
  import opened Text
  import opened Seqs

  /** Criteria keys that are never filtered on, compared after lower-casing. */
  const ProtectedAttributes: set<string> := {"gender", "race", "religion", "age", "sexual_orientation"}

  /** The open metadata mapping, reduced to the two keys the pipeline reads. */
  datatype Metadata = Metadata(yearsExperience: Option<real>, location: Option<string>)

  datatype Resume = Resume(
    id: string,
    fullName: string,
    text: string,
    email: string,
    linkedinUrl: string,
    experience: seq<string>,
    metadata: Metadata)

  /** `years_experience`, 0 when absent. */
  function YearsOf(r: Resume): real {
    r.metadata.yearsExperience.ValueOr(0.0)
  }

  /** `location`, the empty string when absent. */
  function LocationOf(r: Resume): string {
    r.metadata.location.ValueOr("")
  }

  /** One caller-supplied filter criterion: key and value. */
  type Criterion = (string, string)

  /** A criteria mapping, in its insertion order. */
  type Criteria = seq<Criterion>

  ghost predicate DistinctKeys(c: Criteria) {
    forall i, j :: 0 <= i < j < |c| ==> c[i].0 != c[j].0
  }

  /** The job description: required keywords (an absent or `None` list is the
      empty list) and the minimum years of experience. */
  datatype JobDesc = JobDesc(keywords: seq<string>, minYearsExperience: Option<real>)

  function MinYears(job: JobDesc): real {
    job.minYearsExperience.ValueOr(0.0)
  }

  /** The agent's only state: the warnings it has recorded so far. */
  datatype FilterAgent = FilterAgent(warnings: seq<string>)

  /** A freshly constructed agent has recorded nothing. */
  const NewFilterAgent := FilterAgent([])

  predicate IsProtected(key: string) {
    Lower(key) in ProtectedAttributes
  }

  predicate IsProtectedEntry(c: Criterion) {
    IsProtected(c.0)
  }

  predicate IsSafeEntry(c: Criterion) {
    !IsProtected(c.0)
  }

  function WarningFor(key: string): string {
    "Ignored protected attribute filter: " + key
  }

  /** One warning per entry, naming its key as the caller spelled it. */
  function WarningsFor(c: Criteria): seq<string> {
    if |c| == 0 then [] else [WarningFor(c[0].0)] + WarningsFor(c[1..])
  }

  lemma WarningsForCons(c: Criterion, rest: Criteria)
    ensures WarningsFor([c] + rest) == [WarningFor(c.0)] + WarningsFor(rest)
  {
    assert ([c] + rest)[1..] == rest;
  }

  /** One step of the loop on a protected entry: it is dropped and warned about. */
  lemma GuardStepProtected(criteria: Criteria)
    requires |criteria| > 0 && IsProtected(criteria[0].0)
    ensures Keep(criteria, IsSafeEntry) == Keep(criteria[1..], IsSafeEntry)
    ensures WarningsFor(Keep(criteria, IsProtectedEntry))
      == [WarningFor(criteria[0].0)] + WarningsFor(Keep(criteria[1..], IsProtectedEntry))
  {
  }

  /** One step of the loop on a safe entry: it is kept and nothing is warned. */
  lemma GuardStepSafe(criteria: Criteria)
    requires |criteria| > 0 && !IsProtected(criteria[0].0)
    ensures Keep(criteria, IsSafeEntry) == [criteria[0]] + Keep(criteria[1..], IsSafeEntry)
    ensures Keep(criteria, IsProtectedEntry) == Keep(criteria[1..], IsProtectedEntry)
  {
  }

  /** The loop of `_check_biases`: the safe entries and the warnings it emits,
      in iteration order. */
  function Guard(criteria: Criteria): (res: (Criteria, seq<string>))
    ensures res.0 == Keep(criteria, IsSafeEntry)
    ensures res.1 == WarningsFor(Keep(criteria, IsProtectedEntry))
    decreases |criteria|
  {
    if |criteria| == 0 then ([], [])
    else
      var rest := Guard(criteria[1..]);
      var (k, v) := criteria[0];
      if IsProtected(k) then
        GuardStepProtected(criteria);
        (rest.0, [WarningFor(k)] + rest.1)
      else
        GuardStepSafe(criteria);
        ([(k, v)] + rest.0, rest.1)
  }

  /** `_check_biases`: `None` counts as no criteria; the agent's warnings only
      ever grow, by one per protected key. */
  function CheckBiases(agent: FilterAgent, biases: Option<Criteria>): (res: (Criteria, FilterAgent))
    ensures forall i :: 0 <= i < |res.0| ==> !IsProtected(res.0[i].0)
    ensures IsSubsequence(res.0, biases.ValueOr([]))
    ensures forall c :: multiset(res.0)[c] == if IsProtected(c.0) then 0 else multiset(biases.ValueOr([]))[c]
    ensures |agent.warnings| <= |res.1.warnings|
    ensures res.1.warnings[..|agent.warnings|] == agent.warnings
    ensures res.1.warnings[|agent.warnings|..] == WarningsFor(Keep(biases.ValueOr([]), IsProtectedEntry))
    ensures (biases == None || biases == Some([])) ==> res.0 == [] && res == ([], agent)
  {
    var (safe, warned) := Guard(biases.ValueOr([]));
    assert agent.warnings + [] == agent.warnings;
    assert (agent.warnings + warned)[|agent.warnings|..] == warned;
    (safe, FilterAgent(agent.warnings + warned))
  }

  /** Every safe key was already in the criteria, so stripping protected keys
      keeps the keys distinct. */
  lemma {:induction false} KeepKeepsKeysDistinct(c: Criteria, p: Criterion -> bool)
    requires DistinctKeys(c)
    ensures DistinctKeys(Keep(c, p))
    decreases |c|
  {
    if |c| > 0 {
      KeepKeepsKeysDistinct(c[1..], p);
      var rest := Keep(c[1..], p);
      if p(c[0]) {
        var r := Keep(c, p);
        assert r == [c[0]] + rest;
        forall i, j | 0 <= i < j < |r|
          ensures r[i].0 != r[j].0
        {
          if i == 0 {
            assert r[j] in c[1..];
          } else {
            assert r[i] == rest[i - 1] && r[j] == rest[j - 1];
          }
        }
      }
    }
  }

  lemma CheckBiasesKeepsKeysDistinct(agent: FilterAgent, biases: Criteria)
    requires DistinctKeys(biases)
    ensures DistinctKeys(CheckBiases(agent, Some(biases)).0)
  {
    KeepKeepsKeysDistinct(biases, IsSafeEntry);
  }

  /** The keyword check: with no keywords everything passes, otherwise some
      keyword (lower-cased) occurs in the lower-cased text. */
  predicate KeywordsPass(keywords: seq<string>, textLower: string) {
    |keywords| == 0 || exists kw :: kw in keywords && Contains(textLower, Lower(kw))
  }

  /** What one safe criterion demands of a resume: `location` and
      `required_skill` (exactly these spellings) are substring tests; every
      other key demands nothing. */
  predicate CriterionHolds(c: Criterion, r: Resume) {
    && (c.0 == "location" ==> Contains(Lower(LocationOf(r)), Lower(c.1)))
    && (c.0 == "required_skill" ==> Contains(Lower(r.text), Lower(c.1)))
  }

  /** The criteria loop, stopping at the first failing criterion. */
  function CriteriaPass(safe: Criteria, r: Resume): (ok: bool)
    ensures ok <==> forall i :: 0 <= i < |safe| ==> CriterionHolds(safe[i], r)
    decreases |safe|
  {
    if |safe| == 0 then true
    else
      var (k, v) := safe[0];
      if k == "location" && !Contains(Lower(LocationOf(r)), Lower(v)) then false
      else if k == "required_skill" && !Contains(Lower(r.text), Lower(v)) then false
      else
        assert forall i :: 1 <= i < |safe| ==> safe[i] == safe[1..][i - 1];
        CriteriaPass(safe[1..], r)
  }

  /** Inserting a criterion whose key is neither `location` nor
      `required_skill` anywhere in the criteria changes no verdict. */
  lemma {:induction false} OtherKeysIgnored(safe: Criteria, at: nat, c: Criterion, r: Resume)
    requires at <= |safe|
    requires c.0 != "location" && c.0 != "required_skill"
    ensures CriteriaPass(safe[..at] + [c] + safe[at..], r) == CriteriaPass(safe, r)
  {
    var longer := safe[..at] + [c] + safe[at..];
    assert CriterionHolds(c, r);
    assert forall i :: 0 <= i < at ==> longer[i] == safe[i];
    assert forall i :: at <= i < |safe| ==> longer[i + 1] == safe[i];
    if CriteriaPass(safe, r) {
      forall i | 0 <= i < |longer|
        ensures CriterionHolds(longer[i], r)
      {
        if i > at {
          assert longer[i] == safe[i - 1];
        }
      }
    }
  }

  /** The admission rule for one resume under given job and safe criteria. */
  ghost predicate Admissible(r: Resume, job: JobDesc, safe: Criteria) {
    && KeywordsPass(job.keywords, Lower(r.text))
    && YearsOf(r) >= MinYears(job)
    && forall c :: c in safe ==> CriterionHolds(c, r)
  }

  /** The admission rule as the loop body runs it. */
  predicate Admits(r: Resume, job: JobDesc, safe: Criteria) {
    var textLower := Lower(r.text);
    if !KeywordsPass(job.keywords, textLower) then false
    else if YearsOf(r) < MinYears(job) then false
    else CriteriaPass(safe, r)
  }

  lemma AdmitsIsAdmissible(r: Resume, job: JobDesc, safe: Criteria)
    ensures Admits(r, job, safe) <==> Admissible(r, job, safe)
  {
  }

  /** `FilterAgent.filter`: strips protected criteria (recording warnings),
      then keeps exactly the admissible resumes, in input order. */
  function Filter(agent: FilterAgent, resumes: seq<Resume>, job: JobDesc, biases: Option<Criteria>)
    : (res: (seq<Resume>, FilterAgent))
    ensures IsSubsequence(res.0, resumes)
    ensures forall i :: 0 <= i < |res.0| ==> Admissible(res.0[i], job, CheckBiases(agent, biases).0)
    ensures forall r :: multiset(res.0)[r] ==
                        if Admissible(r, job, CheckBiases(agent, biases).0) then multiset(resumes)[r] else 0
    ensures res.1 == CheckBiases(agent, biases).1
  {
    var (safe, agent') := CheckBiases(agent, biases);
    var admits := r => Admits(r, job, safe);
    var kept := Keep(resumes, admits);
    assert forall r :: admits(r) <==> Admissible(r, job, safe) by {
      forall r
        ensures admits(r) <==> Admissible(r, job, safe)
      {
        AdmitsIsAdmissible(r, job, safe);
      }
    }
    (kept, agent')
  }

  /** Every admitted resume meets the years floor, with both sides
      defaulting to 0. */
  lemma AdmittedMeetYears(agent: FilterAgent, resumes: seq<Resume>, job: JobDesc, biases: Option<Criteria>, i: nat)
    requires i < |Filter(agent, resumes, job, biases).0|
    ensures YearsOf(Filter(agent, resumes, job, biases).0[i]) >= MinYears(job)
  {
  }

  /** A resume that passes all three checks is not dropped. */
  lemma AdmissibleIsKept(agent: FilterAgent, resumes: seq<Resume>, job: JobDesc, biases: Option<Criteria>, r: Resume)
    requires r in resumes
    requires Admissible(r, job, CheckBiases(agent, biases).0)
    ensures r in Filter(agent, resumes, job, biases).0
  {
    var kept := Filter(agent, resumes, job, biases).0;
    assert multiset(resumes)[r] > 0;
    assert multiset(kept)[r] > 0;
  }
}
