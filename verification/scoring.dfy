/** The scoring stage (`ScoringAgent.score`): LinkedIn presence, domain tags
    from a fixed keyword table merged with optional enrichment, a cost score
    (lower is better), and a stable ascending sort by that score. */
module Scoring {
  import opened Optional
  import opened Text
  import opened Seqs
  import opened Filter

  /** Domain tags and their keywords, in the table's order. */
  const DomainKeywords: seq<(string, seq<string>)> := [
    ("finance", ["finance", "bank", "trading", "accounting"]),
    ("healthcare", ["health", "clinical", "hospital", "patient"]),
    ("ml", ["machine learning", "deep learning", "nlp", "computer vision"]),
    ("web", ["javascript", "react", "frontend", "backend", "django", "flask"])
  ]

  const DomainTags: seq<string> := ["finance", "healthcare", "ml", "web"]

  /** The external link check's outcome for one name: an answer, or a raised
      exception. */
  datatype LinkAnswer = Answer(found: bool) | Raised

  /** What the text-analysis capability reported for one corpus. A missing,
      non-boolean or unparsable `linkedin_found` is `None`; so are absent
      domains. A failed call is the empty report. */
  datatype Enrichment = Enrichment(linkedinFound: Option<bool>, domains: Option<seq<string>>)

  const NoEnrichment := Enrichment(None, None)

  /** The two optional injected capabilities. */
  datatype ScoringAgent = ScoringAgent(
    linkCheck: Option<string -> LinkAnswer>,
    enrich: Option<string -> Enrichment>)

  datatype ScoreResult = ScoreResult(resume: Resume, linkedinFound: bool, domains: seq<string>, score: real)

  /** The text analysed for domains: the resume text, a space, and the
      experience entries joined by spaces. */
  function Corpus(r: Resume): string {
    r.text + " " + Join(" ", r.experience)
  }

  /** Some keyword of `kws` occurs in `low`. */
  predicate Hits(kws: seq<string>, low: string) {
    exists k :: k in kws && Contains(low, k)
  }

  function TagsOf(table: seq<(string, seq<string>)>): seq<string> {
    seq(|table|, i requires 0 <= i < |table| => table[i].0)
  }

  /** The tags of the table entries one of whose keywords occurs in `low`, in
      table order. */
  function DetectIn(table: seq<(string, seq<string>)>, low: string): (tags: seq<string>)
    ensures IsSubsequence(tags, TagsOf(table))
    ensures forall t :: t in tags <==> exists i :: 0 <= i < |table| && table[i].0 == t && Hits(table[i].1, low)
    ensures Distinct(TagsOf(table)) ==> Distinct(tags)
    decreases |table|
  {
    if |table| == 0 then []
    else
      var rest := DetectIn(table[1..], low);
      var all := TagsOf(table);
      assert all[0] == table[0].0;
      assert all[1..] == TagsOf(table[1..]);
      assert forall i :: 1 <= i < |table| ==> table[i] == table[1..][i - 1];
      assert forall i :: 0 <= i < |table| - 1 ==> table[1..][i] == table[i + 1];
      if Hits(table[0].1, low) then
        var r := [table[0].0] + rest;
        assert r[1..] == rest;
        forall t | t in rest
          ensures t in all[1..]
        {
          var i :| 0 <= i < |table[1..]| && table[1..][i].0 == t && Hits(table[1..][i].1, low);
          assert all[1..][i] == t;
        }
        assert Distinct(all) ==> all[0] !in all[1..];
        assert Distinct(all) ==> Distinct(TagsOf(table[1..]));
        r
      else
        rest
  }

  /** `_detect_domains`: tags of the fixed table whose keywords occur in the
      lower-cased text, in table order, each at most once. */
  function DetectDomains(text: string): (tags: seq<string>)
    ensures IsSubsequence(tags, DomainTags)
    ensures Distinct(tags)
    ensures forall t :: t in tags <==>
      exists i :: 0 <= i < |DomainKeywords| && DomainKeywords[i].0 == t && Hits(DomainKeywords[i].1, Lower(text))
  {
    assert TagsOf(DomainKeywords) == DomainTags;
    DetectIn(DomainKeywords, Lower(text))
  }

  /** LinkedIn presence before enrichment: a non-empty URL settles it;
      otherwise the link check decides, and a raised check means absent. */
  function DetectLinkedIn(agent: ScoringAgent, r: Resume): (found: bool)
    ensures r.linkedinUrl != "" ==> found
    ensures r.linkedinUrl == "" ==>
      (found <==> agent.linkCheck.Some? && agent.linkCheck.value(r.fullName) == Answer(true))
  {
    if r.linkedinUrl != "" then true
    else
      match agent.linkCheck
      case None => false
      case Some(check) =>
        match check(r.fullName)
        case Answer(b) => b
        case Raised => false
  }

  /** The enrichment report for a corpus; no capability means the empty report. */
  function EnrichmentFor(agent: ScoringAgent, corpus: string): Enrichment {
    match agent.enrich
    case None => NoEnrichment
    case Some(analyze) => analyze(corpus)
  }

  /** A boolean `linkedin_found` in the report replaces the flag. */
  function OverrideLinkedIn(found: bool, e: Enrichment): bool {
    match e.linkedinFound
    case Some(b) => b
    case None => found
  }

  function LowerAll(ds: seq<string>): seq<string> {
    seq(|ds|, i requires 0 <= i < |ds| => Lower(ds[i]))
  }

  /** Heuristic tags followed by the new lower-cased enrichment tags. */
  function MergeDomains(heuristic: seq<string>, extra: Option<seq<string>>): (r: seq<string>)
    ensures |heuristic| <= |r| && r[..|heuristic|] == heuristic
    ensures Distinct(heuristic) ==> Distinct(r)
    ensures forall d :: d in r <==> d in heuristic || (extra.Some? && d in LowerAll(extra.value))
    ensures forall d :: d in r[|heuristic|..] ==> d !in heuristic
    ensures extra.Some? ==> FirstSeenOrder(r[|heuristic|..], LowerAll(extra.value))
    ensures (extra.None? || extra == Some([])) ==> r == heuristic
  {
    if extra.Some? && |extra.value| > 0 then
      var lowered := LowerAll(extra.value);
      var newTags := Dedupe(lowered);
      AppendNewOrder(heuristic, newTags);
      AppendNewFresh(heuristic, newTags);
      FirstSeenCompose(AppendNew(heuristic, newTags)[|heuristic|..], newTags, lowered);
      AppendNew(heuristic, newTags)
    else
      assert heuristic[|heuristic|..] == [];
      heuristic
  }

  /** The cost score: 100, less 10 for LinkedIn, 5 per domain and half a
      point per year of experience up to 20 years. */
  function ScoreValue(linkedinFound: bool, domainCount: nat, years: real): (s: real)
    ensures s >= 80.0 - 5.0 * domainCount as real
    ensures years >= 0.0 ==> s <= 100.0
  {
    var capped := if years < 20.0 then years else 20.0;
    100.0 - (if linkedinFound then 10.0 else 0.0) - 5.0 * domainCount as real - capped * 0.5
  }

  /** Each signal lowers the score: LinkedIn by 10, each extra domain by 5,
      each year by a half up to 20; years beyond 20 change nothing. */
  lemma ScoreValueMonotone(l: bool, n: nat, y: real)
    ensures ScoreValue(true, n, y) == ScoreValue(false, n, y) - 10.0
    ensures ScoreValue(l, n + 1, y) == ScoreValue(l, n, y) - 5.0
    ensures 0.0 <= y <= 19.0 ==> ScoreValue(l, n, y + 1.0) == ScoreValue(l, n, y) - 0.5
    ensures y >= 20.0 ==> ScoreValue(l, n, y) == ScoreValue(l, n, 20.0)
  {
  }

  /** One iteration of the scoring loop. */
  function ScoreOne(agent: ScoringAgent, r: Resume): (s: ScoreResult)
    ensures s.resume == r
    ensures |DetectDomains(Corpus(r))| <= |s.domains|
    ensures s.domains[..|DetectDomains(Corpus(r))|] == DetectDomains(Corpus(r))
    ensures Distinct(s.domains)
    ensures agent.enrich.None? ==> s.linkedinFound == DetectLinkedIn(agent, r) && s.domains == DetectDomains(Corpus(r))
    ensures EnrichmentFor(agent, Corpus(r)).linkedinFound.None? ==> s.linkedinFound == DetectLinkedIn(agent, r)
    ensures EnrichmentFor(agent, Corpus(r)).linkedinFound.Some? ==> s.linkedinFound == EnrichmentFor(agent, Corpus(r)).linkedinFound.value
    ensures (EnrichmentFor(agent, Corpus(r)).domains.None? || EnrichmentFor(agent, Corpus(r)).domains == Some([]))
      ==> s.domains == DetectDomains(Corpus(r))
    ensures s.score == ScoreValue(s.linkedinFound, |s.domains|, YearsOf(r))
    ensures s.score >= 80.0 - 5.0 * |s.domains| as real
    ensures YearsOf(r) >= 0.0 ==> s.score <= 100.0
  {
    var corpus := Corpus(r);
    var e := EnrichmentFor(agent, corpus);
    var found := OverrideLinkedIn(DetectLinkedIn(agent, r), e);
    var domains := MergeDomains(DetectDomains(corpus), e.domains);
    ScoreResult(r, found, domains, ScoreValue(found, |domains|, YearsOf(r)))
  }

  /** A failed or empty enrichment leaves exactly the heuristic signals. */
  lemma EmptyEnrichmentDegrades(agent: ScoringAgent, r: Resume)
    requires EnrichmentFor(agent, Corpus(r)) == NoEnrichment
    ensures ScoreOne(agent, r).linkedinFound == DetectLinkedIn(agent, r)
    ensures ScoreOne(agent, r).domains == DetectDomains(Corpus(r))
  {
  }

  /** A boolean enrichment flag wins over URL and link check alike. */
  lemma EnrichmentFlagOverrides(agent: ScoringAgent, r: Resume, b: bool)
    requires EnrichmentFor(agent, Corpus(r)).linkedinFound == Some(b)
    ensures ScoreOne(agent, r).linkedinFound == b
  {
  }

  // ---- stable ascending sort by score ----

  ghost predicate SortedByScore(s: seq<ScoreResult>) {
    forall i, j :: 0 <= i < j < |s| ==> s[i].score <= s[j].score
  }

  /** The elements of `s` whose score is `k`, in their order in `s`. */
  function WithScore(s: seq<ScoreResult>, k: real): seq<ScoreResult>
    decreases |s|
  {
    if |s| == 0 then []
    else (if s[0].score == k then [s[0]] else []) + WithScore(s[1..], k)
  }

  lemma WithScoreCons(x: ScoreResult, t: seq<ScoreResult>, k: real)
    ensures WithScore([x] + t, k) == (if x.score == k then [x] else []) + WithScore(t, k)
  {
  }

  lemma {:induction false} WithScoreMembers(s: seq<ScoreResult>, k: real, x: ScoreResult)
    requires x in WithScore(s, k)
    ensures x in s && x.score == k
    decreases |s|
  {
    if |s| > 0 && !(s[0].score == k && x == s[0]) {
      WithScoreMembers(s[1..], k, x);
    }
  }

  function ResumesOf(s: seq<ScoreResult>): (rs: seq<Resume>)
    ensures |rs| == |s|
    ensures forall i :: 0 <= i < |s| ==> rs[i] == s[i].resume
    decreases |s|
  {
    if |s| == 0 then [] else [s[0].resume] + ResumesOf(s[1..])
  }

  /** Places `x` before the first element whose score is not below its own. */
  function Insert(x: ScoreResult, t: seq<ScoreResult>): seq<ScoreResult>
    decreases |t|
  {
    if |t| == 0 || x.score <= t[0].score then [x] + t
    else [t[0]] + Insert(x, t[1..])
  }

  /** Inserting adds exactly `x`. */
  lemma {:induction false} InsertMultiset(x: ScoreResult, t: seq<ScoreResult>)
    ensures multiset(Insert(x, t)) == multiset(t) + multiset{x}
    decreases |t|
  {
    if |t| > 0 && x.score > t[0].score {
      InsertMultiset(x, t[1..]);
      assert t == [t[0]] + t[1..];
    }
  }

  lemma SortedCons(y: ScoreResult, s: seq<ScoreResult>)
    requires SortedByScore(s)
    requires forall z :: z in s ==> y.score <= z.score
    ensures SortedByScore([y] + s)
  {
  }

  /** Inserting into a sorted sequence keeps it sorted. */
  lemma {:induction false} InsertSorted(x: ScoreResult, t: seq<ScoreResult>)
    requires SortedByScore(t)
    ensures SortedByScore(Insert(x, t))
    decreases |t|
  {
    if |t| == 0 || x.score <= t[0].score {
      forall z | z in t
        ensures x.score <= z.score
      {
        var i :| 0 <= i < |t| && t[i] == z;
        assert t[0].score <= t[i].score;
      }
      SortedCons(x, t);
    } else {
      var r' := Insert(x, t[1..]);
      assert SortedByScore(t[1..]) by {
        assert forall i :: 0 <= i < |t[1..]| ==> t[1..][i] == t[i + 1];
      }
      InsertSorted(x, t[1..]);
      InsertMultiset(x, t[1..]);
      forall z | z in r'
        ensures t[0].score <= z.score
      {
        assert z in multiset(r');
        if z != x {
          assert z in multiset(t[1..]);
          var i :| 0 <= i < |t[1..]| && t[1..][i] == z;
          assert t[0].score <= t[i + 1].score;
        }
      }
      SortedCons(t[0], r');
    }
  }

  /** Inserting a result adds its resume and nothing else. */
  lemma {:induction false} InsertResumes(x: ScoreResult, t: seq<ScoreResult>)
    ensures multiset(ResumesOf(Insert(x, t))) == multiset(ResumesOf(t)) + multiset{x.resume}
    decreases |t|
  {
    if |t| == 0 || x.score <= t[0].score {
      var r := [x] + t;
      assert r[1..] == t;
    } else {
      var r' := Insert(x, t[1..]);
      var r := [t[0]] + r';
      assert Insert(x, t) == r && r[1..] == r';
      InsertResumes(x, t[1..]);
    }
  }

  /** Inserting `x` adds it to its score class ahead of the equal scores
      already there: it was met earlier in the input. */
  lemma {:induction false} InsertWithScore(x: ScoreResult, t: seq<ScoreResult>, k: real)
    ensures WithScore(Insert(x, t), k) == (if x.score == k then [x] else []) + WithScore(t, k)
    decreases |t|
  {
    if |t| == 0 || x.score <= t[0].score {
      WithScoreCons(x, t, k);
    } else {
      var r' := Insert(x, t[1..]);
      assert Insert(x, t) == [t[0]] + r';
      InsertWithScore(x, t[1..], k);
      WithScoreCons(t[0], r', k);
      assert t == [t[0]] + t[1..];
      WithScoreCons(t[0], t[1..], k);
      if x.score == k {
        assert t[0].score != k;
      }
    }
  }

  /** Stable insertion sort, ascending by score. */
  function SortByScore(s: seq<ScoreResult>): (r: seq<ScoreResult>)
    ensures SortedByScore(r)
    ensures multiset(r) == multiset(s)
    decreases |s|
  {
    if |s| == 0 then []
    else
      var r' := SortByScore(s[1..]);
      assert s == [s[0]] + s[1..];
      InsertSorted(s[0], r');
      InsertMultiset(s[0], r');
      Insert(s[0], r')
  }

  /** Sorting keeps the resumes, each as often as it was there. */
  lemma {:induction false} SortByScoreResumes(s: seq<ScoreResult>)
    ensures multiset(ResumesOf(SortByScore(s))) == multiset(ResumesOf(s))
    decreases |s|
  {
    if |s| > 0 {
      SortByScoreResumes(s[1..]);
      InsertResumes(s[0], SortByScore(s[1..]));
    }
  }

  /** Sorting is stable: the results of each score keep their input order. */
  lemma {:induction false} SortByScoreStable(s: seq<ScoreResult>, k: real)
    ensures WithScore(SortByScore(s), k) == WithScore(s, k)
    decreases |s|
  {
    if |s| > 0 {
      SortByScoreStable(s[1..], k);
      InsertWithScore(s[0], SortByScore(s[1..]), k);
      assert s == [s[0]] + s[1..];
      WithScoreCons(s[0], s[1..], k);
    }
  }

  /** Any two score-sorted sequences with the same elements of each score in
      the same order are equal: every stable sort, Python's `sorted` included,
      yields what `SortByScore` yields. */
  lemma {:induction false} StableSortUnique(a: seq<ScoreResult>, b: seq<ScoreResult>)
    requires SortedByScore(a) && SortedByScore(b)
    requires forall k :: WithScore(a, k) == WithScore(b, k)
    ensures a == b
    decreases |a| + |b|
  {
    if |a| == 0 || |b| == 0 {
      if |a| > 0 {
        assert WithScore(a, a[0].score) == [a[0]] + WithScore(a[1..], a[0].score);
        assert false;
      } else if |b| > 0 {
        assert WithScore(b, b[0].score) == [b[0]] + WithScore(b[1..], b[0].score);
        assert false;
      }
    } else {
      assert a == [a[0]] + a[1..];
      assert b == [b[0]] + b[1..];
      var ka, kb := a[0].score, b[0].score;
      WithScoreCons(a[0], a[1..], ka);
      WithScoreCons(b[0], b[1..], kb);
      WithScoreMembers(b, ka, WithScore(b, ka)[0]);
      WithScoreMembers(a, kb, WithScore(a, kb)[0]);
      assert kb <= ka && ka <= kb;
      assert a[0] == b[0];
      forall k
        ensures WithScore(a[1..], k) == WithScore(b[1..], k)
      {
        WithScoreCons(a[0], a[1..], k);
        WithScoreCons(b[0], b[1..], k);
        var p := if a[0].score == k then [a[0]] else [];
        assert WithScore(a[1..], k) == (p + WithScore(a[1..], k))[|p|..];
        assert WithScore(b[1..], k) == (p + WithScore(b[1..], k))[|p|..];
      }
      StableSortUnique(a[1..], b[1..]);
    }
  }

  /** `ScoringAgent.score`: one result per resume, sorted ascending by score,
      equal scores kept in input order. */
  function Score(agent: ScoringAgent, resumes: seq<Resume>): (out: seq<ScoreResult>)
    ensures |out| == |resumes|
    ensures SortedByScore(out)
    ensures multiset(ResumesOf(out)) == multiset(resumes)
    ensures forall i :: 0 <= i < |out| ==> out[i] == ScoreOne(agent, out[i].resume)
    ensures forall k :: WithScore(out, k) == WithScore(ScoreEach(agent, resumes), k)
  {
    var each := ScoreEach(agent, resumes);
    var out := SortByScore(each);
    SortByScoreResumes(each);
    assert forall k :: WithScore(out, k) == WithScore(each, k) by {
      forall k
        ensures WithScore(out, k) == WithScore(each, k)
      {
        SortByScoreStable(each, k);
      }
    }
    ScoreEachResumes(agent, resumes);
    assert |out| == |multiset(out)| == |multiset(each)| == |resumes|;
    forall i | 0 <= i < |out|
      ensures out[i] == ScoreOne(agent, out[i].resume)
    {
      assert out[i] in multiset(each);
    }
    out
  }

  /** The results in input order, before sorting. */
  function ScoreEach(agent: ScoringAgent, resumes: seq<Resume>): seq<ScoreResult> {
    seq(|resumes|, i requires 0 <= i < |resumes| => ScoreOne(agent, resumes[i]))
  }

  /** Scoring each resume keeps the resumes themselves, in order. */
  lemma ScoreEachResumes(agent: ScoringAgent, resumes: seq<Resume>)
    ensures ResumesOf(ScoreEach(agent, resumes)) == resumes
  {
  }
}
