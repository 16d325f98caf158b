/** The rank stage (`RateAgent.rate`): a projection of the scored results
    that numbers them 1, 2, ... in the order given, without re-sorting. */
module Rank {
  import opened Seqs
  import opened Scoring

  datatype Rating = Rating(
    id: string,
    fullName: string,
    rating: nat,
    linkedinFound: bool,
    domains: seq<string>,
    rawScore: real)

  /** `RateAgent.rate`: rating 1 is the first (best) result. */
  method Rate(scored: seq<ScoreResult>) returns (out: seq<Rating>)
    ensures |out| == |scored|
    ensures forall i :: 0 <= i < |out| ==> out[i].rating == i + 1
    ensures forall i :: 0 <= i < |out| ==>
      && out[i].id == scored[i].resume.id
      && out[i].fullName == scored[i].resume.fullName
      && out[i].linkedinFound == scored[i].linkedinFound
      && out[i].domains == scored[i].domains
      && out[i].rawScore == scored[i].score
    ensures SortedByScore(scored) ==>
      forall i, j :: 0 <= i < j < |out| ==> out[i].rawScore <= out[j].rawScore
  {
    out := Numbered(scored, (idx: nat, s: ScoreResult) =>
      Rating(s.resume.id, s.resume.fullName, idx, s.linkedinFound, s.domains, s.score));
  }
}
