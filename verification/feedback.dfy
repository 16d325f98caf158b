/** The feedback stage (`FeedbackAgent.feedback_for`): one line per scored
    result, tagged `Top i` for the first `top_n` positions and `#i` after. */
module Feedback {
  import opened Optional
  import opened Text
  import opened Seqs
  import opened Scoring

  /** `top_n` when the caller gives none. */
  const DefaultTopN: int := 1

  /** The tag of 1-based position `idx`. */
  function Tag(idx: nat, topN: int): string {
    if idx <= topN then "Top " + NatToString(idx) else "#" + NatToString(idx)
  }

  predicate AllDigits(s: string) {
    forall i :: 0 <= i < |s| ==> IsDigit(s[i])
  }

  /** Reads a tag back: its position and whether it is a `Top` tag. */
  function ParseTag(tag: string): Option<(nat, bool)> {
    if |tag| > 4 && tag[..4] == "Top " && AllDigits(tag[4..]) then Some((ParseDecimal(tag[4..]), true))
    else if |tag| > 1 && tag[0] == '#' && AllDigits(tag[1..]) then Some((ParseDecimal(tag[1..]), false))
    else None
  }

  /** A tag names its position and says whether it is among the top `topN`. */
  lemma TagRoundTrip(idx: nat, topN: int)
    ensures ParseTag(Tag(idx, topN)) == Some((idx, idx <= topN))
  {
    var digits := NatToString(idx);
    ParseNatToString(idx);
    if idx <= topN {
      assert ("Top " + digits)[4..] == digits;
      assert ("Top " + digits)[..4] == "Top ";
    } else {
      var tag := "#" + digits;
      assert tag[1..] == digits;
      assert tag[0] == '#';
    }
  }

  /** A tag starts with `Top ` exactly when its position is within `topN`. */
  lemma TagIsTop(idx: nat, topN: int)
    ensures "Top " <= Tag(idx, topN) <==> idx <= topN
  {
    if idx > topN {
      assert Tag(idx, topN)[0] == '#';
    }
  }

  /** The domain part: the tags joined by `", "`, or `general` for none. */
  function DomainsText(domains: seq<string>): string {
    if |domains| > 0 then Join(", ", domains) else "general"
  }

  /** `general` appears for an empty list, and otherwise only for the single
      tag `general`. */
  lemma DomainsTextGeneral(domains: seq<string>)
    ensures DomainsText(domains) == "general" <==> domains == [] || domains == ["general"]
  {
    if |domains| >= 2 {
      JoinSeparatorAfterFirst(", ", domains);
      var j := Join(", ", domains);
      assert j[|domains[0]|] == ',';
    }
  }

  function LinkedInText(found: bool): string {
    if found then "has LinkedIn" else "no LinkedIn found"
  }

  /** The line for the result at 1-based position `idx`. */
  function FeedbackLine(idx: nat, topN: int, s: ScoreResult): (line: string)
    ensures Tag(idx, topN) + " - " + s.resume.fullName + ": strong in " <= line
    ensures |line| > 0 && line[|line| - 1] == '.'
  {
    Tag(idx, topN) + " - " + s.resume.fullName + ": strong in " + DomainsText(s.domains) + "; "
      + LinkedInText(s.linkedinFound) + "."
  }

  /** The closing clause of a line: `; has LinkedIn.` or `; no LinkedIn found.`. */
  lemma LinkedInClause(found: bool)
    ensures |"; " + LinkedInText(found) + "."| >= 15
    ensures EndsWith("; " + LinkedInText(found) + ".", "; has LinkedIn.") <==> found
  {
    var tail := "; " + LinkedInText(found) + ".";
    if !found {
      assert |tail| == 20 && tail[5] == 'L';
    }
  }

  /** The LinkedIn part: a line ends with `; has LinkedIn.` exactly when the
      result's flag is set. */
  lemma FeedbackLineLinkedIn(idx: nat, topN: int, s: ScoreResult)
    ensures EndsWith(FeedbackLine(idx, topN, s), "; has LinkedIn.") <==> s.linkedinFound
  {
    var head := Tag(idx, topN) + " - " + s.resume.fullName + ": strong in " + DomainsText(s.domains);
    var tail := "; " + LinkedInText(s.linkedinFound) + ".";
    assert FeedbackLine(idx, topN, s) == head + tail;
    LinkedInClause(s.linkedinFound);
    EndsWithConcat(head, tail, "; has LinkedIn.");
  }

  /** A line starts with `Top ` exactly when its position is within `topN`. */
  lemma LineIsTop(idx: nat, topN: int, s: ScoreResult)
    ensures "Top " <= FeedbackLine(idx, topN, s) <==> idx <= topN
  {
    var line := FeedbackLine(idx, topN, s);
    var tag := Tag(idx, topN);
    assert |tag| >= 2;
    TagIsTop(idx, topN);
    if idx <= topN {
      assert line[..4] == tag[..4];
    } else {
      assert line[0] == tag[0] == '#';
    }
  }

  /** `FeedbackAgent.feedback_for`. */
  method FeedbackFor(scored: seq<ScoreResult>, topN: int := DefaultTopN) returns (lines: seq<string>)
    ensures |lines| == |scored|
    ensures forall i :: 0 <= i < |lines| ==> lines[i] == FeedbackLine(i + 1, topN, scored[i])
    ensures forall i :: 0 <= i < |lines| ==> ("Top " <= lines[i] <==> i + 1 <= topN)
    ensures topN <= 0 ==> forall i :: 0 <= i < |lines| ==> !("Top " <= lines[i])
    ensures topN >= |scored| ==> forall i :: 0 <= i < |lines| ==> "Top " <= lines[i]
  {
    lines := Numbered(scored, (idx: nat, s: ScoreResult) => FeedbackLine(idx, topN, s));
    forall i | 0 <= i < |lines|
      ensures "Top " <= lines[i] <==> i + 1 <= topN
    {
      LineIsTop(i + 1, topN, scored[i]);
    }
  }

  /** `feedback_for(scored)` with the default `top_n`: only the first line
      is a `Top` line. */
  method DefaultFeedback(scored: seq<ScoreResult>) returns (lines: seq<string>)
    ensures |lines| == |scored|
    ensures forall i :: 0 <= i < |lines| ==> ("Top " <= lines[i] <==> i == 0)
  {
    lines := FeedbackFor(scored);
  }
}
