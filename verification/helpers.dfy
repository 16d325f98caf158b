/** The two resume helpers over a plain dictionary: the required-key check
    and the four-line text rendering. Values are given as the text Python's
    formatting would print for them. */
module Helpers {
  import opened Text

  const RequiredFields: seq<string> := ["name", "email", "experience", "education"]

  /** The key check loop, returning at the first missing key. */
  function AllPresent<V>(fields: seq<string>, resume: map<string, V>): (ok: bool)
    ensures ok <==> forall i :: 0 <= i < |fields| ==> fields[i] in resume
    decreases |fields|
  {
    if |fields| == 0 then true
    else if fields[0] !in resume then false
    else
      assert forall i :: 1 <= i < |fields| ==> fields[i] == fields[1..][i - 1];
      AllPresent(fields[1..], resume)
  }

  /** `validate_resume`: true exactly when all four required keys are present;
      values and extra keys play no part. */
  function ValidateResume<V>(resume: map<string, V>): (ok: bool)
    ensures ok <==> "name" in resume && "email" in resume && "experience" in resume && "education" in resume
  {
    assert RequiredFields[0] == "name" && RequiredFields[1] == "email";
    assert RequiredFields[2] == "experience" && RequiredFields[3] == "education";
    AllPresent(RequiredFields, resume)
  }

  /** `resume.get(key)` as an f-string prints it: `None` when absent. */
  function Rendered(resume: map<string, string>, key: string): string {
    if key in resume then resume[key] else "None"
  }

  /** One labelled line: the caption, the printed value and a newline. */
  function FieldLine(caption: string, value: string): string {
    caption + value + "\n"
  }

  /** A labelled line adds exactly one newline to those of its value. */
  lemma FieldLineNewlines(caption: string, value: string)
    requires '\n' !in caption
    ensures multiset(FieldLine(caption, value))['\n'] == multiset(value)['\n'] + 1
  {
  }

  /** Four labelled lines, one after the other. */
  function FourFields(c1: string, v1: string, c2: string, v2: string,
                      c3: string, v3: string, c4: string, v4: string): string
  {
    FieldLine(c1, v1) + FieldLine(c2, v2) + FieldLine(c3, v3) + FieldLine(c4, v4)
  }

  /** Four labelled lines end with a newline and add one newline each. */
  lemma FourFieldNewlines(c1: string, v1: string, c2: string, v2: string,
                          c3: string, v3: string, c4: string, v4: string)
    requires '\n' !in c1 && '\n' !in c2 && '\n' !in c3 && '\n' !in c4
    ensures |FourFields(c1, v1, c2, v2, c3, v3, c4, v4)| > 0
    ensures FourFields(c1, v1, c2, v2, c3, v3, c4, v4)[|FourFields(c1, v1, c2, v2, c3, v3, c4, v4)| - 1] == '\n'
    ensures multiset(FourFields(c1, v1, c2, v2, c3, v3, c4, v4))['\n']
      == 4 + multiset(v1)['\n'] + multiset(v2)['\n'] + multiset(v3)['\n'] + multiset(v4)['\n']
  {
    FieldLineNewlines(c1, v1);
    FieldLineNewlines(c2, v2);
    FieldLineNewlines(c3, v3);
    FieldLineNewlines(c4, v4);
  }

  const NameCaption := "Name: "
  const EmailCaption := "Email: "
  const ExperienceCaption := "Experience: "
  const EducationCaption := "Education: "

  /** `format_resume`: the text ends with a newline, and holds exactly four
      newlines besides those inside the printed values. */
  function FormatResume(resume: map<string, string>): (text: string)
    ensures |text| > 0 && text[|text| - 1] == '\n'
    ensures multiset(text)['\n'] == 4 + multiset(Rendered(resume, "name"))['\n']
      + multiset(Rendered(resume, "email"))['\n'] + multiset(Rendered(resume, "experience"))['\n']
      + multiset(Rendered(resume, "education"))['\n']
  {
    FourFieldNewlines(NameCaption, Rendered(resume, "name"), EmailCaption, Rendered(resume, "email"),
      ExperienceCaption, Rendered(resume, "experience"), EducationCaption, Rendered(resume, "education"));
    FourFields(NameCaption, Rendered(resume, "name"), EmailCaption, Rendered(resume, "email"),
      ExperienceCaption, Rendered(resume, "experience"), EducationCaption, Rendered(resume, "education"))
  }

  /** A labelled line whose text has no newline splits off as one line. */
  lemma FieldLineSplits(caption: string, value: string, rest: string)
    requires '\n' !in caption && '\n' !in value
    ensures Lines(FieldLine(caption, value) + rest) == [caption + value] + Lines(rest)
  {
    assert '\n' !in caption + value;
    assert FieldLine(caption, value) + rest == (caption + value) + "\n" + rest;
    LinesCons(caption + value, rest);
  }

  /** Four labelled lines without inner newlines split back into four lines. */
  lemma FourFieldLines(c1: string, v1: string, c2: string, v2: string,
                       c3: string, v3: string, c4: string, v4: string)
    requires '\n' !in c1 && '\n' !in c2 && '\n' !in c3 && '\n' !in c4
    requires '\n' !in v1 && '\n' !in v2 && '\n' !in v3 && '\n' !in v4
    ensures Lines(FourFields(c1, v1, c2, v2, c3, v3, c4, v4)) == [c1 + v1, c2 + v2, c3 + v3, c4 + v4]
  {
    var f1, f2, f3, f4 := FieldLine(c1, v1), FieldLine(c2, v2), FieldLine(c3, v3), FieldLine(c4, v4);
    var t2 := f3 + f4;
    var t1 := f2 + t2;
    assert f1 + f2 + f3 + f4 == f1 + t1;
    assert f4 == f4 + "";
    FieldLineSplits(c4, v4, "");
    FieldLineSplits(c3, v3, f4);
    FieldLineSplits(c2, v2, t2);
    FieldLineSplits(c1, v1, t1);
  }

  /** When no printed value spans lines, the text is exactly four labelled
      lines in the order name, email, experience, education. */
  lemma FormatResumeLines(resume: map<string, string>)
    requires '\n' !in Rendered(resume, "name") && '\n' !in Rendered(resume, "email")
    requires '\n' !in Rendered(resume, "experience") && '\n' !in Rendered(resume, "education")
    ensures Lines(FormatResume(resume)) == [
      "Name: " + Rendered(resume, "name"),
      "Email: " + Rendered(resume, "email"),
      "Experience: " + Rendered(resume, "experience"),
      "Education: " + Rendered(resume, "education")]
  {
    FourFieldLines("Name: ", Rendered(resume, "name"), "Email: ", Rendered(resume, "email"),
      "Experience: ", Rendered(resume, "experience"), "Education: ", Rendered(resume, "education"));
  }
}
