/**
 * The resume skill-gap matcher of src/pages/ResumePage.tsx: the file gate on drop and select,
 * and the deterministic part of `analyzeResume`. Which requirements count as found is a random
 * draw in the source (`Math.random() > 0.4` per requirement); here it is the parameter `keep`.
 * The analysis does not read the file's contents.
 */
module Resume {
  import opened Wrappers
  import Constants

  // ---------------------------------------------------------------------------
  // Requirements per role
  // ---------------------------------------------------------------------------

  const RoleRequirements: map<string, seq<string>> := map[
    "software-engineer" := [
      "JavaScript", "TypeScript", "React", "Node.js", "Python", "SQL",
      "Git", "REST APIs", "Data Structures", "Algorithms", "System Design",
      "Testing", "CI/CD", "Cloud (AWS/GCP)", "Docker"
    ],
    "product-manager" := [
      "Product Strategy", "User Research", "Agile/Scrum", "Data Analysis",
      "Roadmapping", "Stakeholder Management", "A/B Testing", "SQL",
      "Wireframing", "Market Analysis", "KPIs/Metrics", "JIRA"
    ],
    "data-analyst" := [
      "SQL", "Python", "Excel", "Tableau", "Power BI", "Statistics",
      "Data Visualization", "ETL", "A/B Testing", "Regression Analysis",
      "Machine Learning Basics", "Business Intelligence"
    ]
  ]

  predicate NoDuplicates(xs: seq<string>) {
    forall i, j :: 0 <= i < j < |xs| ==> xs[i] != xs[j]
  }

  /** Every requirement list is non-empty, free of duplicates and of empty names. */
  lemma RequirementListsWellFormed()
    ensures forall role :: role in RoleRequirements ==>
      && |RoleRequirements[role]| > 0 && NoDuplicates(RoleRequirements[role])
      && forall k :: 0 <= k < |RoleRequirements[role]| ==> RoleRequirements[role][k] != ""
  {
  }

  /** The requirements of a role; a role without a list gets the software engineer's. */
  function RequirementsFor(role: string): (reqs: seq<string>)
    ensures Constants.DefaultRole in RoleRequirements
    ensures role in RoleRequirements ==> reqs == RoleRequirements[role]
    ensures role !in RoleRequirements ==> reqs == RoleRequirements[Constants.DefaultRole]
    ensures |reqs| > 0 && NoDuplicates(reqs)
  {
    RequirementListsWellFormed();
    if role in RoleRequirements then RoleRequirements[role] else RoleRequirements[Constants.DefaultRole]
  }

  // ---------------------------------------------------------------------------
  // Found and missing skills
  // ---------------------------------------------------------------------------

  /** `requirements.filter(() => draw)`: the requirements whose draw is true, in order. */
  function Selected(reqs: seq<string>, keep: seq<bool>): (found: seq<string>)
    requires |keep| == |reqs|
    ensures |found| <= |reqs|
    ensures forall x :: x in found ==> x in reqs
  {
    if reqs == [] then [] else (if keep[0] then [reqs[0]] else []) + Selected(reqs[1..], keep[1..])
  }

  /** `requirements.filter(s => !found.includes(s))`: the requirements not found, in order. */
  function Missing(reqs: seq<string>, found: seq<string>): (missing: seq<string>)
    ensures |missing| <= |reqs|
    ensures forall x :: x in missing ==> x in reqs && x !in found
  {
    if reqs == [] then [] else (if reqs[0] in found then [] else [reqs[0]]) + Missing(reqs[1..], found)
  }

  /** `xs` is `ys` with some elements deleted and the rest kept in order. */
  predicate IsSubsequence(xs: seq<string>, ys: seq<string>)
    decreases |ys|
  {
    if ys == [] then xs == []
    else (xs != [] && xs[0] == ys[0] && IsSubsequence(xs[1..], ys[1..])) || IsSubsequence(xs, ys[1..])
  }

  /** The found skills are an order-preserving subsequence of the requirements. */
  lemma {:induction false} SelectedIsSubsequence(reqs: seq<string>, keep: seq<bool>)
    requires |keep| == |reqs|
    ensures IsSubsequence(Selected(reqs, keep), reqs)
  {
    if reqs != [] {
      SelectedIsSubsequence(reqs[1..], keep[1..]);
      var rest := Selected(reqs[1..], keep[1..]);
      if keep[0] {
        assert Selected(reqs, keep) == [reqs[0]] + rest;
        assert ([reqs[0]] + rest)[1..] == rest;
      } else {
        assert Selected(reqs, keep) == rest;
      }
    }
  }

  /** The missing skills are an order-preserving subsequence of the requirements. */
  lemma {:induction false} MissingIsSubsequence(reqs: seq<string>, found: seq<string>)
    ensures IsSubsequence(Missing(reqs, found), reqs)
  {
    if reqs != [] {
      MissingIsSubsequence(reqs[1..], found);
      var rest := Missing(reqs[1..], found);
      if reqs[0] !in found {
        assert Missing(reqs, found) == [reqs[0]] + rest;
        assert ([reqs[0]] + rest)[1..] == rest;
      } else {
        assert Missing(reqs, found) == rest;
      }
    }
  }

  /** An element of the found or missing skills is a requirement. */
  lemma {:induction false} SelectedMembers(reqs: seq<string>, keep: seq<bool>, x: string)
    requires |keep| == |reqs|
    ensures x in Selected(reqs, keep) <==> exists i :: 0 <= i < |reqs| && reqs[i] == x && keep[i]
  {
    if reqs != [] {
      SelectedMembers(reqs[1..], keep[1..], x);
      if x in Selected(reqs[1..], keep[1..]) {
        var i :| 0 <= i < |reqs[1..]| && reqs[1..][i] == x && keep[1..][i];
        assert reqs[i + 1] == x && keep[i + 1];
      }
      if exists i :: 0 <= i < |reqs| && reqs[i] == x && keep[i] {
        var i :| 0 <= i < |reqs| && reqs[i] == x && keep[i];
        if i > 0 {
          assert reqs[1..][i - 1] == x && keep[1..][i - 1];
        }
      }
    }
  }

  lemma {:induction false} MissingMembers(reqs: seq<string>, found: seq<string>, x: string)
    ensures x in Missing(reqs, found) <==> x in reqs && x !in found
  {
    if reqs != [] {
      MissingMembers(reqs[1..], found, x);
      assert x in reqs <==> x == reqs[0] || x in reqs[1..];
    }
  }

  /** The number of true draws. */
  function CountTrue(bs: seq<bool>): nat {
    if bs == [] then 0 else (if bs[0] then 1 else 0) + CountTrue(bs[1..])
  }

  lemma {:induction false} SelectedLength(reqs: seq<string>, keep: seq<bool>)
    requires |keep| == |reqs|
    ensures |Selected(reqs, keep)| == CountTrue(keep)
  {
    if reqs != [] {
      SelectedLength(reqs[1..], keep[1..]);
    }
  }

  lemma {:induction false} MissingLength(reqs: seq<string>, keep: seq<bool>)
    requires |keep| == |reqs| && NoDuplicates(reqs)
    ensures |Missing(reqs, Selected(reqs, keep))| == |reqs| - CountTrue(keep)
  {
    forall i | 0 <= i < |reqs| ensures reqs[i] in Selected(reqs, keep) <==> keep[i] {
      FoundIffDrawn(reqs, keep, i);
    }
    MissingLengthFrom(reqs, keep, Selected(reqs, keep));
  }

  lemma {:induction false} MissingLengthFrom(reqs: seq<string>, keep: seq<bool>, found: seq<string>)
    requires |keep| == |reqs| && NoDuplicates(reqs)
    requires forall i :: 0 <= i < |reqs| ==> (reqs[i] in found <==> keep[i])
    ensures |Missing(reqs, found)| == |reqs| - CountTrue(keep)
  {
    if reqs != [] {
      assert reqs[0] in found <==> keep[0];
      forall i | 0 <= i < |reqs[1..]| ensures reqs[1..][i] in found <==> keep[1..][i] {
        assert reqs[1..][i] == reqs[i + 1];
      }
      MissingLengthFrom(reqs[1..], keep[1..], found);
      CountTrueBound(keep[1..]);
    }
  }

  lemma {:induction false} CountTrueBound(bs: seq<bool>)
    ensures CountTrue(bs) <= |bs|
  {
    if bs != [] {
      CountTrueBound(bs[1..]);
    }
  }

  /** With distinct requirements, requirement i is found exactly when its draw was true. */
  lemma FoundIffDrawn(reqs: seq<string>, keep: seq<bool>, i: nat)
    requires |keep| == |reqs| && NoDuplicates(reqs) && i < |reqs|
    ensures reqs[i] in Selected(reqs, keep) <==> keep[i]
  {
    SelectedMembers(reqs, keep, reqs[i]);
  }

  /**
   * With distinct requirements every requirement lands in exactly one of the found and the
   * missing skills, and the two lists together are as long as the requirements.
   */
  lemma FoundMissingPartition(reqs: seq<string>, keep: seq<bool>)
    requires |keep| == |reqs| && NoDuplicates(reqs)
    ensures forall x :: x in reqs ==> (x in Selected(reqs, keep) <==> x !in Missing(reqs, Selected(reqs, keep)))
    ensures forall x :: x in Selected(reqs, keep) || x in Missing(reqs, Selected(reqs, keep)) ==> x in reqs
    ensures |Selected(reqs, keep)| + |Missing(reqs, Selected(reqs, keep))| == |reqs|
  {
    var found := Selected(reqs, keep);
    forall x ensures x in Missing(reqs, found) <==> x in reqs && x !in found {
      MissingMembers(reqs, found, x);
    }
    forall x | x in found ensures x in reqs {
      SelectedMembers(reqs, keep, x);
    }
    SelectedLength(reqs, keep);
    MissingLength(reqs, keep);
  }

  // ---------------------------------------------------------------------------
  // Skill matches
  // ---------------------------------------------------------------------------

  datatype Importance = High | Medium | Low

  datatype SkillMatch = SkillMatch(skill: string, found: bool, importance: Importance)

  /** The importance tier of the requirement at index `i`. */
  function ImportanceAt(i: nat): (imp: Importance)
    ensures imp == High <==> i < 5
    ensures imp == Medium <==> 5 <= i < 10
    ensures imp == Low <==> 10 <= i
  {
    if i < 5 then High else if i < 10 then Medium else Low
  }

  /** `requirements.map((skill, i) => ...)`: one entry per requirement, in order. */
  function SkillMatches(reqs: seq<string>, found: seq<string>): (ms: seq<SkillMatch>)
    ensures |ms| == |reqs|
    ensures forall i :: 0 <= i < |reqs| ==>
      ms[i].skill == reqs[i] && (ms[i].found <==> reqs[i] in found) && ms[i].importance == ImportanceAt(i)
  {
    seq(|reqs|, i requires 0 <= i < |reqs| => SkillMatch(reqs[i], reqs[i] in found, ImportanceAt(i)))
  }

  /** The number of entries marked found. */
  function CountFound(ms: seq<SkillMatch>): nat {
    if ms == [] then 0 else (if ms[0].found then 1 else 0) + CountFound(ms[1..])
  }

  lemma {:induction false} CountFoundOfDraws(ms: seq<SkillMatch>, keep: seq<bool>)
    requires |ms| == |keep| && forall i :: 0 <= i < |ms| ==> (ms[i].found <==> keep[i])
    ensures CountFound(ms) == CountTrue(keep)
  {
    if ms != [] {
      CountFoundOfDraws(ms[1..], keep[1..]);
    }
  }

  /** With distinct requirements the entries marked found are exactly as many as the found skills. */
  lemma CountFoundIsFoundLength(reqs: seq<string>, keep: seq<bool>)
    requires |keep| == |reqs| && NoDuplicates(reqs)
    ensures CountFound(SkillMatches(reqs, Selected(reqs, keep))) == |Selected(reqs, keep)|
  {
    var ms := SkillMatches(reqs, Selected(reqs, keep));
    forall i | 0 <= i < |ms| ensures ms[i].found <==> keep[i] {
      FoundIffDrawn(reqs, keep, i);
    }
    CountFoundOfDraws(ms, keep);
    SelectedLength(reqs, keep);
  }

  // ---------------------------------------------------------------------------
  // Match percentage
  // ---------------------------------------------------------------------------

  /**
   * `Math.round(found / total * 100)` in exact arithmetic: the integer nearest to
   * 100 * found / total, halves rounded up.
   */
  function MatchPercentage(found: nat, total: nat): (p: nat)
    requires 0 < total && found <= total
    ensures p * (2 * total) <= 200 * found + total < (p + 1) * (2 * total)
    ensures p <= 100
    ensures found == 0 ==> p == 0
    ensures found == total ==> p == 100
  {
    var p := (200 * found + total) / (2 * total);
    assert p * (2 * total) <= 200 * found + total < (p + 1) * (2 * total);
    PercentAtMost100(p, found, total);
    p
  }

  lemma PercentAtMost100(p: nat, found: nat, total: nat)
    requires 0 < total && found <= total
    requires p * (2 * total) <= 200 * found + total < (p + 1) * (2 * total)
    ensures p <= 100
    ensures found == 0 ==> p == 0
    ensures found == total ==> p == 100
  {
    var t := 2 * total;
    assert 200 * found + total < 101 * t;
    LessFromProducts(p, 101, t);
    if found == 0 {
      assert p * t < 1 * t;
      LessFromProducts(p, 1, t);
    }
    if found == total {
      assert 100 * t < (p + 1) * t;
      LessFromProducts(100, p + 1, t);
    }
  }

  /** Cancelling a positive factor from a strict inequality of products. */
  lemma LessFromProducts(a: nat, b: nat, c: nat)
    requires c > 0 && a * c < b * c
    ensures a < b
  {
  }

  /** Finding more skills never lowers the percentage. */
  lemma MatchPercentageMonotone(f1: nat, f2: nat, total: nat)
    requires 0 < total && f1 <= f2 <= total
    ensures MatchPercentage(f1, total) <= MatchPercentage(f2, total)
  {
    var p1, p2 := MatchPercentage(f1, total), MatchPercentage(f2, total);
    assert p1 * (2 * total) <= 200 * f1 + total <= 200 * f2 + total < (p2 + 1) * (2 * total);
    LessFromProducts(p1, p2 + 1, 2 * total);
  }

  // ---------------------------------------------------------------------------
  // Recommendations
  // ---------------------------------------------------------------------------

  /** What a JavaScript template literal prints for `xs[i]`: `undefined` past the end. */
  function TemplateAt(xs: seq<string>, i: nat): (s: string)
    ensures i < |xs| ==> s == xs[i]
    ensures i >= |xs| ==> s == "undefined"
  {
    if i < |xs| then xs[i] else "undefined"
  }

  /** `xs[i] || fallback`: the element when it exists and is non-empty, the fallback otherwise. */
  function OrFallback(xs: seq<string>, i: nat, fallback: string): (s: string)
    ensures s == fallback || (i < |xs| && s == xs[i])
    ensures i < |xs| && xs[i] != "" ==> s == xs[i]
  {
    if i < |xs| && xs[i] != "" then xs[i] else fallback
  }

  const Fallback: string := "relevant technologies"

  function AddMore(skill: string): string {
    "Add more " + skill + " experience to your resume"
  }

  function Highlight(skill: string): string {
    "Highlight any projects involving " + skill
  }

  const QuantifyAdvice: string := "Quantify your achievements with specific metrics"
  const KeywordsAdvice: string := "Include keywords from job descriptions"

  /** The recommendations as the source builds them: the first reads `missingSkills[0]` unguarded. */
  function RecommendationsAsWritten(missing: seq<string>): (recs: seq<string>)
    ensures |recs| == 4
    ensures |missing| > 0 ==> recs[0] == AddMore(missing[0])
    ensures missing == [] ==> recs[0] == AddMore("undefined")
  {
    [AddMore(TemplateAt(missing, 0)), Highlight(OrFallback(missing, 1, Fallback)), QuantifyAdvice, KeywordsAdvice]
  }

  /** When every skill is found the first recommendation, as written, asks for more "undefined". */
  lemma AllFoundRecommendsUndefined(reqs: seq<string>)
    ensures Missing(reqs, reqs) == []
    ensures RecommendationsAsWritten(Missing(reqs, reqs))[0] == "Add more undefined experience to your resume"
  {
    MissingNone(reqs, reqs);
    assert AddMore("undefined") == "Add more undefined experience to your resume";
  }

  lemma {:induction false} MissingNone(reqs: seq<string>, found: seq<string>)
    requires forall k :: 0 <= k < |reqs| ==> reqs[k] in found
    ensures Missing(reqs, found) == []
  {
    if reqs != [] {
      assert reqs[0] in found;
      MissingNone(reqs[1..], found);
    }
  }

  /**
   * The recommendations: four, in a fixed order. The first two name the first and the second
   * missing skill, or "relevant technologies" when there is no such skill; the first uses
   * the same fallback as the second.
   */
  function Recommendations(missing: seq<string>): (recs: seq<string>)
    ensures |recs| == 4
    ensures recs[0] == AddMore(if |missing| > 0 && missing[0] != "" then missing[0] else Fallback)
    ensures recs[1] == Highlight(if |missing| > 1 && missing[1] != "" then missing[1] else Fallback)
    ensures recs[2] == QuantifyAdvice && recs[3] == KeywordsAdvice
  {
    [AddMore(OrFallback(missing, 0, Fallback)), Highlight(OrFallback(missing, 1, Fallback)), QuantifyAdvice, KeywordsAdvice]
  }

  /** The corrected list differs from the source's only in the first entry, and only when nothing is missing. */
  lemma RecommendationsAgreeWhenSomethingMissing(missing: seq<string>)
    requires |missing| > 0 && missing[0] != ""
    ensures Recommendations(missing) == RecommendationsAsWritten(missing)
  {
  }

  // ---------------------------------------------------------------------------
  // The analysis
  // ---------------------------------------------------------------------------

  datatype ResumeAnalysis = ResumeAnalysis(
    matchPercentage: nat,
    foundSkills: seq<string>,
    missingSkills: seq<string>,
    skillMatches: seq<SkillMatch>,
    recommendations: seq<string>)

  /** The analysis of one requirement list, given the draw for each requirement. */
  function AnalyzeRequirements(reqs: seq<string>, keep: seq<bool>): (a: ResumeAnalysis)
    requires |reqs| > 0 && |keep| == |reqs|
    ensures IsSubsequence(a.foundSkills, reqs) && IsSubsequence(a.missingSkills, reqs)
    ensures forall x :: x in a.missingSkills <==> x in reqs && x !in a.foundSkills
    ensures |a.foundSkills| <= |reqs| && |a.skillMatches| == |reqs|
    ensures forall i :: 0 <= i < |reqs| ==>
      && a.skillMatches[i].skill == reqs[i]
      && (a.skillMatches[i].found <==> reqs[i] in a.foundSkills)
      && a.skillMatches[i].importance == ImportanceAt(i)
    ensures a.matchPercentage == MatchPercentage(|a.foundSkills|, |reqs|) && a.matchPercentage <= 100
    ensures a.recommendations == Recommendations(a.missingSkills)
  {
    var found := Selected(reqs, keep);
    var missing := Missing(reqs, found);
    SelectedIsSubsequence(reqs, keep);
    MissingIsSubsequence(reqs, found);
    forall x ensures x in missing <==> x in reqs && x !in found {
      MissingMembers(reqs, found, x);
    }
    SelectedLength(reqs, keep);
    CountTrueBound(keep);
    ResumeAnalysis(MatchPercentage(|found|, |reqs|), found, missing, SkillMatches(reqs, found),
      Recommendations(missing))
  }

  /** A resume file as the page sees it: its name and its MIME type. */
  datatype ResumeFile = ResumeFile(name: string, mimeType: string)

  predicate IsAcceptedType(mimeType: string) {
    mimeType == "application/pdf" || mimeType == "text/plain"
  }

  /** `handleDrop`: a dropped file replaces the current one only if it is a PDF or plain text. */
  function Drop(current: Option<ResumeFile>, dropped: Option<ResumeFile>): (r: Option<ResumeFile>)
    ensures dropped.Some? && IsAcceptedType(dropped.value.mimeType) ==> r == dropped
    ensures !(dropped.Some? && IsAcceptedType(dropped.value.mimeType)) ==> r == current
  {
    if dropped.Some? && IsAcceptedType(dropped.value.mimeType) then dropped else current
  }

  /** `handleFileSelect`: a file chosen in the picker replaces the current one, whatever its type. */
  function Select(current: Option<ResumeFile>, selected: Option<ResumeFile>): (r: Option<ResumeFile>)
    ensures selected.Some? ==> r == selected
    ensures selected.None? ==> r == current
  {
    if selected.Some? then selected else current
  }

  /** The picker, unlike a drop, lets a file of another type through. */
  lemma SelectSkipsTypeGate()
    ensures var f := ResumeFile("resume.docx", "application/msword");
      Select(None, Some(f)) == Some(f) && Drop(None, Some(f)) == None
  {
  }

  /**
   * `analyzeResume`: nothing happens without a file; otherwise the role's requirements (the
   * software engineer's for a role without a list) are split by the draws, and the result's
   * flags, counts and percentage agree with the split.
   */
  function AnalyzeResume(file: Option<ResumeFile>, role: string, keep: seq<bool>): (r: Option<ResumeAnalysis>)
    requires |keep| == |RequirementsFor(role)|
    ensures r.None? <==> file.None?
    ensures r.Some? ==>
      var reqs := RequirementsFor(role);
      && r.value == AnalyzeRequirements(reqs, keep)
      && r.value.foundSkills == Selected(reqs, keep)
      && (forall i :: 0 <= i < |reqs| ==> (r.value.skillMatches[i].found <==> keep[i]))
      && CountFound(r.value.skillMatches) == |r.value.foundSkills|
      && |r.value.foundSkills| + |r.value.missingSkills| == |reqs|
  {
    if file.None? then None
    else
      var reqs := RequirementsFor(role);
      var a := AnalyzeRequirements(reqs, keep);
      FoundMissingPartition(reqs, keep);
      CountFoundIsFoundLength(reqs, keep);
      assert forall i :: 0 <= i < |reqs| ==> (a.skillMatches[i].found <==> keep[i]) by {
        forall i | 0 <= i < |reqs| ensures a.skillMatches[i].found <==> keep[i] {
          FoundIffDrawn(reqs, keep, i);
        }
      }
      Some(a)
  }
}
