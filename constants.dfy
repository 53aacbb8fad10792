/**
 * The constant tables of src/lib/constants.ts: the target roles, the per-role question bank
 * and the readiness thresholds, with the facts about them that the pages rely on.
 */
module Constants {
  import opened Wrappers
  import opened AssessmentTypes

  // ---------------------------------------------------------------------------
  // Target roles
  // ---------------------------------------------------------------------------

  const TargetRoles: seq<RoleInfo> := [
    RoleInfo("software-engineer", "Software Engineer",
      "Technical coding interviews, system design, and problem-solving assessments",
      "\U{1F4BB}", "from-blue-500 to-cyan-500"),
    RoleInfo("product-manager", "Product Manager",
      "Product sense, strategy, metrics, and stakeholder communication",
      "\U{1F4CA}", "from-purple-500 to-pink-500"),
    RoleInfo("data-analyst", "Data Analyst",
      "SQL, analytics, data storytelling, and business insights",
      "\U{1F4C8}", "from-green-500 to-emerald-500"),
    RoleInfo("data-scientist", "Data Scientist",
      "Machine learning, statistics, and technical presentations",
      "\U{1F9E0}", "from-orange-500 to-amber-500"),
    RoleInfo("ux-designer", "UX Designer",
      "Design process, portfolio presentation, and user research",
      "\U{1F3A8}", "from-rose-500 to-red-500"),
    RoleInfo("marketing-manager", "Marketing Manager",
      "Campaign strategy, brand storytelling, and growth metrics",
      "\U{1F4E3}", "from-indigo-500 to-violet-500")
  ]

  /** The role every lookup falls back to. */
  const DefaultRole: string := "software-engineer"

  /** No two target roles share an id, so a lookup by id finds at most one role. */
  lemma RoleIdsDistinct()
    ensures forall i, j :: 0 <= i < j < |TargetRoles| ==> TargetRoles[i].id != TargetRoles[j].id
  {
  }

  // ---------------------------------------------------------------------------
  // Question bank
  // ---------------------------------------------------------------------------

  const SoftwareEngineerQuestions: seq<InterviewQuestion> := [
    InterviewQuestion("se-1",
      "Tell me about a challenging technical problem you solved. Walk me through your approach.",
      Behavioral, Medium, 90),
    InterviewQuestion("se-2",
      "Describe a time when you had to learn a new technology quickly. How did you approach it?",
      Behavioral, Easy, 60),
    InterviewQuestion("se-3",
      "How would you design a URL shortening service like bit.ly?",
      Technical, Hard, 90)
  ]

  const ProductManagerQuestions: seq<InterviewQuestion> := [
    InterviewQuestion("pm-1",
      "Tell me about a product you launched. What was your strategy and how did you measure success?",
      Behavioral, Medium, 90),
    InterviewQuestion("pm-2",
      "How would you prioritize features for a new mobile banking app?",
      Situational, Medium, 90)
  ]

  const DataAnalystQuestions: seq<InterviewQuestion> := [
    InterviewQuestion("da-1",
      "Describe a time when you used data to influence a business decision. What was the outcome?",
      Behavioral, Medium, 90),
    InterviewQuestion("da-2",
      "How would you investigate a sudden 20% drop in user engagement?",
      Situational, Medium, 90)
  ]

  const DataScientistQuestions: seq<InterviewQuestion> := [
    InterviewQuestion("ds-1",
      "Tell me about a machine learning project you worked on. What approach did you take?",
      Technical, Medium, 90)
  ]

  const UxDesignerQuestions: seq<InterviewQuestion> := [
    InterviewQuestion("ux-1",
      "Walk me through your design process for a recent project. How did you validate your decisions?",
      Behavioral, Medium, 90)
  ]

  const MarketingManagerQuestions: seq<InterviewQuestion> := [
    InterviewQuestion("mm-1",
      "Tell me about a successful marketing campaign you led. What made it effective?",
      Behavioral, Medium, 90)
  ]

  const SampleQuestions: map<string, seq<InterviewQuestion>> := map[
    "software-engineer" := SoftwareEngineerQuestions,
    "product-manager" := ProductManagerQuestions,
    "data-analyst" := DataAnalystQuestions,
    "data-scientist" := DataScientistQuestions,
    "ux-designer" := UxDesignerQuestions,
    "marketing-manager" := MarketingManagerQuestions
  ]

  /** Every target role has a non-empty list of questions in the bank. */
  lemma EveryRoleHasQuestions()
    ensures forall i :: 0 <= i < |TargetRoles| ==>
      TargetRoles[i].id in SampleQuestions && |SampleQuestions[TargetRoles[i].id]| > 0
  {
  }

  /** The bank has an entry exactly for the target roles, so nothing in it is unreachable. */
  lemma BankKeysAreRoles()
    ensures forall role :: role in SampleQuestions <==> exists i :: 0 <= i < |TargetRoles| && TargetRoles[i].id == role
  {
    forall role | role in SampleQuestions
      ensures exists i :: 0 <= i < |TargetRoles| && TargetRoles[i].id == role
    {
      if role == "software-engineer" { assert TargetRoles[0].id == role; }
      else if role == "product-manager" { assert TargetRoles[1].id == role; }
      else if role == "data-analyst" { assert TargetRoles[2].id == role; }
      else if role == "data-scientist" { assert TargetRoles[3].id == role; }
      else if role == "ux-designer" { assert TargetRoles[4].id == role; }
      else { assert TargetRoles[5].id == role; }
    }
  }

  /** The whole bank, role by role in alphabetical order of the role ids. */
  function AllQuestions(): (qs: seq<InterviewQuestion>)
    ensures forall role, k :: role in SampleQuestions && 0 <= k < |SampleQuestions[role]| ==>
      SampleQuestions[role][k] in qs
  {
    [DataAnalystQuestions[0], DataAnalystQuestions[1], DataScientistQuestions[0],
     MarketingManagerQuestions[0], ProductManagerQuestions[0], ProductManagerQuestions[1],
     SoftwareEngineerQuestions[0], SoftwareEngineerQuestions[1], SoftwareEngineerQuestions[2],
     UxDesignerQuestions[0]]
  }

  /** A number that orders the bank's ids by their first, second and fourth characters. */
  function IdKey(id: string): int {
    if |id| < 4 then 0 else (id[0] as int) * 0x1_0000_0000 + (id[1] as int) * 0x1_0000 + id[3] as int
  }

  /** Keys that grow from each question to the next grow from any question to any later one. */
  lemma {:induction false} IncreasingKeys(qs: seq<InterviewQuestion>)
    requires forall k :: 0 <= k < |qs| - 1 ==> IdKey(qs[k].id) < IdKey(qs[k + 1].id)
    ensures forall i, j :: 0 <= i < j < |qs| ==> IdKey(qs[i].id) < IdKey(qs[j].id)
  {
    if |qs| > 1 {
      var init := qs[..|qs| - 1];
      assert forall k :: 0 <= k < |init| ==> init[k] == qs[k];
      IncreasingKeys(init);
      forall i, j | 0 <= i < j < |qs| ensures IdKey(qs[i].id) < IdKey(qs[j].id) {
        if j < |qs| - 1 {
          assert qs[i] == init[i] && qs[j] == init[j];
        } else if i < |qs| - 2 {
          assert qs[i] == init[i] && qs[|qs| - 2] == init[|qs| - 2];
        }
      }
    }
  }

  /** Question ids are unique across the whole bank and every expected duration is positive. */
  lemma QuestionBankWellFormed()
    ensures forall i, j :: 0 <= i < j < |AllQuestions()| ==> AllQuestions()[i].id != AllQuestions()[j].id
    ensures forall i :: 0 <= i < |AllQuestions()| ==> AllQuestions()[i].expectedDuration > 0
  {
    var qs := AllQuestions();
    IncreasingKeys(qs);
  }

  /** Two different places of the bank (another role, or another position) hold different ids. */
  lemma BankIdsUnique()
    ensures forall r1, r2, k1, k2 ::
      && r1 in SampleQuestions && r2 in SampleQuestions
      && 0 <= k1 < |SampleQuestions[r1]| && 0 <= k2 < |SampleQuestions[r2]|
      && (r1 != r2 || k1 != k2)
      ==> SampleQuestions[r1][k1].id != SampleQuestions[r2][k2].id
  {
    QuestionBankWellFormed();
  }

  // ---------------------------------------------------------------------------
  // Readiness thresholds
  // ---------------------------------------------------------------------------

  /** An inclusive range of total scores. */
  datatype Range = Range(min: int, max: int)

  predicate InRange(r: Range, total: int) {
    r.min <= total <= r.max
  }

  /** The threshold table: the inclusive score range of each tier. */
  function Threshold(level: ReadinessLevel): (r: Range)
    ensures 0 <= r.min <= r.max <= 100
  {
    match level
    case Beginner => Range(0, 39)
    case Practicing => Range(40, 64)
    case Ready => Range(65, 84)
    case Expert => Range(85, 100)
  }

  /** The tiers in the order of the table. */
  const Levels: seq<ReadinessLevel> := [Beginner, Practicing, Ready, Expert]

  /**
   * The ranges are contiguous: the first starts at 0, the last ends at 100, and each range
   * starts one above the end of the previous one.
   */
  lemma ThresholdsContiguous()
    ensures Threshold(Levels[0]).min == 0 && Threshold(Levels[|Levels| - 1]).max == 100
    ensures forall i :: 0 <= i < |Levels| - 1 ==> Threshold(Levels[i + 1]).min == Threshold(Levels[i]).max + 1
    ensures forall i :: 0 <= i < |Levels| ==> Threshold(Levels[i]).min <= Threshold(Levels[i]).max
  {
  }

  /** The table lists every tier. */
  lemma LevelsComplete()
    ensures forall l: ReadinessLevel :: l in Levels
  {
    forall l: ReadinessLevel ensures l in Levels {
      match l
      case Beginner => assert Levels[0] == l;
      case Practicing => assert Levels[1] == l;
      case Ready => assert Levels[2] == l;
      case Expert => assert Levels[3] == l;
    }
  }

  /** The first tier in `levels` whose range holds `total`. */
  function FindTier(levels: seq<ReadinessLevel>, total: int): (r: Option<ReadinessLevel>)
    ensures r.Some? ==> r.value in levels && InRange(Threshold(r.value), total)
    ensures r.None? ==> forall l :: l in levels ==> !InRange(Threshold(l), total)
  {
    if levels == [] then None
    else if InRange(Threshold(levels[0]), total) then Some(levels[0])
    else FindTier(levels[1..], total)
  }

  /**
   * The tier the threshold table assigns to a total: one exists exactly for the totals 0..100,
   * and it is the only tier whose range holds the total (the ranges are disjoint).
   */
  function TierByTable(total: int): (r: Option<ReadinessLevel>)
    ensures r.Some? <==> 0 <= total <= 100
    ensures forall l :: InRange(Threshold(l), total) <==> r == Some(l)
  {
    LevelsComplete();
    assert 0 <= total <= 100 ==>
      InRange(Threshold(Beginner), total) || InRange(Threshold(Practicing), total)
      || InRange(Threshold(Ready), total) || InRange(Threshold(Expert), total);
    FindTier(Levels, total)
  }
}
