/**
 * The value types of an assessment, as declared in src/types/assessment.ts.
 * Numbers that are integers in every use are `int` or `nat` here.
 */
module AssessmentTypes {

  /** The four readiness tiers, from lowest to highest. */
  datatype ReadinessLevel = Beginner | Practicing | Ready | Expert

  /** The four scored dimensions of one answer. */
  datatype DimensionScores = DimensionScores(clarity: int, confidence: int, content: int, structure: int)

  /** A component of the STAR answer structure (situation, task, action, result). */
  datatype StarComponent = Situation | Task | Action | Result

  datatype StructureCompliance = StructureCompliance(starMethodUsed: bool, missingComponents: seq<StarComponent>)

  datatype Category = Behavioral | Technical | Situational

  datatype Difficulty = Easy | Medium | Hard

  /** An interview question of the per-role question bank; `expectedDuration` is in seconds. */
  datatype InterviewQuestion = InterviewQuestion(
    id: string, question: string, category: Category, difficulty: Difficulty, expectedDuration: int)

  /** A target role as listed on the landing page. */
  datatype RoleInfo = RoleInfo(id: string, title: string, description: string, icon: string, color: string)

  /**
   * The scored part of an assessment result: the dimensions, their total, the tier and the
   * structure verdict. The speech figures and the narrative texts are fixed literals in the
   * source and are not part of this model.
   */
  datatype AssessmentResult = AssessmentResult(
    scores: DimensionScores, totalScore: int, readinessLevel: ReadinessLevel,
    structureCompliance: StructureCompliance)
}
