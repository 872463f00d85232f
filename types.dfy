/** The records and the workflow enumeration of types.ts. */
module Types {

  /** The six screens of the workflow; exactly one is active at a time. */
  datatype AppState =
    | Input
    | GeneratingAnalysis
    | GeneratingImage
    | AnalyzingCompliance
    | Result
    | Error

  /** What the user asks for. Both numbers come from integer inputs in the form. */
  datatype UserRequirements = UserRequirements(
    rooms: int,
    hasHall: bool,
    hasKitchen: bool,
    hasBalcony: bool,
    totalArea: int,       // square feet
    country: string,
    additionalNotes: string)

  /** One room as the analysis model describes it; all display strings, passed through. */
  datatype RoomDimension = RoomDimension(
    name: string,
    width: string,
    length: string,
    area: string,
    notes: string)

  datatype BylawStatus = Compliant | Warning | NonCompliant

  datatype BylawCheck = BylawCheck(rule: string, status: BylawStatus, details: string)

  /** The analysis record. Numbers the service returns may be fractional, hence `real`. */
  datatype PlanAnalysis = PlanAnalysis(
    visualPrompt: string,
    distributionLogic: string,
    roomDimensions: seq<RoomDimension>,
    bylawCompliance: seq<BylawCheck>,
    totalUtilizedArea: real,
    efficiencyScore: real)

  /** The aggregate shown on the result screen. */
  datatype GeneratedPlan = GeneratedPlan(
    imageUrl: string,
    analysis: PlanAnalysis,
    timestamp: int)
}
