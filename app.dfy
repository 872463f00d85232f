/** The workflow of App.tsx: the state cells `appState`, `requirements`, `result` and
    `errorMsg`, and the handlers that move them. `handleGenerate` awaits the three stages
    strictly one after another, so it is straight-line code here; the stages and
    `Date.now()` are its parameters, and `GeminiStages` gives the stages of the service layer. */
module App {
  import opened Wrappers
  import opened Types
  import opened Constants
  import Gemini
  import PlanForm

  /** The label the loading screen shows. */
  datatype LoadingStage = Analyzing | Rendering | Auditing

  /** `getLoadingStage`: analysis and image generation have their own labels, every other
      state shows the audit label. */
  function LoadingStageOf(s: AppState): (r: LoadingStage)
    ensures r == Analyzing <==> s == GeneratingAnalysis
    ensures r == Rendering <==> s == GeneratingImage
    ensures r == Auditing <==> s != GeneratingAnalysis && s != GeneratingImage
  {
    if s == GeneratingAnalysis then Analyzing
    else if s == GeneratingImage then Rendering
    else Auditing
  }

  const UnexpectedErrorMessage: string := "An unexpected error occurred while generating the plan."

  /** `err.message || "An unexpected error occurred…"`: never empty, and the error's own
      message whenever it has one. */
  function ErrorText(message: string): (r: string)
    ensures r != ""
    ensures message != "" ==> r == message
    ensures message == "" ==> r == UnexpectedErrorMessage
  {
    if message != "" then message else UnexpectedErrorMessage
  }

  /** A stage invocation, with what it is given. */
  datatype ServiceCall =
    | AnalysisCall(req: UserRequirements)
    | ImageCall(visualPrompt: string)
    | VisionCall(imageUrl: string, req: UserRequirements)

  /** The three awaited stages. The compliance stage returns a list and never throws. */
  datatype Stages = Stages(
    analysis: UserRequirements -> Result<PlanAnalysis>,
    image: string -> Result<string>,
    compliance: (string, UserRequirements) -> seq<BylawCheck>)

  /** The stages as services/gemini.ts implements them over a backend. */
  function GeminiStages(backend: Gemini.Backend): Stages {
    Stages(
      req => Gemini.GeneratePlanAnalysis(req, backend),
      visualPrompt => Gemini.ImageStage(visualPrompt, backend),
      (imageUrl, req) => Gemini.ValidatePlanWithVision(imageUrl, req, backend))
  }

  /** The effect of one run: the state it ends in, the two cells it leaves, every state it
      enters in order, and the stages it invokes in order. */
  datatype RunOutcome = RunOutcome(
    finalState: AppState,
    result: Option<GeneratedPlan>,
    errorMsg: Option<string>,
    states: seq<AppState>,
    calls: seq<ServiceCall>)

  /** One run of `handleGenerate` started from the input screen with `req`. A failure of the
      analysis or image stage ends the run in Error with no later stage invoked; the audit
      stage cannot fail, so a run whose first two stages succeed ends in Result. */
  function Run(req: UserRequirements, stages: Stages, now: int): (o: RunOutcome)
    ensures o.finalState == Result || o.finalState == Error
    ensures o.finalState == Result <==>
              stages.analysis(req).Ok? && stages.image(stages.analysis(req).value.visualPrompt).Ok?
    ensures o.result.Some? <==> o.finalState == Result
    ensures o.errorMsg.Some? <==> o.finalState == Error
    ensures o.errorMsg.Some? ==> o.errorMsg.value != ""
    ensures 2 <= |o.states| && o.states[0] == GeneratingAnalysis && o.states[|o.states| - 1] == o.finalState
    ensures 1 <= |o.calls| && o.calls[0] == AnalysisCall(req)
  {
    var analysis := stages.analysis(req);
    if analysis.Err? then
      RunOutcome(Error, None, Some(ErrorText(analysis.message)),
                 [GeneratingAnalysis, Error], [AnalysisCall(req)])
    else
      var visualPrompt := analysis.value.visualPrompt;
      var image := stages.image(visualPrompt);
      if image.Err? then
        RunOutcome(Error, None, Some(ErrorText(image.message)),
                   [GeneratingAnalysis, GeneratingImage, Error],
                   [AnalysisCall(req), ImageCall(visualPrompt)])
      else
        var report := stages.compliance(image.value, req);
        var plan := GeneratedPlan(image.value, analysis.value.(bylawCompliance := report), now);
        RunOutcome(Result, Some(plan), None,
                   [GeneratingAnalysis, GeneratingImage, AnalyzingCompliance, Result],
                   [AnalysisCall(req), ImageCall(visualPrompt), VisionCall(image.value, req)])
  }

  /** A successful run enters the three loading states and then Result, in that order,
      invokes the three stages in order, and keeps the image URL, the analysis with only its
      compliance list replaced by the audit's report, and the given timestamp. */
  lemma SuccessfulRun(req: UserRequirements, stages: Stages, now: int)
    requires stages.analysis(req).Ok?
    requires stages.image(stages.analysis(req).value.visualPrompt).Ok?
    ensures var a := stages.analysis(req).value;
            var url := stages.image(a.visualPrompt).value;
            var o := Run(req, stages, now);
            && o.states == [GeneratingAnalysis, GeneratingImage, AnalyzingCompliance, Result]
            && o.calls == [AnalysisCall(req), ImageCall(a.visualPrompt), VisionCall(url, req)]
            && o.errorMsg == None
            && o.result.value.imageUrl == url
            && o.result.value.timestamp == now
            && o.result.value.analysis.bylawCompliance == stages.compliance(url, req)
            && o.result.value.analysis.visualPrompt == a.visualPrompt
            && o.result.value.analysis.distributionLogic == a.distributionLogic
            && o.result.value.analysis.roomDimensions == a.roomDimensions
            && o.result.value.analysis.totalUtilizedArea == a.totalUtilizedArea
            && o.result.value.analysis.efficiencyScore == a.efficiencyScore
  {
  }

  /** A failed analysis invokes nothing else and ends in Error with its message (or the
      generic one). */
  lemma AnalysisFailureStopsRun(req: UserRequirements, stages: Stages, now: int)
    requires stages.analysis(req).Err?
    ensures var o := Run(req, stages, now);
            && o.states == [GeneratingAnalysis, Error]
            && o.calls == [AnalysisCall(req)]
            && o.result == None
            && o.errorMsg == Some(ErrorText(stages.analysis(req).message))
  {
  }

  /** A failed image generation never reaches the audit and ends in Error with its message
      (or the generic one). */
  lemma ImageFailureStopsRun(req: UserRequirements, stages: Stages, now: int)
    requires stages.analysis(req).Ok?
    requires stages.image(stages.analysis(req).value.visualPrompt).Err?
    ensures var a := stages.analysis(req).value;
            var o := Run(req, stages, now);
            && o.states == [GeneratingAnalysis, GeneratingImage, Error]
            && o.calls == [AnalysisCall(req), ImageCall(a.visualPrompt)]
            && o.result == None
            && o.errorMsg == Some(ErrorText(stages.image(a.visualPrompt).message))
  {
  }

  /** Over the service layer: a run ends in Result exactly when the analysis and the image
      stage succeed, the image stage is asked for the analysis' visual description, and the
      plan carries the audit of the image it shows. */
  lemma GeminiRun(req: UserRequirements, backend: Gemini.Backend, now: int)
    ensures var o := Run(req, GeminiStages(backend), now);
            var a := Gemini.GeneratePlanAnalysis(req, backend);
            && (o.finalState == Result <==>
                  a.Ok? && Gemini.ImageStage(a.value.visualPrompt, backend).Ok?)
            && (o.finalState == Result ==>
                  var url := Gemini.ImageStage(a.value.visualPrompt, backend).value;
                  && o.result.value.imageUrl == url
                  && o.result.value.analysis == a.value.(bylawCompliance := Gemini.ValidatePlanWithVision(url, req, backend)))
  {
  }

  /** While a successful run is in progress the loading screen reads analysing, rendering,
      auditing, in that order. */
  lemma LoadingLabelsOfSuccessfulRun(req: UserRequirements, stages: Stages, now: int)
    requires Run(req, stages, now).finalState == Result
    ensures var s := Run(req, stages, now).states;
            [LoadingStageOf(s[0]), LoadingStageOf(s[1]), LoadingStageOf(s[2])] == [Analyzing, Rendering, Auditing]
  {
    SuccessfulRun(req, stages, now);
  }

  /** The form's starting record has its bedroom count in range. */
  lemma DefaultRequirementsInRange()
    ensures PlanForm.RoomsInRange(DefaultRequirements)
  {
  }

  /** The App component's state cells. `history` records every state entered and `calls`
      every stage invoked; both exist only for the specification. */
  class Controller {
    var appState: AppState
    var requirements: UserRequirements
    var result: Option<GeneratedPlan>
    var errorMsg: Option<string>
    ghost var history: seq<AppState>
    ghost var calls: seq<ServiceCall>

    /** A plan is held exactly on the result screen, a (non-empty) message exactly on the
        error screen, and the bedroom count stays in range. */
    ghost predicate Valid()
      reads this
    {
      && (result.Some? <==> appState == Result)
      && (errorMsg.Some? <==> appState == Error)
      && (errorMsg.Some? ==> errorMsg.value != "")
      && PlanForm.RoomsInRange(requirements)
    }

    /** The initial `useState` values. */
    constructor ()
      ensures Valid()
      ensures appState == Input && requirements == DefaultRequirements
      ensures result == None && errorMsg == None
      ensures history == [] && calls == []
    {
      appState := Input;
      requirements := DefaultRequirements;
      result := None;
      errorMsg := None;
      history := [];
      calls := [];
    }

    /** `onChange={setRequirements}` driven by one form event; the form is shown only on the
        input screen. */
    method Edit(e: PlanForm.FormEvent)
      requires Valid() && appState == Input
      modifies this
      ensures Valid()
      ensures requirements == PlanForm.ApplyEvent(old(requirements), e)
      ensures appState == old(appState) && result == old(result) && errorMsg == old(errorMsg)
      ensures history == old(history) && calls == old(calls)
    {
      PlanForm.EventKeepsRoomsInRange(requirements, e);
      requirements := PlanForm.ApplyEvent(requirements, e);
    }

    /** `setAppState(s)`. */
    method Enter(s: AppState)
      modifies this
      ensures appState == s && history == old(history) + [s]
      ensures requirements == old(requirements) && result == old(result)
      ensures errorMsg == old(errorMsg) && calls == old(calls)
    {
      appState := s;
      history := history + [s];
    }

    /** The `catch` branch of `handleGenerate`: record the message, then show the error screen. */
    method Fail(message: string)
      modifies this
      ensures appState == Error && errorMsg == Some(ErrorText(message))
      ensures history == old(history) + [Error]
      ensures requirements == old(requirements) && result == old(result) && calls == old(calls)
    {
      errorMsg := Some(ErrorText(message));
      Enter(Error);
    }

    /** `handleGenerate`, submitted from the input screen (the only screen showing the form). */
    method HandleGenerate(stages: Stages, now: int)
      requires Valid() && appState == Input
      modifies this
      ensures Valid()
      ensures var o := Run(old(requirements), stages, now);
              && appState == o.finalState && result == o.result && errorMsg == o.errorMsg
              && history == old(history) + o.states && calls == old(calls) + o.calls
      ensures requirements == old(requirements)
    {
      Enter(GeneratingAnalysis);
      errorMsg := None;

      calls := calls + [AnalysisCall(requirements)];
      var analysis := stages.analysis(requirements);
      if analysis.Err? {
        AnalysisFailureStopsRun(requirements, stages, now);
        Fail(analysis.message);
        return;
      }

      Enter(GeneratingImage);
      calls := calls + [ImageCall(analysis.value.visualPrompt)];
      var imageUrl := stages.image(analysis.value.visualPrompt);
      if imageUrl.Err? {
        ImageFailureStopsRun(requirements, stages, now);
        Fail(imageUrl.message);
        return;
      }

      Enter(AnalyzingCompliance);
      calls := calls + [VisionCall(imageUrl.value, requirements)];
      var complianceReport := stages.compliance(imageUrl.value, requirements);

      SuccessfulRun(requirements, stages, now);
      var finalAnalysis := analysis.value.(bylawCompliance := complianceReport);
      result := Some(GeneratedPlan(imageUrl.value, finalAnalysis, now));
      Enter(Result);
    }

    /** `handleReset`: back to the input screen with no plan and no message. */
    method HandleReset()
      requires Valid()
      modifies this
      ensures Valid()
      ensures appState == Input && result == None && errorMsg == None
      ensures requirements == old(requirements)
      ensures history == old(history) + [Input] && calls == old(calls)
    {
      appState := Input;
      history := history + [appState];
      result := None;
      errorMsg := None;
    }
  }
}
