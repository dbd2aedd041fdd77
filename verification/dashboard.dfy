/** The pure logic of the dashboard view (ci-cd-dashboard/src/Dashboard.js):
    the repository input, one poll of the gateway, the run status badge,
    the statistics cards and the build-trend chart series. */
module Dashboard {
  import opened Common
  import opened Text
  import opened Seqs
  import opened Client
  import Server

  type RunSummary = Server.RunSummary
  type Workflow = Server.Workflow

  /** The repository being polled. */
  datatype RepoRef = RepoRef(owner: string, repo: string)

  /** The view's state; `lastUpdated` is the clock reading of the last
      complete poll, in milliseconds. */
  datatype DashboardState = DashboardState(
    buildStatus: seq<RunSummary>, workflows: seq<Workflow>,
    loading: bool, error: Option<string>,
    repo: RepoRef, repoInput: string, refreshInterval: nat,
    lastUpdated: Option<nat>)

  const DefaultRepo := RepoRef("octocat", "Hello-World")

  /** The state the view mounts with. */
  const Initial := DashboardState([], [], true, None, DefaultRepo, "octocat/Hello-World", 30, None)

  // ---------------------------------------------------------------------
  // Repository input

  /** `isValidRepo`: splitting on `/` gives exactly two segments and
      neither is blank; equivalently, the input has a single `/` with
      non-blank text on both sides. */
  function IsValidRepo(input: string): (valid: bool)
    ensures valid <==> exists k :: ValidSplitAt(input, k)
  {
    TwoSegmentsIffOneSlash(input);
    var parts := Split(input, '/');
    |parts| == 2 && !Blank(parts[0]) && !Blank(parts[1])
  }

  /** `input[k]` is the only `/` of `input` and the text on each side of it
      is not blank. */
  predicate ValidSplitAt(input: string, k: int)
  {
    && 0 <= k < |input| && input[k] == '/'
    && Free(input[..k], '/') && Free(input[k + 1..], '/')
    && !Blank(input[..k]) && !Blank(input[k + 1..])
  }

  /** Two non-blank segments after splitting on `/` means one `/` with
      non-blank text on both sides, and back. */
  lemma TwoSegmentsIffOneSlash(input: string)
    ensures (|Split(input, '/')| == 2 && !Blank(Split(input, '/')[0]) && !Blank(Split(input, '/')[1]))
        <==> exists k :: ValidSplitAt(input, k)
  {
    var parts := Split(input, '/');
    if |parts| == 2 && !Blank(parts[0]) && !Blank(parts[1]) {
      SplitJoin(input, '/');
      var k := |parts[0]|;
      assert Join(parts[1..], '/') == parts[1];
      assert input == parts[0] + ['/'] + parts[1];
      assert input[..k] == parts[0] && input[k + 1..] == parts[1];
      assert ValidSplitAt(input, k);
    }
    if k :| ValidSplitAt(input, k) {
      SplitAtSlash(input, k);
    }
  }

  /** An input is valid exactly when it has one `/` with non-blank text on
      both sides, and such a `/` is the split point the handler uses. */
  lemma IsValidRepoIffOneSlash(input: string)
    ensures IsValidRepo(input) <==> exists k :: ValidSplitAt(input, k)
    ensures forall k :: ValidSplitAt(input, k) ==> Split(input, '/') == [input[..k], input[k + 1..]]
  {
    forall k | ValidSplitAt(input, k)
      ensures Split(input, '/') == [input[..k], input[k + 1..]]
    {
      SplitAtSlash(input, k);
    }
  }

  /** Splitting at the only `/` gives the text on either side of it. */
  lemma SplitAtSlash(input: string, k: int)
    requires 0 <= k < |input| && input[k] == '/'
    requires Free(input[..k], '/') && Free(input[k + 1..], '/')
    ensures Split(input, '/') == [input[..k], input[k + 1..]]
  {
    var parts := [input[..k], input[k + 1..]];
    assert Join(parts[1..], '/') == input[k + 1..];
    assert input == Join(parts, '/');
    JoinSplit(parts, '/');
  }

  /** The Load button's `disabled` attribute: set exactly when the input
      has no single `/` with non-blank text on both sides. */
  function LoadDisabled(input: string): (disabled: bool)
    ensures disabled <==> !exists k :: ValidSplitAt(input, k)
  {
    !IsValidRepo(input)
  }

  /** A repository reference as a valid input produces it: both names
      non-empty, free of `/` and without surrounding whitespace. */
  predicate WellFormed(r: RepoRef)
  {
    && r.owner != [] && r.repo != []
    && Free(r.owner, '/') && Free(r.repo, '/')
    && Trimmed(r.owner) && Trimmed(r.repo)
  }

  /** `handleRepoChange` (Enter, blur or Load): a valid input replaces the
      active repository with the trimmed text on either side of its `/`; an
      invalid one changes nothing. Nothing but `repo` ever changes. */
  function HandleRepoChange(s: DashboardState): (t: DashboardState)
    ensures !IsValidRepo(s.repoInput) ==> t == s
    ensures IsValidRepo(s.repoInput) ==>
      && t == s.(repo := t.repo)
      && WellFormed(t.repo)
      && exists k :: ValidSplitAt(s.repoInput, k)
           && t.repo == RepoRef(Trim(s.repoInput[..k]), Trim(s.repoInput[k + 1..]))
  {
    if IsValidRepo(s.repoInput) then
      var parts := Split(s.repoInput, '/');
      var r := RepoRef(Trim(parts[0]), Trim(parts[1]));
      IsValidRepoIffOneSlash(s.repoInput);
      var k :| ValidSplitAt(s.repoInput, k);
      SplitAtSlash(s.repoInput, k);
      TrimSpec(parts[0]);
      TrimSpec(parts[1]);
      TrimKeepsAbsent(parts[0], '/');
      TrimKeepsAbsent(parts[1], '/');
      s.(repo := r)
    else
      s
  }

  /** The text `owner/repo` of a repository, as the gateway also reports it. */
  function RepoText(r: RepoRef): string
  {
    Server.RepositoryName(r.owner, r.repo)
  }

  /** Typing back the text of a well-formed repository is a valid input
      that selects exactly that repository. */
  lemma RepoTextRoundTrip(s: DashboardState, r: RepoRef)
    requires WellFormed(r)
    ensures IsValidRepo(RepoText(r))
    ensures HandleRepoChange(s.(repoInput := RepoText(r))).repo == r
  {
    var text := RepoText(r);
    var k := |r.owner|;
    SplitAtSlash(text, k);
    BlankIffAllWhitespace(r.owner);
    BlankIffAllWhitespace(r.repo);
    TrimOfTrimmed(r.owner);
    TrimOfTrimmed(r.repo);
  }

  lemma DefaultRepoWellFormed()
    ensures WellFormed(DefaultRepo)
  {
    var r := DefaultRepo;
    assert r.owner[0] == 'o' && r.owner[|r.owner| - 1] == 't';
    assert r.repo[0] == 'H' && r.repo[|r.repo| - 1] == 'd';
  }

  /** The view mounts with an input that denotes its active repository. */
  lemma InitialInputMatchesRepo()
    ensures WellFormed(Initial.repo)
    ensures Initial.repoInput == RepoText(Initial.repo)
    ensures IsValidRepo(Initial.repoInput) && !LoadDisabled(Initial.repoInput)
    ensures HandleRepoChange(Initial) == Initial
  {
    DefaultRepoWellFormed();
    var r := Initial.repo;
    assert Initial.repoInput == RepoText(r);
    RepoTextRoundTrip(Initial, r);
    assert Initial.(repoInput := RepoText(r)) == Initial;
  }

  /** While the Load button is disabled, pressing Enter or leaving the field
      changes nothing. */
  lemma LoadDisabledMeansNoRepoChange(s: DashboardState)
    ensures LoadDisabled(s.repoInput) ==> HandleRepoChange(s) == s
  {
    IsValidRepoIffOneSlash(s.repoInput);
  }

  // ---------------------------------------------------------------------
  // Poll cycle

  /** A request the view sends to the gateway. */
  datatype GatewayCall = StatusRequest(owner: string, repo: string) | WorkflowsRequest(owner: string, repo: string)

  /** One run of `fetchData`: the state once it has started, the gateway
      requests it sent in order, and the state it leaves behind. */
  datatype PollTrace = PollTrace(started: DashboardState, calls: seq<GatewayCall>, finished: DashboardState)

  const FetchFailed := "Failed to fetch data"

  /** `fetchData`: the runs are fetched first and stored at once; the
      workflows are fetched only after that, and only a complete poll
      records the time. The first failure ends the poll with its text. */
  function FetchData(s: DashboardState, runsReply: Result<Server.RunsBody, ClientFailure>,
                     workflowsReply: Result<Server.WorkflowsBody, ClientFailure>, now: nat): (t: PollTrace)
    ensures t.started == s.(loading := true, error := None)
    ensures |t.calls| == (if runsReply.Success? then 2 else 1)
    ensures t.calls[0] == StatusRequest(s.repo.owner, s.repo.repo)
    ensures runsReply.Success? ==> t.calls[1] == WorkflowsRequest(s.repo.owner, s.repo.repo)
    ensures !t.finished.loading
    ensures t.finished.repo == s.repo && t.finished.repoInput == s.repoInput
    ensures t.finished.refreshInterval == s.refreshInterval
    ensures runsReply.Failure? ==>
      && t.finished.buildStatus == s.buildStatus && t.finished.workflows == s.workflows
      && t.finished.lastUpdated == s.lastUpdated
      && t.finished.error == Some(ErrorText(runsReply.error, FetchFailed))
    ensures runsReply.Success? && workflowsReply.Failure? ==>
      && t.finished.buildStatus == runsReply.value.runs && t.finished.workflows == s.workflows
      && t.finished.lastUpdated == s.lastUpdated
      && t.finished.error == Some(ErrorText(workflowsReply.error, FetchFailed))
    ensures runsReply.Success? && workflowsReply.Success? ==>
      && t.finished.buildStatus == runsReply.value.runs && t.finished.workflows == workflowsReply.value.workflows
      && t.finished.lastUpdated == Some(now) && t.finished.error == None
  {
    var started := s.(loading := true, error := None);
    var runsCall := StatusRequest(s.repo.owner, s.repo.repo);
    match runsReply
    case Failure(f) =>
      PollTrace(started, [runsCall], started.(error := Some(ErrorText(f, FetchFailed)), loading := false))
    case Success(body) =>
      var withRuns := started.(buildStatus := body.runs);
      var calls := [runsCall, WorkflowsRequest(s.repo.owner, s.repo.repo)];
      match workflowsReply
      case Failure(f) =>
        PollTrace(started, calls, withRuns.(error := Some(ErrorText(f, FetchFailed)), loading := false))
      case Success(body) =>
        PollTrace(started, calls, withRuns.(workflows := body.workflows, lastUpdated := Some(now), loading := false))
  }

  /** A poll ends without an error exactly when both fetches succeed, and an
      error it shows is never empty. When the runs fetch fails, the
      workflows reply plays no part. */
  lemma PollErrorIffFailure(s: DashboardState, runsReply: Result<Server.RunsBody, ClientFailure>,
                            workflowsReply: Result<Server.WorkflowsBody, ClientFailure>,
                            otherReply: Result<Server.WorkflowsBody, ClientFailure>, now: nat)
    ensures FetchData(s, runsReply, workflowsReply, now).finished.error.None?
        <==> runsReply.Success? && workflowsReply.Success?
    ensures FetchData(s, runsReply, workflowsReply, now).finished.error != Some("")
    ensures runsReply.Failure? ==>
      FetchData(s, runsReply, workflowsReply, now) == FetchData(s, runsReply, otherReply, now)
  {
  }

  /** The active repository is well-formed from mount on: a repository
      change and a poll both keep it so. */
  lemma RepoStaysWellFormed(s: DashboardState, runsReply: Result<Server.RunsBody, ClientFailure>,
                            workflowsReply: Result<Server.WorkflowsBody, ClientFailure>, now: nat)
    requires WellFormed(s.repo)
    ensures WellFormed(Initial.repo)
    ensures WellFormed(HandleRepoChange(s).repo)
    ensures WellFormed(FetchData(s, runsReply, workflowsReply, now).finished.repo)
  {
    InitialInputMatchesRepo();
  }

  /** Every request a poll sends for a repository with non-empty names
      (which a well-formed one has) passes the
      gateway's parameter check, so the gateway makes its upstream call
      and never answers with the missing-parameters error. */
  lemma PollPassesParameterCheck(config: Server.Config, s: DashboardState,
                                 reply: Result<Server.RunsPage, Server.UpstreamFailure>)
    requires s.repo.owner != [] && s.repo.repo != []
    ensures Server.HasRepoParameters(Some(s.repo.owner), Some(s.repo.repo))
    ensures Server.GetWorkflowRuns(config, Some(s.repo.owner), Some(s.repo.repo), reply).call.Some?
    ensures Server.GetWorkflowRuns(config, Some(s.repo.owner), Some(s.repo.repo), reply).response
      != Common.Failure(Server.MissingParametersResponse)
  {
    var x := Server.GetWorkflowRuns(config, Some(s.repo.owner), Some(s.repo.repo), reply);
    assert Server.HasRepoParameters(Some(s.repo.owner), Some(s.repo.repo));
    if x.response.Failure? {
      assert x.response.error.status != 400;
    }
  }

  /** A failure the runs endpoint reports is shown by the dashboard with
      the gateway's own `error` text. */
  lemma RunsErrorShown(config: Server.Config, s: DashboardState,
                       reply: Result<Server.RunsPage, Server.UpstreamFailure>,
                       workflowsReply: Result<Server.WorkflowsBody, ClientFailure>, now: nat)
    requires Server.GetWorkflowRuns(config, Some(s.repo.owner), Some(s.repo.repo), reply).response.Failure?
    ensures var e := Server.GetWorkflowRuns(config, Some(s.repo.owner), Some(s.repo.repo), reply).response.error;
      FetchData(s, Received(Server.GetWorkflowRuns(config, Some(s.repo.owner), Some(s.repo.repo), reply).response),
                workflowsReply, now).finished.error == Some(e.error)
  {
  }

  // ---------------------------------------------------------------------
  // Run status badge

  /** The classification both badge helpers share. */
  datatype Tone = Succeeded | Failed | Cancelled | Running | Queued | Unknown

  /** A run's tone: the conclusion decides it for a completed run, the
      status otherwise. */
  function ToneOf(status: string, conclusion: Option<string>): Tone
  {
    if status == "completed" then
      if conclusion == Some("success") then Succeeded
      else if conclusion == Some("failure") then Failed
      else if conclusion == Some("cancelled") then Cancelled
      else Unknown
    else if status == "in_progress" then Running
    else if status == "queued" then Queued
    else Unknown
  }

  const IconSuccess := "\U{2705}"
  const IconFailure := "\U{274C}"
  const IconCancelled := "\U{26A0}\U{FE0F}"
  const IconRunning := "\U{1F504}"
  const IconQueued := "\U{23F3}"
  const IconUnknown := "\U{2753}"

  const ColorSuccess := "bg-green-100 text-green-800 border-green-200"
  const ColorFailure := "bg-red-100 text-red-800 border-red-200"
  const ColorCancelled := "bg-yellow-100 text-yellow-800 border-yellow-200"
  const ColorRunning := "bg-blue-100 text-blue-800 border-blue-200"
  const ColorQueued := "bg-purple-100 text-purple-800 border-purple-200"
  const ColorUnknown := "bg-gray-100 text-gray-800 border-gray-200"

  function IconOf(t: Tone): string
  {
    match t
    case Succeeded => IconSuccess
    case Failed => IconFailure
    case Cancelled => IconCancelled
    case Running => IconRunning
    case Queued => IconQueued
    case Unknown => IconUnknown
  }

  function ColorOf(t: Tone): string
  {
    match t
    case Succeeded => ColorSuccess
    case Failed => ColorFailure
    case Cancelled => ColorCancelled
    case Running => ColorRunning
    case Queued => ColorQueued
    case Unknown => ColorUnknown
  }

  /** `getStatusIcon`. */
  function StatusIcon(status: string, conclusion: Option<string>): (icon: string)
    ensures icon == IconOf(ToneOf(status, conclusion))
  {
    if status == "completed" then
      match conclusion
      case Some("success") => IconSuccess
      case Some("failure") => IconFailure
      case Some("cancelled") => IconCancelled
      case _ => IconUnknown
    else if status == "in_progress" then IconRunning
    else if status == "queued" then IconQueued
    else IconUnknown
  }

  /** `getStatusColor`. */
  function StatusColor(status: string, conclusion: Option<string>): (color: string)
    ensures color == ColorOf(ToneOf(status, conclusion))
  {
    if status == "completed" then
      match conclusion
      case Some("success") => ColorSuccess
      case Some("failure") => ColorFailure
      case Some("cancelled") => ColorCancelled
      case _ => ColorUnknown
    else if status == "in_progress" then ColorRunning
    else if status == "queued" then ColorQueued
    else ColorUnknown
  }

  /** Distinct tones have distinct icons. */
  lemma IconOfInjective(t1: Tone, t2: Tone)
    ensures IconOf(t1) == IconOf(t2) <==> t1 == t2
  {
    if IconOf(t1) == IconOf(t2) {
      assert IconOf(t1)[0] == IconOf(t2)[0];
    }
  }

  /** Distinct tones have distinct colour classes. */
  lemma ColorOfInjective(t1: Tone, t2: Tone)
    ensures ColorOf(t1) == ColorOf(t2) <==> t1 == t2
  {
    if ColorOf(t1) == ColorOf(t2) {
      assert ColorOf(t1)[3] == ColorOf(t2)[3] && ColorOf(t1)[5] == ColorOf(t2)[5];
    }
  }

  /** The two badge helpers classify runs identically: two runs get the
      same icon exactly when they get the same colour, the question-mark
      icon goes with the gray class, and the conclusion matters only for a
      completed run. */
  lemma IconAndColorAgree(s1: string, c1: Option<string>, s2: string, c2: Option<string>)
    ensures StatusIcon(s1, c1) == StatusIcon(s2, c2) <==> StatusColor(s1, c1) == StatusColor(s2, c2)
    ensures StatusIcon(s1, c1) == IconUnknown <==> StatusColor(s1, c1) == ColorUnknown
    ensures s1 != "completed" ==>
      StatusIcon(s1, c1) == StatusIcon(s1, c2) && StatusColor(s1, c1) == StatusColor(s1, c2)
  {
    IconOfInjective(ToneOf(s1, c1), ToneOf(s2, c2));
    ColorOfInjective(ToneOf(s1, c1), ToneOf(s2, c2));
    IconOfInjective(ToneOf(s1, c1), Unknown);
    ColorOfInjective(ToneOf(s1, c1), Unknown);
  }

  /** The label beside the badge: the conclusion of a completed run (which
      may be missing), the status otherwise. */
  function StatusLabel(status: string, conclusion: Option<string>): (shown: Option<string>)
    ensures ToneOf(status, conclusion) == Succeeded ==> shown == Some("success")
    ensures ToneOf(status, conclusion) == Failed ==> shown == Some("failure")
    ensures ToneOf(status, conclusion) == Cancelled ==> shown == Some("cancelled")
    ensures ToneOf(status, conclusion) == Running ==> shown == Some("in_progress")
    ensures ToneOf(status, conclusion) == Queued ==> shown == Some("queued")
    ensures shown.None? ==> status == "completed" && ToneOf(status, conclusion) == Unknown
    ensures status == "completed" ==> shown == conclusion
    ensures status != "completed" ==> shown == Some(status)
  {
    if status == "completed" then conclusion else Some(status)
  }

  // ---------------------------------------------------------------------
  // Statistics cards

  predicate IsSuccess(r: RunSummary)
  {
    r.conclusion == Some("success")
  }

  predicate IsActive(w: Workflow)
  {
    w.state == "active"
  }

  /** The Success Rate card: "N/A", or a whole percentage. */
  datatype SuccessRate = NotApplicable | Percent(value: nat)

  /** `Math.round(100 * part / whole)` computed exactly: the whole number
      within half a point of the exact percentage, halves rounded up. */
  function RoundedPercent(part: nat, whole: nat): (p: nat)
    requires 0 < whole && part <= whole
    ensures 2 * whole * p - whole <= 200 * part < 2 * whole * p + whole
    ensures p <= 100
  {
    var p := (200 * part + whole) / (2 * whole);
    assert 2 * whole * p <= 200 * part + whole;
    PercentBound(part, whole, p);
    p
  }

  lemma PercentBound(part: nat, whole: nat, p: nat)
    requires 0 < whole && part <= whole
    requires 2 * whole * p <= 200 * part + whole
    ensures p <= 100
  {
    assert (2 * whole) * p < (2 * whole) * 101;
    MulCancel(2 * whole, p, 101);
  }

  /** Multiplying by a positive factor preserves strict order. */
  lemma MulCancel(w: int, a: int, b: int)
    requires w > 0 && w * a < w * b
    ensures a < b
  {
  }

  /** At most one whole number lies within half a point of the exact
      percentage with halves rounded up, so the rounding is determined. */
  lemma RoundedPercentUnique(part: nat, whole: nat, q: int)
    requires 0 < whole && part <= whole
    requires 2 * whole * q - whole <= 200 * part < 2 * whole * q + whole
    ensures q == RoundedPercent(part, whole)
  {
    var p := RoundedPercent(part, whole);
    assert (2 * whole) * p < (2 * whole) * q + 2 * whole == (2 * whole) * (q + 1);
    MulCancel(2 * whole, p, q + 1);
    assert (2 * whole) * q < (2 * whole) * p + 2 * whole == (2 * whole) * (p + 1);
    MulCancel(2 * whole, q, p + 1);
  }

  /** Two successes in three runs show 67%; one in two sits on the .5
      boundary and shows 50%. */
  lemma RoundingExamples()
    ensures RoundedPercent(2, 3) == 67
    ensures RoundedPercent(1, 2) == 50
  {
    RoundedPercentUnique(2, 3, 67);
    RoundedPercentUnique(1, 2, 50);
  }

  /** The Success Rate card's value. */
  function SuccessRateOf(runs: seq<RunSummary>): (rate: SuccessRate)
    ensures rate.NotApplicable? <==> runs == []
    ensures rate.Percent? ==> rate.value <= 100
    ensures rate.Percent? ==>
      var n, s := |runs|, |Matching(runs, IsSuccess)|;
      2 * n * rate.value - n <= 200 * s < 2 * n * rate.value + n
  {
    if |runs| > 0 then
      CountIfIsMatchingSize(runs, IsSuccess);
      Percent(RoundedPercent(CountIf(runs, IsSuccess), |runs|))
    else
      NotApplicable
  }

  /** The rate is 100 when every run succeeded and 0 when none did. */
  lemma SuccessRateExtremes(runs: seq<RunSummary>)
    requires runs != []
    ensures (forall i :: 0 <= i < |runs| ==> IsSuccess(runs[i])) ==> SuccessRateOf(runs) == Percent(100)
    ensures (forall i :: 0 <= i < |runs| ==> !IsSuccess(runs[i])) ==> SuccessRateOf(runs) == Percent(0)
  {
    var n := |runs|;
    CountIfAll(runs, IsSuccess);
    CountIfNone(runs, IsSuccess);
    if forall i :: 0 <= i < n ==> IsSuccess(runs[i]) {
      RoundedPercentUnique(n, n, 100);
    }
    if forall i :: 0 <= i < n ==> !IsSuccess(runs[i]) {
      RoundedPercentUnique(0, n, 0);
    }
  }

  /** The four cards. */
  datatype StatsCards = StatsCards(totalRuns: nat, successRate: SuccessRate, activeWorkflows: nat, lastRun: Option<string>)

  /** The cards for the current lists: the number of runs, the success
      rate, the number of active workflows and the creation time of the
      newest run (the list is newest-first). */
  function Stats(runs: seq<RunSummary>, workflows: seq<Workflow>): (c: StatsCards)
    ensures c.totalRuns == |runs|
    ensures c.successRate == SuccessRateOf(runs)
    ensures c.activeWorkflows == |Matching(workflows, IsActive)| <= |workflows|
    ensures c.lastRun.None? <==> runs == []
    ensures c.lastRun.Some? ==> c.lastRun.value == runs[0].createdAt
  {
    CountIfIsMatchingSize(workflows, IsActive);
    StatsCards(|runs|, SuccessRateOf(runs), CountIf(workflows, IsActive),
               if |runs| > 0 then Some(runs[0].createdAt) else None)
  }

  // ---------------------------------------------------------------------
  // Build-trend chart

  /** One point of the chart series; `runNumber` is the `n` of its label
      `Run n`. */
  datatype ChartPoint = ChartPoint(runNumber: nat, success: nat, failure: nat, cancelled: nat, createdAt: string)

  const ChartLength: nat := 7

  /** `conclusion === outcome ? 1 : 0`. */
  function Flag(conclusion: Option<string>, outcome: string): nat
  {
    if conclusion == Some(outcome) then 1 else 0
  }

  /** The point for `run` at position `index` of the series. */
  function Point(run: RunSummary, index: nat): ChartPoint
  {
    ChartPoint(index + 1, Flag(run.conclusion, "success"), Flag(run.conclusion, "failure"),
               Flag(run.conclusion, "cancelled"), run.createdAt)
  }

  /** `rs.map((run, index) => ...)` with indexes counted from `from`. */
  function Points(rs: seq<RunSummary>, from: nat): (ps: seq<ChartPoint>)
    ensures |ps| == |rs|
    ensures forall i :: 0 <= i < |rs| ==> ps[i] == Point(rs[i], from + i)
  {
    if rs == [] then [] else [Point(rs[0], from)] + Points(rs[1..], from + 1)
  }

  /** `chartData`: the seven newest runs, oldest first. */
  function ChartData(runs: seq<RunSummary>): (points: seq<ChartPoint>)
    ensures |points| == Min(ChartLength, |runs|)
    ensures forall i :: 0 <= i < |points| ==> points[i] == Point(runs[|points| - 1 - i], i)
  {
    Points(Reverse(Take(runs, ChartLength)), 0)
  }

  /** Each point's flags are 0 or 1, at most one is set, and none is set
      for a run whose conclusion is not success, failure or cancelled. */
  lemma ChartFlags(runs: seq<RunSummary>, i: nat)
    requires i < |ChartData(runs)|
    ensures var p := ChartData(runs)[i];
      && p.success <= 1 && p.failure <= 1 && p.cancelled <= 1
      && p.success + p.failure + p.cancelled <= 1
      && (p.success == 1 <==> IsSuccess(runs[|ChartData(runs)| - 1 - i]))
      && (runs[|ChartData(runs)| - 1 - i].conclusion !in {Some("success"), Some("failure"), Some("cancelled")}
          ==> p.success + p.failure + p.cancelled == 0)
  {
  }

  /** When the runs come newest-first, the chart runs oldest-first. */
  lemma ChartIsOldestFirst(runs: seq<RunSummary>, atOrAfter: (string, string) -> bool)
    requires forall i, j :: 0 <= i < j < |runs| ==> atOrAfter(runs[i].createdAt, runs[j].createdAt)
    ensures forall i, j :: 0 <= i < j < |ChartData(runs)| ==>
      atOrAfter(ChartData(runs)[j].createdAt, ChartData(runs)[i].createdAt)
  {
  }
}
