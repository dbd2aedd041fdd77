/** The status gateway of backend/server.js: parameter checks, the
    projection of upstream workflow runs and workflow definitions, the
    mapping of upstream failures to local responses, and the chat
    notification relay. Each request handler is a pure function of its
    inputs, the process configuration and the reply of the one upstream
    call it makes; it also returns that call, or `None` when it makes none. */
module Server {
  import opened Common
  import opened Text
  import opened Seqs

  /** The process configuration the handlers read: the hosting API token
      and the chat webhook URL, each possibly unset. */
  datatype Config = Config(githubToken: Option<string>, slackWebhookUrl: Option<string>)

  /** One run as the hosting API lists it (only the fields the gateway reads). */
  datatype UpstreamRun = UpstreamRun(
    id: int, name: Option<string>, status: string, conclusion: Option<string>,
    createdAt: string, updatedAt: string, headBranch: string,
    headSha: Option<string>, event: string, workflowId: int, htmlUrl: string)

  /** The hosting API's page of runs: `workflow_runs` and `total_count`. */
  datatype RunsPage = RunsPage(workflowRuns: seq<UpstreamRun>, totalCount: int)

  /** One run as the gateway returns it. */
  datatype RunSummary = RunSummary(
    id: int, name: string, status: string, conclusion: Option<string>,
    createdAt: string, updatedAt: string, headBranch: string,
    headSha: string, event: string, workflowId: int, htmlUrl: string)

  /** One workflow definition; the gateway returns the same seven fields it reads. */
  datatype Workflow = Workflow(
    id: int, name: string, path: string, state: string,
    createdAt: string, updatedAt: string, htmlUrl: string)

  datatype WorkflowsPage = WorkflowsPage(workflows: seq<Workflow>, totalCount: int)

  /** A rejected upstream call: the HTTP status of the response if one
      arrived (`error.response?.status`) and the error's `message`. */
  datatype UpstreamFailure = UpstreamFailure(httpStatus: Option<int>, message: string)

  /** An error response: status code, `error` text and optional `details`. */
  datatype ErrorBody = ErrorBody(status: int, error: string, details: Option<string>)

  datatype RunsBody = RunsBody(repository: string, runs: seq<RunSummary>, totalCount: int)
  datatype WorkflowsBody = WorkflowsBody(repository: string, workflows: seq<Workflow>, totalCount: int)
  datatype NotifyAck = NotifyAck(success: bool, message: string)

  /** An outbound call: the two hosting API listings (with the value of the
      `Authorization` header) and the webhook post. */
  datatype UpstreamCall =
    | ListRuns(owner: string, repo: string, authorization: string)
    | ListWorkflows(owner: string, repo: string, authorization: string)
    | PostWebhook(url: string, text: string)

  /** What one request handler did: the upstream call it made, if any, and
      the response it sent. */
  datatype Exchange<T> = Exchange(call: Option<UpstreamCall>, response: Result<T, ErrorBody>)

  const MaxRuns: nat := 10
  const ShaLength: nat := 7
  const UnnamedWorkflow := "Unnamed Workflow"
  const MissingParameters := "Missing required parameters: owner and repo"
  const InvalidToken := "GitHub token is invalid or missing"
  const RepoNotFound := "Repository not found or no access"
  const RateLimited := "API rate limit exceeded or insufficient permissions"
  const RunsFetchError := "Error fetching GitHub status"
  const WorkflowsFetchError := "Error fetching GitHub workflows"
  const WebhookNotConfigured := "Slack webhook URL not configured"
  const NotifyError := "Error sending Slack notification"
  const DefaultNotification := "\U{1F514} CI/CD Dashboard Notification"
  const NotificationSent := "Notification sent to Slack"
  /** The message of the TypeError that `head_sha.substring(0, 7)` throws
      when the SHA is `null`, in current V8 wording. */
  const NullShaMessage := "Cannot read properties of null (reading 'substring')"

  /** The header value `Bearer ${process.env.GITHUB_TOKEN}`: an unset token
      is interpolated as the text `undefined`. */
  function Authorization(token: Option<string>): (h: string)
    // The scheme comes first and the token is recoverable after it.
    ensures 7 <= |h| && h[..7] == "Bearer " && h[7..] == (if token.Some? then token.value else "undefined")
  {
    "Bearer " + (if token.Some? then token.value else "undefined")
  }

  /** Two configured tokens send the same header only if they are equal, and
      an unset token cannot be told apart from the token `undefined`. */
  lemma AuthorizationIdentifiesToken(a: string, b: string)
    ensures Authorization(Some(a)) == Authorization(Some(b)) <==> a == b
    ensures Authorization(None) == Authorization(Some("undefined"))
  {
    if Authorization(Some(a)) == Authorization(Some(b)) {
      assert a == Authorization(Some(a))[7..] == Authorization(Some(b))[7..] == b;
    }
  }

  /** `!owner || !repo` is false: both query parameters are present and non-empty. */
  function HasRepoParameters(owner: Option<string>, repo: Option<string>): (ok: bool)
    ensures ok <==> owner.Some? && repo.Some? && owner.value != "" && repo.value != ""
  {
    Truthy(owner) && Truthy(repo)
  }

  /** The response for a request that lacks `owner` or `repo`. */
  const MissingParametersResponse := ErrorBody(400, MissingParameters, None)

  /** `repository` of both listing responses. */
  function RepositoryName(owner: string, repo: string): (r: string)
    ensures |r| == |owner| + |repo| + 1 && r[|owner|] == '/'
    ensures r[..|owner|] == owner && r[|owner| + 1..] == repo
  {
    owner + "/" + repo
  }

  /** A `repository` built from names without `/` splits back into them. */
  lemma RepositorySplitsBack(owner: string, repo: string)
    requires Free(owner, '/') && Free(repo, '/')
    ensures Split(RepositoryName(owner, repo), '/') == [owner, repo]
  {
    var parts := [owner, repo];
    assert Join(parts[1..], '/') == repo;
    assert RepositoryName(owner, repo) == Join(parts, '/');
    JoinSplit(parts, '/');
  }

  /** Whatever the hosting API lists, a successful runs response holds at
      most ten runs, each with a SHA of at most seven characters that
      begins the upstream SHA, and a non-empty name. */
  lemma ReturnedRunsBounded(config: Config, owner: Option<string>, repo: Option<string>,
                            reply: Result<RunsPage, UpstreamFailure>)
    requires GetWorkflowRuns(config, owner, repo, reply).response.Success?
    ensures var body := GetWorkflowRuns(config, owner, repo, reply).response.value;
      && |body.runs| <= MaxRuns
      && forall i :: 0 <= i < |body.runs| ==>
           && |body.runs[i].headSha| <= ShaLength
           && body.runs[i].headSha == reply.value.workflowRuns[i].headSha.value[..|body.runs[i].headSha|]
           && body.runs[i].name != ""
  {
  }

  /** `sha.substring(0, 7)`: the first seven characters, or all of a shorter SHA. */
  function ShortSha(sha: string): (r: string)
    ensures |r| == Min(ShaLength, |sha|) && |r| <= ShaLength
    ensures r == sha[..|r|]
  {
    if |sha| <= ShaLength then sha else sha[..ShaLength]
  }

  /** How a returned run relates to the upstream run it was made from. */
  predicate Projects(u: UpstreamRun, r: RunSummary)
  {
    && u.headSha.Some?
    && r.headSha == ShortSha(u.headSha.value)
    && (Truthy(u.name) ==> Some(r.name) == u.name)
    && (!Truthy(u.name) ==> r.name == UnnamedWorkflow)
    && r.id == u.id && r.status == u.status && r.conclusion == u.conclusion
    && r.createdAt == u.createdAt && r.updatedAt == u.updatedAt
    && r.headBranch == u.headBranch && r.event == u.event
    && r.workflowId == u.workflowId && r.htmlUrl == u.htmlUrl
  }

  /** The map callback of the runs endpoint; a `null` SHA makes it throw. */
  function ProjectRun(u: UpstreamRun): (r: Result<RunSummary, UpstreamFailure>)
    ensures r.Success? <==> u.headSha.Some?
    ensures r.Success? ==> Projects(u, r.value)
    ensures r.Failure? ==> r.error == UpstreamFailure(None, NullShaMessage)
  {
    match u.headSha
    case None => Failure(UpstreamFailure(None, NullShaMessage))
    case Some(sha) =>
      Success(RunSummary(
        u.id, OrElse(u.name, UnnamedWorkflow), u.status, u.conclusion,
        u.createdAt, u.updatedAt, u.headBranch, ShortSha(sha),
        u.event, u.workflowId, u.htmlUrl))
  }

  /** `us.map(ProjectRun)`, which stops at the first run that throws. */
  function ProjectRuns(us: seq<UpstreamRun>): (r: Result<seq<RunSummary>, UpstreamFailure>)
    ensures r.Success? <==> forall i :: 0 <= i < |us| ==> us[i].headSha.Some?
    ensures r.Success? ==> |r.value| == |us| && forall i :: 0 <= i < |us| ==> Projects(us[i], r.value[i])
    ensures r.Failure? ==> r.error == UpstreamFailure(None, NullShaMessage)
  {
    if us == [] then Success([])
    else
      match ProjectRun(us[0])
      case Failure(e) => Failure(e)
      case Success(head) =>
        match ProjectRuns(us[1..])
        case Failure(e) => Failure(e)
        case Success(tail) => Success([head] + tail)
  }

  /** The catch block of the runs endpoint: 401, 404 and 403 from the
      hosting API keep their status with a fixed text; every other failure,
      including one without a response, becomes 500 with the error message
      as `details`. */
  function RunsErrorResponse(f: UpstreamFailure): (e: ErrorBody)
    ensures e.status in {401, 403, 404, 500}
    ensures e.status != 500 <==> f.httpStatus.Some? && f.httpStatus.value in {401, 403, 404}
    ensures e.status != 500 ==> Some(e.status) == f.httpStatus && e.details == None
    ensures e.status == 401 ==> e.error == InvalidToken
    ensures e.status == 404 ==> e.error == RepoNotFound
    ensures e.status == 403 ==> e.error == RateLimited
    ensures e.status == 500 ==> e.error == RunsFetchError && e.details == Some(f.message)
  {
    if f.httpStatus == Some(401) then ErrorBody(401, InvalidToken, None)
    else if f.httpStatus == Some(404) then ErrorBody(404, RepoNotFound, None)
    else if f.httpStatus == Some(403) then ErrorBody(403, RateLimited, None)
    else ErrorBody(500, RunsFetchError, Some(f.message))
  }

  /** GET /api/github-status. */
  function GetWorkflowRuns(config: Config, owner: Option<string>, repo: Option<string>,
                           reply: Result<RunsPage, UpstreamFailure>): (x: Exchange<RunsBody>)
    ensures !HasRepoParameters(owner, repo) ==> x == Exchange(None, Failure(MissingParametersResponse))
    ensures HasRepoParameters(owner, repo) ==>
      x.call == Some(ListRuns(owner.value, repo.value, Authorization(config.githubToken)))
    ensures x.response.Success? ==>
      && HasRepoParameters(owner, repo) && reply.Success?
      && x.response.value.repository == RepositoryName(owner.value, repo.value)
      && x.response.value.totalCount == reply.value.totalCount
      && |x.response.value.runs| == Min(MaxRuns, |reply.value.workflowRuns|)
      && forall i :: 0 <= i < |x.response.value.runs| ==>
           Projects(reply.value.workflowRuns[i], x.response.value.runs[i])
    ensures HasRepoParameters(owner, repo) && reply.Failure? ==>
      x.response == Failure(RunsErrorResponse(reply.error))
    ensures HasRepoParameters(owner, repo) && reply.Success? ==>
      (x.response.Success? <==>
         forall i :: 0 <= i < Min(MaxRuns, |reply.value.workflowRuns|) ==> reply.value.workflowRuns[i].headSha.Some?)
    ensures HasRepoParameters(owner, repo) && reply.Success? && x.response.Failure? ==>
      x.response.error == ErrorBody(500, RunsFetchError, Some(NullShaMessage))
  {
    if !HasRepoParameters(owner, repo) then Exchange(None, Failure(MissingParametersResponse))
    else
      var call := ListRuns(owner.value, repo.value, Authorization(config.githubToken));
      match reply
      case Failure(f) => Exchange(Some(call), Failure(RunsErrorResponse(f)))
      case Success(page) =>
        match ProjectRuns(Take(page.workflowRuns, MaxRuns))
        case Failure(f) => Exchange(Some(call), Failure(RunsErrorResponse(f)))
        case Success(runs) =>
          Exchange(Some(call), Success(RunsBody(RepositoryName(owner.value, repo.value), runs, page.totalCount)))
  }

  /** GET /api/github-workflows: the definitions are returned one-to-one and
      in order, and every failure becomes 500 whatever the upstream status. */
  function GetWorkflows(config: Config, owner: Option<string>, repo: Option<string>,
                        reply: Result<WorkflowsPage, UpstreamFailure>): (x: Exchange<WorkflowsBody>)
    ensures !HasRepoParameters(owner, repo) ==> x == Exchange(None, Failure(MissingParametersResponse))
    ensures HasRepoParameters(owner, repo) ==>
      x.call == Some(ListWorkflows(owner.value, repo.value, Authorization(config.githubToken)))
    ensures HasRepoParameters(owner, repo) && reply.Success? ==>
      x.response == Success(WorkflowsBody(RepositoryName(owner.value, repo.value),
                                          reply.value.workflows, reply.value.totalCount))
    ensures HasRepoParameters(owner, repo) && reply.Failure? ==>
      x.response == Failure(ErrorBody(500, WorkflowsFetchError, Some(reply.error.message)))
  {
    if !HasRepoParameters(owner, repo) then Exchange(None, Failure(MissingParametersResponse))
    else
      var call := ListWorkflows(owner.value, repo.value, Authorization(config.githubToken));
      match reply
      case Failure(f) => Exchange(Some(call), Failure(ErrorBody(500, WorkflowsFetchError, Some(f.message))))
      case Success(page) =>
        Exchange(Some(call), Success(WorkflowsBody(RepositoryName(owner.value, repo.value), page.workflows, page.totalCount)))
  }

  /** POST /api/notify-slack: without a webhook URL it answers 400 and
      posts nothing; otherwise it posts once, the message if truthy and the
      default text if not. */
  function NotifySlack(config: Config, message: Option<string>,
                       reply: Result<(), UpstreamFailure>): (x: Exchange<NotifyAck>)
    ensures !Truthy(config.slackWebhookUrl) ==>
      x == Exchange(None, Failure(ErrorBody(400, WebhookNotConfigured, None)))
    ensures Truthy(config.slackWebhookUrl) ==>
      && x.call.Some? && x.call.value.PostWebhook?
      && x.call.value.url == config.slackWebhookUrl.value
      && (Truthy(message) ==> x.call.value.text == message.value)
      && (!Truthy(message) ==> x.call.value.text == DefaultNotification)
    ensures Truthy(config.slackWebhookUrl) && reply.Success? ==>
      x.response == Success(NotifyAck(true, NotificationSent))
    ensures Truthy(config.slackWebhookUrl) && reply.Failure? ==>
      x.response == Failure(ErrorBody(500, NotifyError, Some(reply.error.message)))
  {
    if !Truthy(config.slackWebhookUrl) then
      Exchange(None, Failure(ErrorBody(400, WebhookNotConfigured, None)))
    else
      var call := PostWebhook(config.slackWebhookUrl.value, OrElse(message, DefaultNotification));
      match reply
      case Failure(f) => Exchange(Some(call), Failure(ErrorBody(500, NotifyError, Some(f.message))))
      case Success(_) => Exchange(Some(call), Success(NotifyAck(true, NotificationSent)))
  }

  /** The two listing endpoints treat failures differently: the runs
      endpoint passes 401, 403 and 404 through, while the workflows
      endpoint answers 500 to every failure, whatever the upstream status. */
  lemma FailureMappingAsymmetry(config: Config, owner: Option<string>, repo: Option<string>,
                                f: UpstreamFailure)
    requires HasRepoParameters(owner, repo)
    ensures GetWorkflows(config, owner, repo, Failure(f)).response.Failure?
    ensures GetWorkflows(config, owner, repo, Failure(f)).response.error.status == 500
    ensures GetWorkflowRuns(config, owner, repo, Failure(f)).response.Failure?
    ensures f.httpStatus.Some? && f.httpStatus.value in {401, 403, 404} ==>
      GetWorkflowRuns(config, owner, repo, Failure(f)).response.error.status == f.httpStatus.value
  {
  }
}
