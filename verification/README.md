# CI/CD Monitoring Dashboard — a Dafny model of its pure logic

The repository is a small monitoring dashboard: an Express gateway
(`backend/server.js`) that proxies the GitHub Actions "list runs" and "list
workflows" endpoints and a Slack webhook, and a React view
(`ci-cd-dashboard/src/Dashboard.js`, `NotificationCenter.js`) that polls the
gateway and renders cards, a chart and a run list.

This project lifts the sequential logic out of those handlers and components
and states what it does as pure Dafny functions over immutable records:

- `common.dfy` — `Option`, `Result` and JavaScript truthiness of strings (`s || fallback`).
- `text.dfy` — `String.prototype.trim` over the exact ECMAScript whitespace set,
  and `split` on one separator character with its inverse `Join`.
- `seqs.dfy` — `slice(0, n)`, `reverse()` and `filter(p).length`, the last with
  a reference definition as a set of matching positions.
- `server.dfy` (module `Server`) — the three gateway handlers: parameter check,
  run projection (at most 10 runs, SHA cut to 7 characters, default name),
  workflow projection, upstream-status mapping and the Slack relay. Each
  handler takes the process configuration and the reply of its upstream call
  as inputs and returns the call it made (`None` when it makes none) with the
  response it sends.
- `client.dfy` (module `Client`) — how a gateway response reaches the browser
  through axios, and the `err.response?.data?.error || fallback` text.
- `dashboard.dfy` (module `Dashboard`) — repository input validation and
  change, one poll cycle (`fetchData`) as a trace of start state, gateway
  requests and end state, the status badge, the statistics cards and the
  build-trend chart series.
- `notification_center.dfy` (module `NotificationCenter`) — the send guard,
  the state around one send and the button's `disabled` predicate.

Behaviour of the code that the model keeps as written:

- The poll is sequential: runs are fetched and stored before workflows are
  fetched, so a workflows failure keeps the new run list while `workflows`
  and `lastUpdated` stay as they were.
- Nothing guards against a response from an older poll arriving after a
  newer one has started, so no such guard is modelled.
- A returned `head_sha` is the first seven characters of the upstream SHA,
  or the whole SHA if it is shorter.
- A `null` upstream `head_sha` makes `substring` throw inside the handler's
  `try`, and the catch block turns that into a 500 response
  (`Server.ProjectRun`).

## Model

| member | source | states |
|---|---|---|
| `Text.TrimSpec` | ci-cd-dashboard/src/Dashboard.js:18-24 | `trim()` returns an infix of the input, everything removed is whitespace, and the result neither starts nor ends with whitespace |
| `Text.BlankIffAllWhitespace` | ci-cd-dashboard/src/NotificationCenter.js:10 | `!s.trim()` holds exactly when every character of `s` is whitespace |
| `Text.TrimIdempotent` | ci-cd-dashboard/src/Dashboard.js:24 | trimming an already trimmed string changes nothing |
| `Text.TrimKeepsAbsent` | ci-cd-dashboard/src/Dashboard.js:24 | trimming never introduces a character that was absent (so trimmed repository names stay free of `/`) |
| `Text.SplitJoin` | ci-cd-dashboard/src/Dashboard.js:17 | `split('/')` yields one more segment than there are `/`, none containing `/`, and joining them with `/` gives the input back |
| `Text.JoinSplit` | ci-cd-dashboard/src/Dashboard.js:23 | joining `/`-free segments and splitting again returns exactly those segments |
| `Seqs.Take` | backend/server.js:40 | `slice(0, n)` has length `min(n, |s|)` and keeps the first elements in order |
| `Seqs.Reverse` | ci-cd-dashboard/src/Dashboard.js:93 | `reverse()` keeps the length and puts element `|s|-1-i` at position `i` |
| `Seqs.CountIfIsMatchingSize` | ci-cd-dashboard/src/Dashboard.js:193 | `filter(p).length` equals the number of positions whose element satisfies `p` |
| `Seqs.CountIfAll` | ci-cd-dashboard/src/Dashboard.js:193 | the filtered count equals the length exactly when every element satisfies `p` |
| `Seqs.CountIfNone` | ci-cd-dashboard/src/Dashboard.js:193 | the filtered count is zero exactly when no element satisfies `p` |
| `Server.Authorization` | backend/server.js:33 | the header starts with `Bearer ` and what follows is the configured token, or the text `undefined` when none is set |
| `Server.AuthorizationIdentifiesToken` | backend/server.js:33 | different configured tokens give different headers, while an unset token gives the same header as the token `undefined` |
| `Common.OrElse` | backend/server.js:141 | `s \|\| fallback` is truthy exactly when `s` or the fallback is, and then is `s` when that is truthy |
| `Client.ErrorText` | ci-cd-dashboard/src/Dashboard.js:50 | the shown failure text is the response's `error` field or the fallback, and is never empty when the fallback is not |
| `Server.RepositoryName` | backend/server.js:55 | `repository` is the owner, one `/`, then the repo |
| `Server.RepositorySplitsBack` | backend/server.js:55 | a `repository` built from `/`-free names splits back into exactly those two names |
| `Server.ShortSha` | backend/server.js:48 | the short SHA is a prefix of the upstream SHA of length `min(7, |sha|)` |
| `Server.ProjectRun` | backend/server.js:40-52 | a run with a SHA projects field by field (name defaulted to `Unnamed Workflow` when falsy, SHA shortened, the rest copied); a `null` SHA is a failure without an HTTP status |
| `Server.ProjectRuns` | backend/server.js:40-52 | mapping succeeds exactly when every run has a SHA, keeps length and order, and projects each run at its own position |
| `Server.RunsErrorResponse` | backend/server.js:59-79 | upstream 401, 404 and 403 keep their status with their fixed texts; every other failure, with or without a response, becomes 500 with the error message as `details` |
| `Server.GetWorkflowRuns` | backend/server.js:19-81 | a missing or empty `owner` or `repo` gives 400 with no upstream call; otherwise one authorised list call; an upstream failure is mapped by `RunsErrorResponse`; an upstream page gives a success exactly when each of its first `min(10, n)` runs has a SHA, and then `repository`, upstream `total_count` and those runs projected in upstream order; otherwise 500 with the SHA TypeError as `details` |
| `Server.ReturnedRunsBounded` | backend/server.js:40-52 | a successful runs response never holds more than 10 runs, and each SHA has at most 7 characters, begins the upstream SHA, and each name is non-empty |
| `Server.FailureMappingAsymmetry` | backend/server.js:59-79 | for the same upstream failure the runs endpoint passes 401, 403 and 404 through while the workflows endpoint (lines 120-126) always answers 500 |
| `Server.GetWorkflows` | backend/server.js:84-127 | same parameter check; on success the upstream definitions one-to-one and in order with `repository` and `total_count`; every failure is 500 whatever the upstream status |
| `Server.NotifySlack` | backend/server.js:130-152 | without a webhook URL, 400 and no post; otherwise exactly one post to that URL whose text is the message when truthy and the default text otherwise, then 200 or 500 with `details` |
| `Dashboard.IsValidRepo` | ci-cd-dashboard/src/Dashboard.js:16-19 | the split-based check holds exactly when the input has a single `/` with non-blank text on both sides |
| `Dashboard.TwoSegmentsIffOneSlash` | ci-cd-dashboard/src/Dashboard.js:17-18 | two non-blank segments after `split('/')` is the same as one `/` with non-blank sides, in both directions |
| `Dashboard.IsValidRepoIffOneSlash` | ci-cd-dashboard/src/Dashboard.js:16-19 | `isValidRepo` holds exactly when the input has one `/` with non-blank text on both sides |
| `Dashboard.SplitAtSlash` | ci-cd-dashboard/src/Dashboard.js:23 | an input with a single `/` splits into the text before and after it |
| `Dashboard.LoadDisabled` | ci-cd-dashboard/src/Dashboard.js:140 | the Load button is disabled exactly when the input has no single `/` with non-blank sides |
| `Dashboard.HandleRepoChange` | ci-cd-dashboard/src/Dashboard.js:21-26 | an invalid input changes nothing; a valid one sets the repository to the trimmed text on either side of its only `/`, which is non-empty, `/`-free and trimmed, and changes nothing else |
| `Dashboard.RepoTextRoundTrip` | ci-cd-dashboard/src/Dashboard.js:21-26 | typing `owner/repo` of a well-formed repository is a valid input that selects exactly that repository |
| `Dashboard.DefaultRepoWellFormed` | ci-cd-dashboard/src/Dashboard.js:11 | the default repository `octocat/Hello-World` is well-formed |
| `Dashboard.InitialInputMatchesRepo` | ci-cd-dashboard/src/Dashboard.js:11-12 | the initial input text denotes the initial repository, is valid, and submitting it changes nothing |
| `Dashboard.LoadDisabledMeansNoRepoChange` | ci-cd-dashboard/src/Dashboard.js:138-140 | while the Load button is disabled, pressing Enter or leaving the field leaves the state unchanged |
| `Dashboard.FetchData` | ci-cd-dashboard/src/Dashboard.js:30-54 | the poll starts loading with the error cleared, requests runs then (only after a runs success) workflows for the active repository; a runs failure keeps both lists and `lastUpdated`; a workflows failure stores the new runs while `workflows` and `lastUpdated` keep their old values; success replaces both and records the time; the error text comes from the response or the fallback; loading ends false |
| `Dashboard.PollErrorIffFailure` | ci-cd-dashboard/src/Dashboard.js:48-50 | a poll ends without an error exactly when both fetches succeed, a shown error is never empty, and after a runs failure the workflows reply plays no part |
| `Dashboard.RepoStaysWellFormed` | ci-cd-dashboard/src/Dashboard.js:11-26 | the active repository is well-formed initially and stays so across repository changes and polls |
| `Dashboard.PollPassesParameterCheck` | backend/server.js:23-27 | a poll for a well-formed repository passes the gateway's parameter check, so the gateway calls upstream and never answers 400 |
| `Dashboard.RunsErrorShown` | ci-cd-dashboard/src/Dashboard.js:50 | any error the runs endpoint answers is shown by the dashboard with the gateway's own `error` text |
| `Dashboard.StatusIcon` | ci-cd-dashboard/src/Dashboard.js:65-77 | the icon is the one of the run's tone: conclusion for a completed run, status otherwise, `❓` for anything unrecognised |
| `Dashboard.StatusColor` | ci-cd-dashboard/src/Dashboard.js:79-91 | the colour class is the one of the same tone |
| `Dashboard.IconOfInjective` | ci-cd-dashboard/src/Dashboard.js:65-77 | different tones get different icons |
| `Dashboard.ColorOfInjective` | ci-cd-dashboard/src/Dashboard.js:79-91 | different tones get different colour classes |
| `Dashboard.IconAndColorAgree` | ci-cd-dashboard/src/Dashboard.js:65-91 | two runs share an icon exactly when they share a colour, `❓` goes exactly with the gray class, and the conclusion is consulted only for `completed` runs |
| `Dashboard.StatusLabel` | ci-cd-dashboard/src/Dashboard.js:289-291 | the label is the conclusion for a completed run (missing when the conclusion is) and the status otherwise; for the five recognised tones it names the tone the badge shows, and a missing label goes with the `❓` tone |
| `Dashboard.RoundedPercent` | ci-cd-dashboard/src/Dashboard.js:193 | the percentage is within half a point of `100·part/whole`, halves rounded up, and at most 100 |
| `Dashboard.RoundedPercentUnique` | ci-cd-dashboard/src/Dashboard.js:193 | no other whole number meets that rounding condition |
| `Dashboard.RoundingExamples` | ci-cd-dashboard/src/Dashboard.js:193 | two successes in three runs give 67, and one in two (a .5 boundary) gives 50 |
| `Dashboard.SuccessRateOf` | ci-cd-dashboard/src/Dashboard.js:192-194 | "N/A" exactly for an empty run list, otherwise the rounded percentage of successful runs, in 0..100 |
| `Dashboard.SuccessRateExtremes` | ci-cd-dashboard/src/Dashboard.js:192-194 | the rate is 100 when every run succeeded and 0 when none did |
| `Dashboard.Stats` | ci-cd-dashboard/src/Dashboard.js:188-208 | total runs is the list length; active workflows is the number of workflows in state `active`, at most the list length; the last run is the newest run's creation time, missing exactly for an empty list |
| `Dashboard.Points` | ci-cd-dashboard/src/Dashboard.js:93-98 | the indexed map keeps the length and builds point `i` from element `i` |
| `Dashboard.ChartData` | ci-cd-dashboard/src/Dashboard.js:93-99 | the series has `min(7, |runs|)` points and point `i` is built from run `min(7, |runs|)-1-i`: the seven newest runs, oldest first |
| `Dashboard.ChartFlags` | ci-cd-dashboard/src/Dashboard.js:95-97 | each flag is 0 or 1, at most one is set, `success` is set exactly for a successful run, and none is set for any other conclusion |
| `Dashboard.ChartIsOldestFirst` | ci-cd-dashboard/src/Dashboard.js:93 | for runs listed newest-first, the chart's points are oldest-first |
| `NotificationCenter.SendDisabled` | ci-cd-dashboard/src/NotificationCenter.js:49 | the send button is disabled exactly while loading or when the message consists only of whitespace |
| `NotificationCenter.SendSlackNotification` | ci-cd-dashboard/src/NotificationCenter.js:9-27 | a blank message posts nothing and changes nothing; otherwise the message as typed is posted while loading, then success shows the fixed success notice and clears the text, failure shows the server's error (or the fallback) and keeps the text, and loading ends false |
| `NotificationCenter.SendOutcomeGuardsNextSend` | ci-cd-dashboard/src/NotificationCenter.js:17-23 | after a success the button is disabled and a second send posts nothing; after a failure the button is enabled and a retry posts |
| `NotificationCenter.ButtonFollowsMessage` | ci-cd-dashboard/src/NotificationCenter-fixed.test.js:32-43 | the send button is disabled on mount and enabled once `Test message` is typed |
| `NotificationCenter.PanelMessageReachesWebhook` | ci-cd-dashboard/src/NotificationCenter.js:14-23 | a message sent from the panel reaches a configured webhook verbatim (never the default text), and any gateway error is what the panel shows |

Two one-line helpers have no row of their own: `Server.HasRepoParameters`
(the `!owner || !repo` test) and `Client.Received` (how axios hands a
gateway response to the caller). Their effect is stated by the rows for
`Server.GetWorkflowRuns`, `Server.GetWorkflows`,
`Dashboard.PollPassesParameterCheck`, `Dashboard.RunsErrorShown` and
`NotificationCenter.PanelMessageReachesWebhook`.

## Left out

- HTTP transport (axios, Express routing, CORS, JSON parsing) and logging: each upstream or gateway reply is an input value.
- `GET /api/health` (backend/server.js:14-16): a fixed text plus the clock, with no logic to state.
- Query parameters that are not single strings (repeated `owner=` giving an array) and message bodies that are not strings: the model takes strings or nothing.
- Malformed upstream payloads (no `workflow_runs` or `workflows` array): they throw inside the handler and land in the catch block, which the model covers as a failure without an HTTP status.
- Timers: the `setInterval`/`clearInterval` effects, the refresh-interval select and the re-fetch on repository change are scheduling, not logic; overlapping polls are concurrency and are not modelled.
- Text-field edits (`setRepoInput`, `setMessage`): plain replacement of one field.
- React rendering, JSX, recharts and the Tailwind classes other than the badge's case split.
- Dates: `toLocaleString`/`toLocaleDateString`, and the duration in minutes (ci-cd-dashboard/src/Dashboard.js:298-301) depend on locale, floating point and the Date library; `created_at` is kept as an opaque string.
- `Server.ProjectRun`: a missing SHA (`null` or an absent key) yields one fixed `details` text, that of current V8 for a `null` SHA; an absent key gives `... of undefined ...` instead, and older Node versions word the message differently, so the exact text is engine-specific.
- `Dashboard.SuccessRateOf`: computes exact round-half-up rather than `Math.round` on a float quotient; for lists of at most ten runs (all the gateway returns) no quotient lands on a .5 boundary inexactly, but for longer lists float rounding may differ by one.
- Rendering the percentage as text (`67%`): the model keeps the number.
- JavaScript strings are UTF-16; the model's strings are Unicode scalar values, which only matters for `substring` on SHAs with characters outside the Basic Multilingual Plane.
- backend/setup.js (interactive `.env` writer) and backend/test-api.js (a live network script).
- The `*.test.js` files are render checks; only the button test is restated (`NotificationCenter.ButtonFollowsMessage`).
