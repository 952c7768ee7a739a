# Deployment handler of the SubQuery command-line client

This project models the decision logic of the `deployment` subcommand of the
SubQuery CLI (`src/command/handler/handle_deployment.rs`) and proves what it
promises. It has three parts.

- **Request resolver** (`safe_create_deploy`). It completes a partly filled
  `CreateDeployRequest`:
  - an unset commit becomes the first commit of the branch;
  - an unset query or indexer image version becomes the first entry of the
    image catalog, which is fetched once for both.

  It fails when the project is unknown, when the branch has no commit, or when
  the catalog has no query or indexer image.
- **Sync-status poller** (`handle_sync_status`). It fetches a deployment's
  status and prints one line per successful fetch; a failed fetch ends it
  with that fetch's error. In rolling mode it repeats after a
  sleep and tags the n-th line with ` [n]`.
- **Dispatcher** (`handle_deployment`, `handle_deploy`, `handle_redeploy`).
  It builds the `org/key` project key and copies the command's fields into a
  request. For a deploy or redeploy it resolves the request and only then
  sends it.

The backend is not code here. Each API call is an answer held in the
`Api.Backend` datatype: a value, or `CallFailed`, which the handler passes on
as `Upstream`. Each call also appends an `Api.Event` to a trace, so the proofs
can state which calls happen, how often, in what order and with what
arguments. Status fetches answer from a finite sequence. Once that sequence
runs out, the poll ends as `Interrupted`; this stands for the process being
stopped from outside. That is the only way a rolling poll ends in the
source apart from a failed fetch, which ends it with that fetch's error.

Modules:
- `Types` (types.dfy): requests, errors and their messages, backend records.
- `Api` (api.dfy): backend answers and the event trace.
- `Text` (text.dfy): the project key and the decimal tick counter.
- `Resolver` (resolver.dfy): the resolver. `Resolve` is the function that
  specifies it; `SafeCreateDeploy` is the imperative method that updates the
  request field by field, proved equal to `Resolve`.
- `Poller` (poller.dfy): `Poll` is the recursive specification;
  `HandleSyncStatus` is the loop with its tick counter, proved equal to `Poll`.
- `Dispatcher` (dispatcher.dfy): `handle_deployment` and its two deploy
  helpers, as functions over `Resolve` and `Poll`.

The code does not check that the organisation or the key is non-empty, and
`format!("{}/{}", org, key)` joins them as they are. `SplitProjectKeyInverse`
therefore needs an organisation without `/` to recover both parts.

## Model

| member | source | states |
|---|---|---|
| Resolver.FillCommit | src/command/handler/handle_deployment.rs:167-190 | A set commit makes no call. Otherwise the calls are exactly the branch's commit list, followed by the project lookup when that list is empty. An unset commit becomes the first SHA, and nothing else changes. The project is looked up exactly when the list is empty. An unknown project gives "project not found". A known one gives "no commit" naming its repository, or "" when none is set, and the branch, and the message ends with the branch. Backend failures pass through. The catalog is never fetched here. |
| Resolver.FillImages | src/command/handler/handle_deployment.rs:192-219 | The catalog is fetched exactly once when either image version is unset, and never otherwise. The step succeeds exactly when the catalog answer holds every version the request lacks. Unset versions become `query[0]` and `indexer[0]`. Given versions and all other fields are unchanged. Which error wins, stated both ways: a failed fetch (and an upstream error only from that fetch), then the query image, then the indexer image. |
| Resolver.Resolve | src/command/handler/handle_deployment.rs:161-222 | A request with commit and both image versions set gives no calls and comes back unchanged. Resolution succeeds exactly when a commit is found and the catalog holds every missing version. On success all three fields are set, every given field is kept, and an unset commit, query version or indexer version becomes the head of the commit list, `query` or `indexer`. |
| Resolver.ResolveLookups | src/command/handler/handle_deployment.rs:168-198 | A resolution makes at most two calls. Each is the commit lookup for the given key and branch, the project lookup for the key, or the catalog fetch. With the commit unset, the commit lookup comes first. |
| Resolver.ResolveCallCounts | src/command/handler/handle_deployment.rs:168-198 | A set commit costs no commit lookup. Each lookup happens at most once. The project is looked up exactly when the commit is unset and the branch has no commit. The catalog is fetched exactly when an image version is missing and a commit was found. Never both the project and the catalog. |
| Resolver.ResolveErrors | src/command/handler/handle_deployment.rs:169-218 | Every failing case of the whole resolution. A failed call passes its reason on, and an upstream error comes only from a failed call. An unknown project gives "project not found". A known one gives "no commit" with its repository, or "", and the branch. These commit errors win over every image error. Then no query image, stated both ways, and then no indexer image, stated both ways. |
| Resolver.SafeCreateDeploy | src/command/handler/handle_deployment.rs:161-222 | The step-by-step update of the mutable request and the `image` option gives exactly the result and the calls of `Resolve`. Its verification also shows that the unwraps of the catalog option at lines 201 and 211 cannot fail. |
| Poller.Poll | src/command/handler/handle_deployment.rs:81-103 | The specification of the polling loop, run from a given tick against the answers still to come. A poll fails only through a failed status fetch. The other Poller lemmas state its behaviour. |
| Poller.HandleSyncStatus | src/command/handler/handle_deployment.rs:74-104 | The loop, with its counter starting at 0 and incremented first, gives exactly the run of `Poll` from tick 1. Without rolling there are at most one fetch and one unsuffixed line, and no sleep. A successful first fetch then returns at once. A failed first fetch ends with that error after one call. |
| Poller.PollEnds | src/command/handler/handle_deployment.rs:81-103 | The poll finishes by itself exactly when not rolling and its one fetch succeeds. It is stopped from outside exactly when the answers run out first, which a rolling poll whose fetches all succeed always does. |
| Poller.PollFailure | src/command/handler/handle_deployment.rs:84 | A failed poll failed at its first failed fetch, with that fetch's reason, and nothing follows that fetch. |
| Poller.PollOnlyPolls | src/command/handler/handle_deployment.rs:82-102 | A poll only fetches the status of its own deployment, prints lines and sleeps. |
| Poller.RollingTicks | src/command/handler/handle_deployment.rs:81-101 | In rolling mode with every fetch answered, tick j is a status fetch, then a line with the fetched counts tagged ` [tick+j]`, then a sleep of `interval` seconds. The trace is three events per answer. |
| Poller.PollLength | src/command/handler/handle_deployment.rs:82-102 | A poll does at most three things per answer supplied: the fetch, the line and the sleep. |
| Poller.RollingUntilFailure | src/command/handler/handle_deployment.rs:82-101 | In rolling mode, answered fetches followed by a failed one give the answered ticks' run (their tagged lines and sleeps, as `RollingTicks` states), then the failing fetch. The poll stops with that fetch's reason, whatever answers would have followed. |
| Types.Message | src/command/handler/handle_deployment.rs:178-217 | The "project not found" text names the key. The "no commit" text names the repository and then the branch, joined by `#`, with the branch at the end. The two image errors have fixed, distinct texts. A backend failure keeps its own text. |
| Text.Decimal | src/command/handler/handle_deployment.rs:93 | The rendered counter is a non-empty string of decimal digits, with no leading zero unless it is 0. |
| Text.DecimalRoundTrip | src/command/handler/handle_deployment.rs:93 | Reading back a rendered counter gives the counter, so distinct ticks are tagged distinctly. |
| Text.ProjectKey | src/command/handler/handle_deployment.rs:8 | The key is the organisation, one `/`, then the project key, in that order. |
| Text.SplitProjectKeyInverse | src/command/handler/handle_deployment.rs:27 | When the organisation has no `/`, splitting `org/key` at its first `/` gives back the organisation and the key. |
| Dispatcher.HandleDeploy | src/command/handler/handle_deployment.rs:149-159 | The resolver's calls come first, unchanged. The deploy call is made exactly when resolution succeeds. It is the last call and sends the resolved request, which is complete and keeps the caller's fields. A resolution error is the command's error, and then the resolver's calls are the only calls. After a successful resolution, the command succeeds exactly when the deploy call does, rendering its response; a failed call's reason is the command's error. |
| Dispatcher.HandleRedeploy | src/command/handler/handle_deployment.rs:116-127 | The same as a deploy, for a redeploy of deployment `id`. After a successful resolution, the command is acknowledged exactly when the redeploy call succeeds; a failed call's reason is the command's error. |
| Dispatcher.RequestOf | src/command/handler/handle_deployment.rs:16-24 | Building the request from the command's options (the same at lines 43-51) loses and swaps no field: the command is recovered from the request and the branch. The request is complete exactly when the command gives the commit and both image versions. |
| Dispatcher.HandleDeployment | src/command/handler/handle_deployment.rs:5-72 | List, Delete and Promote make their one call on `org/key`. SyncStatus is exactly the poller's run from tick 1, and its failure is the command's failure. |
| Dispatcher.AddressesProject | src/command/handler/handle_deployment.rs:5-72 | Every call that names a project names `org/key`; the catalog fetch names none. Commits are looked up only by Deploy or Redeploy, on the command's own branch. |
| Dispatcher.ChangesOnlyWhatIsNamed | src/command/handler/handle_deployment.rs:16-51 | A command makes at most one call that changes a deployment, and it is the one the command names, on its own id. A deploy or redeploy sends a complete request that keeps every field the command supplied (lines 16-24 and 43-51). |

## Left out

- The API client calls `commit`, `project`, `image`, `deploy`, `redeploy`, `delete_deploy`, `rebase_deployment`, `deployments` and `deployment_sync_status`. They are network calls whose code is not part of this model. They are oracle answers plus a logged event.
- Network failures are one `Upstream(reason)` error, not `color_eyre` reports wrapping `SubqueryError`.
- The percentage of a status line (an `f32` division with two decimals) is floating point. This includes the non-finite value when `target_block` is 0. A status line keeps only the three counts and the tick suffix.
- The exact `println!` text of status lines and of "Success" is not modelled. The "Success" marker is the `Acknowledged` reply.
- `output_deployment` and `output_project` render and serialise output; that code is not part of this model. The reply carries the payload and the format selector, and rendering is taken to succeed.
- `tokio::time::sleep` and the async machinery are timing and runtime concerns; a sleep is a `Slept(interval)` event.
- Poller.HandleSyncStatus: the infinite rolling loop is observed only over a finite sequence of answers. Running out of answers stands for the external interrupt.
- Poller.HandleSyncStatus: overflow of the `usize` counter at `times += 1` is not modelled; it is a panic in debug builds and a wrap-around in release builds, at a width that depends on the target. The counter is unbounded here.
- `id` and `interval` are `u64` in the source and natural numbers here. The three counts of a `DeploymentStatus` are also natural numbers, because their source type is not part of this model.
- The types of `type_` and of the output format live in `src/command/types.rs`, which is not part of this model. `type_` is a string, and the output format is a named selector.
