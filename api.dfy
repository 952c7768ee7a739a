/**
 * The backend as the handler sees it: the answer each API call gives during
 * one command, and the log of the calls that were made.
 */
module Api {
  import opened Types

  /** The body of a backend response that is handed to the output renderer unchanged. */
  datatype Payload = Payload(body: string)

  /** The answer of one API call: a value, or a failure (network, authorisation,
    * server error) that the handler propagates with `?`. */
  datatype Answer<T> = Answer(value: T) | CallFailed(reason: string)

  /** The answers of the API client for one command invocation. `syncStatus`
    * holds the answers of successive status fetches; once it is exhausted the
    * command is stopped from outside (the process is interrupted). */
  datatype Backend = Backend(
    commits: Answer<seq<Commit>>,
    project: Answer<Option<Project>>,
    image: Answer<ImageCatalog>,
    deployments: Answer<Payload>,
    deploy: Answer<Payload>,
    redeploy: Answer<Payload>,
    deleteDeploy: Answer<Payload>,
    rebaseDeployment: Answer<Payload>,
    syncStatus: seq<Answer<DeploymentStatus>>)

  /** The structured content of one status line; the percentage is not modelled. */
  datatype StatusLine = StatusLine(totalEntities: nat, targetBlock: nat, processingBlock: nat, suffix: string)

  /** What the handler does that the outside world can observe, in order. */
  datatype Event =
    | CommitsFetched(key: string, branch: string)
    | ProjectFetched(key: string)
    | ImageFetched
    | DeploymentsListed(key: string)
    | Deployed(key: string, request: DeployRequest)
    | Redeployed(key: string, id: nat, request: DeployRequest)
    | DeployDeleted(key: string, id: nat)
    | DeploymentRebased(key: string, id: nat)
    | StatusFetched(key: string, id: nat)
    | Printed(line: StatusLine)
    | Slept(seconds: nat)

  /** The calls the request resolver may make. */
  predicate IsLookup(e: Event) {
    e.CommitsFetched? || e.ProjectFetched? || e.ImageFetched?
  }
}
