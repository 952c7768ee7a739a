/**
 * Values shared by the deployment handler: optional fields, the handler's
 * error kinds with their user-visible messages, and the records the backend
 * hands back (commits, projects, the image catalog, sync status).
 */
module Types {

  /** Rust's `Option<T>`. */
  datatype Option<T> = None | Some(value: T) {
    /** `unwrap_or(default)` */
    function GetOr(default: T): T {
      match this
      case Some(v) => v
      case None => default
    }
  }

  /** The ways a deployment command can fail. `Upstream` stands for any failure
    * reported by the API client, propagated unchanged by `?`. */
  datatype Error =
    | ProjectNotFound(key: string)
    | NoCommit(repository: string, branch: string)
    | NoQueryImage
    | NoIndexerImage
    | Upstream(message: string)

  /** The text each `SubqueryError::Custom` error carries. */
  function Message(e: Error): (m: string)
    // a missing project is named by its key
    ensures e.ProjectNotFound? ==> |m| == |e.key| + 22 && m[12..12 + |e.key|] == e.key
    // a missing commit is named by repository and branch, joined by `#` at the end of the text
    ensures e.NoCommit? ==>
              && |m| == 34 + |e.repository| + 1 + |e.branch|
              && m[34..34 + |e.repository|] == e.repository
              && m[34 + |e.repository|] == '#'
              && m[|m| - |e.branch|..] == e.branch
    // the two image errors have fixed, distinct texts
    ensures e.NoQueryImage? || e.NoIndexerImage? ==> |m| > 10 && m[..10] == "Not found "
    ensures e.NoQueryImage? ==> |m| > 10 && m[10] == 'q'
    ensures e.NoIndexerImage? ==> |m| > 10 && m[10] == 'i'
    // a backend failure keeps its own text
    ensures e.Upstream? ==> m == e.message
  {
    match e
    case ProjectNotFound(key) => "The project " + key + " not found"
    case NoCommit(repository, branch) => "No commit found in git repository " + repository + "#" + branch
    case NoQueryImage => "Not found query image"
    case NoIndexerImage => "Not found indexer image"
    case Upstream(message) => message
  }

  datatype Result<T> = Ok(value: T) | Err(error: Error)

  /** `CreateDeployRequest`: the fields a deploy or redeploy sends to the backend. */
  datatype DeployRequest = DeployRequest(
    commit: Option<string>,
    endpoint: Option<string>,
    dictEndpoint: Option<string>,
    indexerImageVersion: Option<string>,
    queryImageVersion: Option<string>,
    deployType: string,
    subFolder: Option<string>)

  /** One entry of the backend's commit list for a branch. */
  datatype Commit = Commit(sha: string)

  /** The part of a project record the handler reads. */
  datatype Project = Project(gitRepository: Option<string>)

  /** The available runtime image versions, newest first as the backend orders them. */
  datatype ImageCatalog = ImageCatalog(query: seq<string>, indexer: seq<string>)

  /** One snapshot of a deployment's indexing progress. */
  datatype DeploymentStatus = DeploymentStatus(totalEntities: nat, targetBlock: nat, processingBlock: nat)
}
