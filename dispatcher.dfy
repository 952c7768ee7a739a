/**
 * `handle_deployment`: maps a parsed deployment command to backend calls.
 * Deploy and Redeploy copy the command's fields into a request, resolve it,
 * and only then send it; SyncStatus hands over to the poller; List, Delete
 * and Promote are one call each.
 */
module Dispatcher {
  import opened Types
  import opened Api
  import opened Text
  import opened Resolver
  import opened Poller

  /** The output format selector handed to the renderer (table, JSON, ...). */
  datatype OutputFormat = OutputFormat(name: string)

  /** The deploy options shared by `deploy` and `redeploy`. */
  datatype DeployCommand = DeployCommand(
    branch: string,
    commit: Option<string>,
    endpoint: Option<string>,
    dictEndpoint: Option<string>,
    indexerImageVersion: Option<string>,
    queryImageVersion: Option<string>,
    deployType: string,
    subFolder: Option<string>)

  /** `DeploymentOpt`: one parsed `deployment` subcommand. */
  datatype DeploymentOpt =
    | List(org: string, key: string, output: OutputFormat)
    | Deploy(org: string, key: string, output: OutputFormat, command: DeployCommand)
    | Delete(org: string, key: string, id: nat)
    | Redeploy(org: string, key: string, id: nat, command: DeployCommand)
    | Promote(org: string, key: string, id: nat)
    | SyncStatus(org: string, key: string, id: nat, rolling: bool, interval: nat)

  /** What a command that succeeded shows: a rendered backend value, the
    * fixed success marker, or the end of a status poll. */
  datatype Reply = Rendered(payload: Payload, output: OutputFormat) | Acknowledged | Polled(end: PollEnd)

  datatype Outcome = Outcome(result: Result<Reply>, trace: seq<Event>)

  /** The command a request and a branch stand for. */
  function CommandOf(branch: string, d: DeployRequest): DeployCommand {
    DeployCommand(branch, d.commit, d.endpoint, d.dictEndpoint, d.indexerImageVersion,
                  d.queryImageVersion, d.deployType, d.subFolder)
  }

  /** The request built from the command's fields (every field but the branch).
    * No field is lost or swapped: the command is recovered from the request
    * and its branch. */
  function RequestOf(c: DeployCommand): (d: DeployRequest)
    ensures CommandOf(c.branch, d) == c
    ensures Complete(d) <==> c.commit.Some? && c.queryImageVersion.Some? && c.indexerImageVersion.Some?
  {
    DeployRequest(c.commit, c.endpoint, c.dictEndpoint, c.indexerImageVersion,
                  c.queryImageVersion, c.deployType, c.subFolder)
  }

  /** A request fit to send that keeps everything the command gave. */
  predicate Honours(c: DeployCommand, r: DeployRequest) {
    Complete(r) && KeepsGiven(RequestOf(c), r)
  }

  /** The project key an event addresses, if any. */
  function KeyOf(e: Event): Option<string> {
    match e
    case CommitsFetched(key, _) => Some(key)
    case ProjectFetched(key) => Some(key)
    case DeploymentsListed(key) => Some(key)
    case Deployed(key, _) => Some(key)
    case Redeployed(key, _, _) => Some(key)
    case DeployDeleted(key, _) => Some(key)
    case DeploymentRebased(key, _) => Some(key)
    case StatusFetched(key, _) => Some(key)
    case _ => None
  }

  /** The calls that change a deployment. */
  predicate IsChange(e: Event) {
    e.Deployed? || e.Redeployed? || e.DeployDeleted? || e.DeploymentRebased?
  }

  /** The answer of a call whose value is rendered. */
  function RenderedAs(a: Answer<Payload>, output: OutputFormat): Result<Reply> {
    match a
    case Answer(p) => Ok(Rendered(p, output))
    case CallFailed(reason) => Err(Upstream(reason))
  }

  /** The answer of a call that prints the success marker. */
  function Acknowledge(a: Answer<Payload>): Result<Reply> {
    match a
    case Answer(_) => Ok(Acknowledged)
    case CallFailed(reason) => Err(Upstream(reason))
  }

  /** `handle_deploy`: resolve, then create the deployment from the resolved request. */
  function HandleDeploy(b: Backend, key: string, branch: string, deployment: DeployRequest,
                        output: OutputFormat): (o: Outcome)
    // the resolver's calls come first and unchanged
    ensures var res := Resolve(b, deployment, key, branch);
            |res.calls| <= |o.trace| <= |res.calls| + 1 && o.trace[..|res.calls|] == res.calls
    // the deployment is created exactly when resolution succeeds, last, from the resolved request
    ensures (exists i :: 0 <= i < |o.trace| && o.trace[i].Deployed?) <==>
              Resolve(b, deployment, key, branch).result.Ok?
    ensures forall i :: 0 <= i < |o.trace| && o.trace[i].Deployed? ==>
              && i == |o.trace| - 1
              && o.trace[i] == Deployed(key, Resolve(b, deployment, key, branch).result.value)
              && Complete(o.trace[i].request) && KeepsGiven(deployment, o.trace[i].request)
    ensures forall i :: 0 <= i < |o.trace| ==> IsLookup(o.trace[i]) || o.trace[i].Deployed?
    // failures
    ensures Resolve(b, deployment, key, branch).result.Err? ==>
              && o.result == Err(Resolve(b, deployment, key, branch).result.error)
              && o.trace == Resolve(b, deployment, key, branch).calls
    ensures Resolve(b, deployment, key, branch).result.Ok? ==>
              && (o.result.Ok? <==> b.deploy.Answer?)
              && (b.deploy.Answer? ==> o.result == Ok(Rendered(b.deploy.value, output)))
              && (b.deploy.CallFailed? ==> o.result == Err(Upstream(b.deploy.reason)))
  {
    var res := Resolve(b, deployment, key, branch);
    ResolveLookups(b, deployment, key, branch);
    match res.result
    case Err(e) => Outcome(Err(e), res.calls)
    case Ok(resolved) =>
      AfterLookups(res.calls, Deployed(key, resolved));
      Outcome(RenderedAs(b.deploy, output), res.calls + [Deployed(key, resolved)])
  }

  /** `handle_redeploy`: resolve, then redeploy deployment `id` with the resolved request. */
  function HandleRedeploy(b: Backend, key: string, branch: string, id: nat,
                          deployment: DeployRequest): (o: Outcome)
    ensures var res := Resolve(b, deployment, key, branch);
            |res.calls| <= |o.trace| <= |res.calls| + 1 && o.trace[..|res.calls|] == res.calls
    ensures (exists i :: 0 <= i < |o.trace| && o.trace[i].Redeployed?) <==>
              Resolve(b, deployment, key, branch).result.Ok?
    ensures forall i :: 0 <= i < |o.trace| && o.trace[i].Redeployed? ==>
              && i == |o.trace| - 1
              && o.trace[i] == Redeployed(key, id, Resolve(b, deployment, key, branch).result.value)
              && Complete(o.trace[i].request) && KeepsGiven(deployment, o.trace[i].request)
    ensures forall i :: 0 <= i < |o.trace| ==> IsLookup(o.trace[i]) || o.trace[i].Redeployed?
    ensures Resolve(b, deployment, key, branch).result.Err? ==>
              && o.result == Err(Resolve(b, deployment, key, branch).result.error)
              && o.trace == Resolve(b, deployment, key, branch).calls
    ensures Resolve(b, deployment, key, branch).result.Ok? ==>
              && (o.result == Ok(Acknowledged) <==> b.redeploy.Answer?)
              && (b.redeploy.CallFailed? ==> o.result == Err(Upstream(b.redeploy.reason)))
  {
    var res := Resolve(b, deployment, key, branch);
    ResolveLookups(b, deployment, key, branch);
    match res.result
    case Err(e) => Outcome(Err(e), res.calls)
    case Ok(resolved) =>
      AfterLookups(res.calls, Redeployed(key, id, resolved));
      Outcome(Acknowledge(b.redeploy), res.calls + [Redeployed(key, id, resolved)])
  }

  /** The resolver's lookups followed by one call that is not a lookup: that
    * call is the last, and the lookups come first unchanged. */
  lemma AfterLookups(calls: seq<Event>, e: Event)
    requires forall i :: 0 <= i < |calls| ==> IsLookup(calls[i])
    requires !IsLookup(e)
    ensures (calls + [e])[..|calls|] == calls && (calls + [e])[|calls|] == e
    ensures forall i :: 0 <= i < |calls + [e]| && !IsLookup((calls + [e])[i]) ==>
              i == |calls| && (calls + [e])[i] == e
  {
  }

  /** `handle_deployment`. */
  function HandleDeployment(b: Backend, opt: DeploymentOpt): (o: Outcome)
    // the pass-through commands make their one call
    ensures opt.List? ==> o.trace == [DeploymentsListed(ProjectKey(opt.org, opt.key))]
    ensures opt.Delete? ==> o.trace == [DeployDeleted(ProjectKey(opt.org, opt.key), opt.id)]
    ensures opt.Promote? ==> o.trace == [DeploymentRebased(ProjectKey(opt.org, opt.key), opt.id)]
    // sync status is the poller's run, its failure the command's failure
    ensures opt.SyncStatus? ==>
              var run := Poll(ProjectKey(opt.org, opt.key), opt.id, opt.rolling, opt.interval, b.syncStatus, 1);
              && o.trace == run.trace
              && (run.result.Err? ==> o.result == Err(run.result.error))
              && (run.result.Ok? ==> o.result == Ok(Polled(run.result.value)))
  {
    var key := ProjectKey(opt.org, opt.key);
    match opt
    case List(_, _, output) =>
      Outcome(RenderedAs(b.deployments, output), [DeploymentsListed(key)])
    case Deploy(_, _, output, command) =>
      HandleDeploy(b, key, command.branch, RequestOf(command), output)
    case Delete(_, _, id) =>
      Outcome(Acknowledge(b.deleteDeploy), [DeployDeleted(key, id)])
    case Redeploy(_, _, id, command) =>
      HandleRedeploy(b, key, command.branch, id, RequestOf(command))
    case Promote(_, _, id) =>
      Outcome(Acknowledge(b.rebaseDeployment), [DeploymentRebased(key, id)])
    case SyncStatus(_, _, id, rolling, interval) =>
      var run := Poll(key, id, rolling, interval, b.syncStatus, 1);
      match run.result
      case Err(e) => Outcome(Err(e), run.trace)
      case Ok(end) => Outcome(Ok(Polled(end)), run.trace)
  }

  /** Every call that names a project names `org/key` (the catalog fetch
    * names none), and commits are looked up on the command's own branch. */
  lemma AddressesProject(b: Backend, opt: DeploymentOpt)
    ensures var o := HandleDeployment(b, opt);
            forall i :: 0 <= i < |o.trace| ==>
              && (KeyOf(o.trace[i]).Some? ==> KeyOf(o.trace[i]).value == ProjectKey(opt.org, opt.key))
              && (o.trace[i].CommitsFetched? ==> (opt.Deploy? || opt.Redeploy?) && o.trace[i].branch == opt.command.branch)
  {
    var key := ProjectKey(opt.org, opt.key);
    match opt
    case SyncStatus(_, _, id, rolling, interval) =>
      PollOnlyPolls(key, id, rolling, interval, b.syncStatus, 1);
    case Deploy(_, _, output, command) =>
      assert HandleDeployment(b, opt) == HandleDeploy(b, key, command.branch, RequestOf(command), output);
      ResolveLookups(b, RequestOf(command), key, command.branch);
      CallsAddress(HandleDeploy(b, key, command.branch, RequestOf(command), output).trace,
                   Resolve(b, RequestOf(command), key, command.branch).calls, key, command.branch);
    case Redeploy(_, _, id, command) =>
      assert HandleDeployment(b, opt) == HandleRedeploy(b, key, command.branch, id, RequestOf(command));
      ResolveLookups(b, RequestOf(command), key, command.branch);
      CallsAddress(HandleRedeploy(b, key, command.branch, id, RequestOf(command)).trace,
                   Resolve(b, RequestOf(command), key, command.branch).calls, key, command.branch);
    case _ =>
  }

  /** The resolver's lookups followed by at most one change to `key`
    * name `key` wherever they name a project, and look commits up on `branch` only. */
  lemma CallsAddress(t: seq<Event>, lookups: seq<Event>, key: string, branch: string)
    requires |lookups| <= |t| <= |lookups| + 1 && t[..|lookups|] == lookups
    requires forall i :: 0 <= i < |lookups| ==>
               lookups[i] in {CommitsFetched(key, branch), ProjectFetched(key), ImageFetched}
    requires |t| == |lookups| + 1 ==>
               (t[|lookups|].Deployed? || t[|lookups|].Redeployed?) && t[|lookups|].key == key
    ensures forall i :: 0 <= i < |t| ==>
              && (KeyOf(t[i]).Some? ==> KeyOf(t[i]).value == key)
              && (t[i].CommitsFetched? ==> t[i].branch == branch)
  {
    forall i | 0 <= i < |t|
      ensures && (KeyOf(t[i]).Some? ==> KeyOf(t[i]).value == key)
              && (t[i].CommitsFetched? ==> t[i].branch == branch)
    {
      if i < |lookups| {
        assert t[i] == lookups[i];
      }
    }
  }

  /** A command makes at most one call that changes a deployment, the one it
    * names, and a deploy or redeploy sends a complete request that keeps every
    * field the command gave. */
  lemma ChangesOnlyWhatIsNamed(b: Backend, opt: DeploymentOpt)
    ensures var o := HandleDeployment(b, opt);
            && (forall i, j :: 0 <= i < j < |o.trace| ==> !(IsChange(o.trace[i]) && IsChange(o.trace[j])))
            && (forall i :: 0 <= i < |o.trace| ==>
                  && (o.trace[i].Deployed? ==> opt.Deploy? && Honours(opt.command, o.trace[i].request))
                  && (o.trace[i].Redeployed? ==> opt.Redeploy? && o.trace[i].id == opt.id
                                                 && Honours(opt.command, o.trace[i].request))
                  && (o.trace[i].DeployDeleted? ==> opt.Delete? && o.trace[i].id == opt.id)
                  && (o.trace[i].DeploymentRebased? ==> opt.Promote? && o.trace[i].id == opt.id))
  {
    var key := ProjectKey(opt.org, opt.key);
    match opt
    case SyncStatus(_, _, id, rolling, interval) =>
      PollOnlyPolls(key, id, rolling, interval, b.syncStatus, 1);
    case Deploy(_, _, output, command) =>
      assert HandleDeployment(b, opt) == HandleDeploy(b, key, command.branch, RequestOf(command), output);
      DeployChangesOnce(b, key, command.branch, RequestOf(command), output);
    case Redeploy(_, _, id, command) =>
      assert HandleDeployment(b, opt) == HandleRedeploy(b, key, command.branch, id, RequestOf(command));
      RedeployChangesOnce(b, key, command.branch, id, RequestOf(command));
    case _ =>
  }

  /** A deploy's one change is the creation, from a complete request keeping `d`'s fields. */
  lemma DeployChangesOnce(b: Backend, key: string, branch: string, d: DeployRequest, output: OutputFormat)
    ensures var t := HandleDeploy(b, key, branch, d, output).trace;
            && (forall i, j :: 0 <= i < j < |t| ==> !(IsChange(t[i]) && IsChange(t[j])))
            && (forall i :: 0 <= i < |t| ==>
                  && !t[i].Redeployed? && !t[i].DeployDeleted? && !t[i].DeploymentRebased?
                  && (t[i].Deployed? ==> Complete(t[i].request) && KeepsGiven(d, t[i].request)))
  {
    ChangesLast(HandleDeploy(b, key, branch, d, output).trace);
  }

  /** A redeploy's one change is to deployment `id`, with a complete request keeping `d`'s fields. */
  lemma RedeployChangesOnce(b: Backend, key: string, branch: string, id: nat, d: DeployRequest)
    ensures var t := HandleRedeploy(b, key, branch, id, d).trace;
            && (forall i, j :: 0 <= i < j < |t| ==> !(IsChange(t[i]) && IsChange(t[j])))
            && (forall i :: 0 <= i < |t| ==>
                  && !t[i].Deployed? && !t[i].DeployDeleted? && !t[i].DeploymentRebased?
                  && (t[i].Redeployed? ==> t[i].id == id && Complete(t[i].request) && KeepsGiven(d, t[i].request)))
  {
    ChangesLast(HandleRedeploy(b, key, branch, id, d).trace);
  }

  /** A trace whose only change can be its last call changes at most once. */
  lemma ChangesLast(t: seq<Event>)
    requires forall i :: 0 <= i < |t| && (t[i].Deployed? || t[i].Redeployed?) ==> i == |t| - 1
    requires forall i :: 0 <= i < |t| ==> IsLookup(t[i]) || t[i].Deployed? || t[i].Redeployed?
    ensures forall i, j :: 0 <= i < j < |t| ==> !(IsChange(t[i]) && IsChange(t[j]))
  {
  }
}
