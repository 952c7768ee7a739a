/**
 * `safe_create_deploy`: completes a partly filled deployment request with the
 * backend's defaults. An unset commit becomes the first commit of the branch;
 * unset image versions become the first entries of the image catalog, which
 * is fetched at most once for both.
 */
module Resolver {
  import opened Types
  import opened Api

  /** The outcome of resolving a request, and the backend calls it made, in order. */
  datatype Resolution = Resolution(result: Result<DeployRequest>, calls: seq<Event>)

  predicate NeedsImage(d: DeployRequest) {
    d.queryImageVersion.None? || d.indexerImageVersion.None?
  }

  /** The three fields the backend requires to be set. */
  predicate Complete(d: DeployRequest) {
    d.commit.Some? && d.queryImageVersion.Some? && d.indexerImageVersion.Some?
  }

  /** `r` agrees with `d` on every field the resolver never fills, and on
    * every fillable field that `d` already sets. */
  predicate KeepsGiven(d: DeployRequest, r: DeployRequest) {
    && r.endpoint == d.endpoint
    && r.dictEndpoint == d.dictEndpoint
    && r.deployType == d.deployType
    && r.subFolder == d.subFolder
    && (d.commit.Some? ==> r.commit == d.commit)
    && (d.queryImageVersion.Some? ==> r.queryImageVersion == d.queryImageVersion)
    && (d.indexerImageVersion.Some? ==> r.indexerImageVersion == d.indexerImageVersion)
  }

  /** The request has a commit, or the branch has one to take. */
  predicate CommitFound(b: Backend, d: DeployRequest) {
    d.commit.Some? || (b.commits.Answer? && b.commits.value != [])
  }

  /** The catalog answer holds every image version the request lacks. */
  predicate ImagesAvailable(b: Backend, d: DeployRequest) {
    !NeedsImage(d) ||
    (&& b.image.Answer?
     && (d.queryImageVersion.Some? || b.image.value.query != [])
     && (d.indexerImageVersion.Some? || b.image.value.indexer != []))
  }

  /** Step 1: the commit. */
  function FillCommit(b: Backend, d: DeployRequest, key: string, branch: string): (r: Resolution)
    // a given commit costs no call; otherwise the commit list is asked for first
    ensures d.commit.Some? ==> r == Resolution(Ok(d), [])
    ensures r.calls == if d.commit.Some? then []
                       else if b.commits == Answer([]) then [CommitsFetched(key, branch), ProjectFetched(key)]
                       else [CommitsFetched(key, branch)]
    // only the commit may change, and only an unset one, to the head of the list
    ensures r.result.Ok? <==> CommitFound(b, d)
    ensures r.result.Ok? ==> r.result.value.commit.Some? && KeepsGiven(d, r.result.value)
    ensures r.result.Ok? ==> r.result.value.queryImageVersion == d.queryImageVersion
    ensures r.result.Ok? ==> r.result.value.indexerImageVersion == d.indexerImageVersion
    ensures r.result.Ok? && d.commit.None? ==> r.result.value.commit == Some(b.commits.value[0].sha)
    // the project is looked up exactly when the branch has no commit
    ensures ProjectFetched(key) in r.calls <==> d.commit.None? && b.commits == Answer([])
    ensures ImageFetched !in r.calls
    ensures d.commit.None? && b.commits == Answer([]) && b.project == Answer(None) ==>
              r.result == Err(ProjectNotFound(key))
    ensures d.commit.None? && b.commits == Answer([]) && b.project.Answer? && b.project.value.Some? ==>
              r.result == Err(NoCommit(b.project.value.value.gitRepository.GetOr(""), branch))
    // upstream failures abort unchanged
    ensures d.commit.None? && b.commits.CallFailed? ==> r.result == Err(Upstream(b.commits.reason))
    ensures d.commit.None? && b.commits == Answer([]) && b.project.CallFailed? ==>
              r.result == Err(Upstream(b.project.reason))
    // the "no commit" message ends with the branch that was asked for
    ensures r.result.Err? && r.result.error.NoCommit? ==>
              var m := Message(r.result.error); |m| > |branch| && m[|m| - |branch|..] == branch
  {
    if d.commit.Some? then Resolution(Ok(d), [])
    else
      var asked := [CommitsFetched(key, branch)];
      match b.commits
      case CallFailed(reason) => Resolution(Err(Upstream(reason)), asked)
      case Answer(commits) =>
        if commits != [] then Resolution(Ok(d.(commit := Some(commits[0].sha))), asked)
        else
          var looked := asked + [ProjectFetched(key)];
          match b.project
          case CallFailed(reason) => Resolution(Err(Upstream(reason)), looked)
          case Answer(None) => Resolution(Err(ProjectNotFound(key)), looked)
          case Answer(Some(project)) => Resolution(Err(NoCommit(project.gitRepository.GetOr(""), branch)), looked)
  }

  /** Steps 2 to 4: the two image versions, from one shared catalog fetch. */
  function FillImages(b: Backend, d: DeployRequest): (r: Resolution)
    // the catalog is fetched exactly once when an image version is missing, never otherwise
    ensures r.calls == if NeedsImage(d) then [ImageFetched] else []
    ensures !NeedsImage(d) ==> r.result == Ok(d)
    // on success both versions are set and nothing else changed
    ensures r.result.Ok? ==>
              && r.result.value.queryImageVersion.Some?
              && r.result.value.indexerImageVersion.Some?
              && r.result.value.commit == d.commit
              && KeepsGiven(d, r.result.value)
    ensures r.result.Ok? && d.queryImageVersion.None? ==>
              && b.image.Answer? && b.image.value.query != []
              && r.result.value.queryImageVersion == Some(b.image.value.query[0])
    ensures r.result.Ok? && d.indexerImageVersion.None? ==>
              && b.image.Answer? && b.image.value.indexer != []
              && r.result.value.indexerImageVersion == Some(b.image.value.indexer[0])
    // it succeeds exactly when the catalog holds what is missing
    ensures r.result.Ok? <==> ImagesAvailable(b, d)
    // which error wins: a failed fetch, then the query image, then the indexer image
    ensures NeedsImage(d) && b.image.CallFailed? ==> r.result == Err(Upstream(b.image.reason))
    ensures r.result.Err? && r.result.error.Upstream? ==> NeedsImage(d) && b.image.CallFailed?
    ensures r.result == Err(NoQueryImage) <==>
              d.queryImageVersion.None? && b.image.Answer? && b.image.value.query == []
    ensures r.result == Err(NoIndexerImage) <==>
              && d.indexerImageVersion.None? && b.image.Answer? && b.image.value.indexer == []
              && (d.queryImageVersion.Some? || b.image.value.query != [])
  {
    if !NeedsImage(d) then Resolution(Ok(d), [])
    else
      var fetched := [ImageFetched];
      match b.image
      case CallFailed(reason) => Resolution(Err(Upstream(reason)), fetched)
      case Answer(catalog) =>
        if d.queryImageVersion.None? && catalog.query == [] then Resolution(Err(NoQueryImage), fetched)
        else
          var d' := if d.queryImageVersion.None? then d.(queryImageVersion := Some(catalog.query[0])) else d;
          if d'.indexerImageVersion.None? && catalog.indexer == [] then Resolution(Err(NoIndexerImage), fetched)
          else
            var d'' := if d'.indexerImageVersion.None? then d'.(indexerImageVersion := Some(catalog.indexer[0])) else d';
            Resolution(Ok(d''), fetched)
  }

  /** The whole resolution: the commit first, then the images. */
  function Resolve(b: Backend, d: DeployRequest, key: string, branch: string): (r: Resolution)
    ensures Complete(d) ==> r == Resolution(Ok(d), [])
    // it succeeds exactly when there is a commit and the catalog holds what is missing
    ensures r.result.Ok? <==> CommitFound(b, d) && ImagesAvailable(b, d)
    ensures r.result.Ok? ==> Complete(r.result.value) && KeepsGiven(d, r.result.value)
    // unset fields take the head of the commit list and of the two image lists
    ensures r.result.Ok? && d.commit.None? ==> r.result.value.commit == Some(b.commits.value[0].sha)
    ensures r.result.Ok? && d.queryImageVersion.None? ==>
              r.result.value.queryImageVersion == Some(b.image.value.query[0])
    ensures r.result.Ok? && d.indexerImageVersion.None? ==>
              r.result.value.indexerImageVersion == Some(b.image.value.indexer[0])
  {
    var c := FillCommit(b, d, key, branch);
    if c.result.Err? then c
    else
      var i := FillImages(b, c.result.value);
      Resolution(i.result, c.calls + i.calls)
  }

  /** A resolution makes at most two calls, all lookups with the given key and
    * branch, and asks for the commit list first when the commit is unset. */
  lemma ResolveLookups(b: Backend, d: DeployRequest, key: string, branch: string)
    ensures |Resolve(b, d, key, branch).calls| <= 2
    ensures forall i :: 0 <= i < |Resolve(b, d, key, branch).calls| ==>
              Resolve(b, d, key, branch).calls[i] in {CommitsFetched(key, branch), ProjectFetched(key), ImageFetched}
    ensures forall i :: 0 <= i < |Resolve(b, d, key, branch).calls| ==> IsLookup(Resolve(b, d, key, branch).calls[i])
    ensures d.commit.None? ==>
              Resolve(b, d, key, branch).calls != [] && Resolve(b, d, key, branch).calls[0] == CommitsFetched(key, branch)
  {
    var c := FillCommit(b, d, key, branch);
    if c.result.Ok? {
      assert Resolve(b, d, key, branch).calls == c.calls + FillImages(b, c.result.value).calls;
    }
  }

  /** Each lookup happens at most once: a set commit costs no commit lookup,
    * the project is looked up exactly when the branch has no commit, the
    * catalog is fetched exactly when an image version is missing and a commit
    * was found, and never both the project and the catalog. */
  lemma ResolveCallCounts(b: Backend, d: DeployRequest, key: string, branch: string)
    ensures var calls := Resolve(b, d, key, branch).calls;
            && (d.commit.Some? ==> CommitsFetched(key, branch) !in calls)
            && multiset(calls)[CommitsFetched(key, branch)] <= 1
            && multiset(calls)[ProjectFetched(key)] <= 1
            && multiset(calls)[ImageFetched] <= 1
            && (ProjectFetched(key) in calls <==> d.commit.None? && b.commits == Answer([]))
            && (ImageFetched in calls <==> NeedsImage(d) && CommitFound(b, d))
            && !(ProjectFetched(key) in calls && ImageFetched in calls)
  {
    var c := FillCommit(b, d, key, branch);
    if c.result.Ok? {
      assert NeedsImage(c.result.value) == NeedsImage(d);
      assert Resolve(b, d, key, branch).calls == c.calls + FillImages(b, c.result.value).calls;
    }
  }

  /** Which error a failed resolution reports: the commit errors win over every
    * image error, the query image over the indexer image, and a failed call is
    * passed on unchanged; no other error arises. */
  lemma ResolveErrors(b: Backend, d: DeployRequest, key: string, branch: string)
    ensures var r := Resolve(b, d, key, branch);
            && (d.commit.None? && b.commits.CallFailed? ==> r.result == Err(Upstream(b.commits.reason)))
            && (d.commit.None? && b.commits == Answer([]) && b.project.CallFailed? ==>
                  r.result == Err(Upstream(b.project.reason)))
            && (d.commit.None? && b.commits == Answer([]) && b.project == Answer(None) ==>
                  r.result == Err(ProjectNotFound(key)))
            && (d.commit.None? && b.commits == Answer([]) && b.project.Answer? && b.project.value.Some? ==>
                  r.result == Err(NoCommit(b.project.value.value.gitRepository.GetOr(""), branch)))
            && (CommitFound(b, d) && NeedsImage(d) && b.image.CallFailed? ==>
                  r.result == Err(Upstream(b.image.reason)))
            && (r.result == Err(NoQueryImage) <==>
                  CommitFound(b, d) && d.queryImageVersion.None? && b.image.Answer? && b.image.value.query == [])
            && (r.result == Err(NoIndexerImage) <==>
                  && CommitFound(b, d) && d.indexerImageVersion.None? && b.image.Answer? && b.image.value.indexer == []
                  && (d.queryImageVersion.Some? || b.image.value.query != []))
            && (r.result.Err? && r.result.error.Upstream? ==>
                  || (d.commit.None? && b.commits == CallFailed(r.result.error.message))
                  || (d.commit.None? && b.commits == Answer([]) && b.project == CallFailed(r.result.error.message))
                  || (CommitFound(b, d) && NeedsImage(d) && b.image == CallFailed(r.result.error.message)))
  {
    var c := FillCommit(b, d, key, branch);
    if c.result.Ok? {
      assert NeedsImage(c.result.value) == NeedsImage(d);
      assert Resolve(b, d, key, branch).result == FillImages(b, c.result.value).result;
    }
  }

  /** `safe_create_deploy`, step by step on a mutable copy of the request. */
  method SafeCreateDeploy(b: Backend, request: DeployRequest, key: string, branch: string)
    returns (result: Result<DeployRequest>, calls: seq<Event>)
    ensures Resolution(result, calls) == Resolve(b, request, key, branch)
  {
    var deployment := request;
    calls := [];
    // commit
    if deployment.commit.None? {
      calls := calls + [CommitsFetched(key, branch)];
      if b.commits.CallFailed? {
        return Err(Upstream(b.commits.reason)), calls;
      }
      var commits := b.commits.value;
      if |commits| > 0 {
        deployment := deployment.(commit := Some(commits[0].sha));
      } else {
        calls := calls + [ProjectFetched(key)];
        if b.project.CallFailed? {
          return Err(Upstream(b.project.reason)), calls;
        }
        if b.project.value.None? {
          return Err(ProjectNotFound(key)), calls;
        }
        var project := b.project.value.value;
        return Err(NoCommit(project.gitRepository.GetOr(""), branch)), calls;
      }
    }

    // image version
    var notSetImage := deployment.queryImageVersion.None? || deployment.indexerImageVersion.None?;
    var image: Option<ImageCatalog> := None;
    if notSetImage {
      calls := calls + [ImageFetched];
      if b.image.CallFailed? {
        return Err(Upstream(b.image.reason)), calls;
      }
      image := Some(b.image.value);
    }

    if deployment.queryImageVersion.None? {
      // `image.value` is well defined here: the guard above fetched the catalog
      var catalog := image.value;
      if |catalog.query| == 0 {
        return Err(NoQueryImage), calls;
      }
      deployment := deployment.(queryImageVersion := Some(catalog.query[0]));
    }
    if deployment.indexerImageVersion.None? {
      var catalog := image.value;
      if |catalog.indexer| == 0 {
        return Err(NoIndexerImage), calls;
      }
      deployment := deployment.(indexerImageVersion := Some(catalog.indexer[0]));
    }

    return Ok(deployment), calls;
  }

  /** A request that sets only the indexer image: the commit and the query image are filled. */
  method ResolveExample() {
    var b := Backend(Answer([Commit("abc123")]), Answer(None), Answer(ImageCatalog(["q1", "q2"], ["i1"])),
                     CallFailed(""), CallFailed(""), CallFailed(""), CallFailed(""), CallFailed(""), []);
    var d := DeployRequest(None, None, None, Some("v2"), None, "primary", None);
    var result, calls := SafeCreateDeploy(b, d, "org/key", "main");
    assert result == Ok(d.(commit := Some("abc123"), queryImageVersion := Some("q1")));
    assert calls == [CommitsFetched("org/key", "main"), ImageFetched];
  }
}
