/** The plugin's entry points `verifyConditions` and `analyzeCommits`. */
module Plugin {
  import opened Wrappers
  import opened JsValues
  import opened ReleaseTypes
  import opened Host
  import opened Repository
  import opened GitHubApi
  import opened Analysis

  /** `labels` passes the three label checks of `verifyConditions`. */
  predicate LabelsValid(labels: JsValue) {
    Truthy(labels) && TypeOf(labels) == "object" &&
    forall i :: 0 <= i < |labels.entries| ==> OnLadder(labels.entries[i].1)
  }

  /** Entry `i` is the first one whose release type is off the ladder. */
  predicate FirstInvalid(entries: seq<(string, JsValue)>, i: int) {
    0 <= i < |entries| && !OnLadder(entries[i].1) &&
    forall j :: 0 <= j < i ==> OnLadder(entries[j].1)
  }

  /** The error `verifyConditions` throws for an off-ladder release type:
      the message interpolates the value, and that conversion itself throws
      for an object that cannot be turned into a string. */
  function InvalidLabelError(name: string, releaseType: JsValue): (e: PluginError)
    ensures e == NotConvertibleToString <==> ToJsString(releaseType).Failure?
    ensures releaseType.Str? ==> e == InvalidReleaseType(name, releaseType.s)
  {
    match ToJsString(releaseType)
    case Success(s) => InvalidReleaseType(name, s)
    case Failure(e) => e
  }

  /** `verifyConditions`: the label map must be a truthy object whose values are
      all on the ladder, a token must resolve, and resolving the repository must
      not throw; its result is discarded, so an unresolvable repository passes. */
  method VerifyConditions(config: JsValue, ctx: Context, parseUrl: UrlParser) returns (r: Outcome<PluginError>)
    requires config.Object?
    ensures r.Pass? <==>
      LabelsValid(Prop(config, "labels")) && ResolveToken(config, ctx.env).Success? &&
      GetRepositoryInfo(config, ctx, parseUrl).Success?
    ensures !Truthy(Prop(config, "labels")) ==> r == Fail(MissingLabels)
    ensures Truthy(Prop(config, "labels")) && TypeOf(Prop(config, "labels")) != "object" ==> r == Fail(LabelsNotObject)
    ensures Prop(config, "labels").Object? && !LabelsValid(Prop(config, "labels")) ==>
      exists i :: FirstInvalid(Prop(config, "labels").entries, i) &&
        r == Fail(InvalidLabelError(Prop(config, "labels").entries[i].0, Prop(config, "labels").entries[i].1))
    ensures LabelsValid(Prop(config, "labels")) && ResolveToken(config, ctx.env).Failure? ==> r == Fail(MissingToken)
    ensures LabelsValid(Prop(config, "labels")) && ResolveToken(config, ctx.env).Success? &&
            GetRepositoryInfo(config, ctx, parseUrl).Failure? ==>
      r == Fail(NotConvertibleToString)
  {
    var labels := Prop(config, "labels");
    if !Truthy(labels) {
      return Fail(MissingLabels);
    }
    if TypeOf(labels) != "object" {
      return Fail(LabelsNotObject);
    }
    var entries := labels.entries;
    var i := 0;
    while i < |entries|
      invariant 0 <= i <= |entries|
      invariant forall j :: 0 <= j < i ==> OnLadder(entries[j].1)
    {
      var (name, releaseType) := entries[i];
      if !OnLadder(releaseType) {
        assert FirstInvalid(entries, i);
        return Fail(InvalidLabelError(name, releaseType));
      }
      i := i + 1;
    }
    var token := ResolveToken(config, ctx.env);
    if token.Failure? {
      return Fail(token.error);
    }
    var repository := GetRepositoryInfo(config, ctx, parseUrl);
    if repository.Failure? {
      return Fail(repository.error);
    }
    return Pass;
  }

  /** What `analyzeCommits` resolves before it looks at any commit: the token
      and the repository, both read from the label map it is given as config. */
  function Setup(labels: JsValue, ctx: Context, parseUrl: UrlParser): (r: Result<Repo, PluginError>)
    ensures r.Success? <==>
      ResolveToken(labels, ctx.env).Success? && GetRepositoryInfo(labels, ctx, parseUrl).Success? &&
      GetRepositoryInfo(labels, ctx, parseUrl).value.Some?
    ensures r.Success? ==> Success(Some(r.value)) == GetRepositoryInfo(labels, ctx, parseUrl)
    ensures ResolveToken(labels, ctx.env).Failure? ==> r == Failure(ResolveToken(labels, ctx.env).error)
    ensures ResolveToken(labels, ctx.env).Success? && GetRepositoryInfo(labels, ctx, parseUrl).Failure? ==>
      r == Failure(NotConvertibleToString)
    ensures ResolveToken(labels, ctx.env).Success? && GetRepositoryInfo(labels, ctx, parseUrl) == Success(None) ==>
      r == Failure(RepositoryUnresolved)
  {
    match ResolveToken(labels, ctx.env)
    case Failure(e) => Failure(e)
    case Success(_) =>
      match GetRepositoryInfo(labels, ctx, parseUrl)
      case Failure(e) => Failure(e)
      case Success(None) => Failure(RepositoryUnresolved)
      case Success(Some(repo)) => Success(repo)
  }

  /** `analyzeCommits`: walk the commits keeping the highest ladder position
      seen, starting below the ladder, and return the rung there. */
  method AnalyzeCommits(config: JsValue, ctx: Context, parseUrl: UrlParser, fetch: LabelFetcher)
    returns (r: Result<Option<string>, PluginError>)
    requires config.Object?
    ensures var labels := Prop(config, "labels");
      match Setup(labels, ctx, parseUrl)
      case Failure(e) => r == Failure(e)
      case Success(repo) => r == Success(ReleaseType(labels, repo, fetch, ctx.commits))
    ensures r.Success? && r.value.Some? ==> r.value.value in Ladder
  {
    var labels := Prop(config, "labels");
    var setup := Setup(labels, ctx, parseUrl);
    if setup.Failure? {
      return Failure(setup.error);
    }
    var repo := setup.value;
    var commits := ctx.commits;
    var releaseTypeIndex := -1;
    var i := 0;
    while i < |commits|
      invariant 0 <= i <= |commits|
      invariant -1 <= releaseTypeIndex < |Ladder|
      invariant releaseTypeIndex == MaxOf(-1, AllIndexes(labels, repo, fetch, commits[..i]))
    {
      var prLabels := PullRequestLabels(commits[i], repo, fetch);
      var indexes := CommitIndexes(labels, repo, fetch, commits[i]);
      AllIndexesStep(labels, repo, fetch, commits, i);
      MaxOfConcat(-1, AllIndexes(labels, repo, fetch, commits[..i]), indexes);
      if prLabels.Some? {
        releaseTypeIndex := MaxOf(releaseTypeIndex, indexes);
      } else {
        assert indexes == [];
      }
      i := i + 1;
    }
    assert commits[..i] == commits;
    return Success(RungAt(releaseTypeIndex));
  }

  /** A label map that passes verification never supplies a repository: its
      `repository` entry, if any, is a rung, and no rung contains a slash. */
  lemma ValidLabelsNeverNameRepository(labels: JsValue, ctx: Context, parseUrl: UrlParser)
    requires LabelsValid(labels)
    ensures GetRepositoryInfo(labels, ctx, parseUrl) ==
      Success(if UrlSource(ctx, parseUrl).Some? then UrlSource(ctx, parseUrl) else EnvSource(ctx))
  {
    ValidLabelsHaveNoRepositoryOption(labels);
  }

  lemma ValidLabelsHaveNoRepositoryOption(labels: JsValue)
    requires LabelsValid(labels)
    ensures ConfigSource(labels) == Success(None)
  {
    var v := Prop(labels, "repository");
    if !v.Undefined? {
      var i :| 0 <= i < |labels.entries| && labels.entries[i] == ("repository", v);
      assert OnLadder(v);
      RungsHaveNoSlash(v);
    }
  }

  /** The `token` option of the plugin config does not reach `analyzeCommits`:
      with a label map that has no `token` entry and no GITHUB_TOKEN, analysis
      fails even when the plugin config holds a token that verification accepts. */
  lemma ConfigTokenIgnoredByAnalysis(config: JsValue, ctx: Context, parseUrl: UrlParser)
    requires config.Object? && Prop(config, "labels").Object?
    requires Prop(Prop(config, "labels"), "token") == Undefined
    requires ctx.env.githubToken.None?
    ensures Setup(Prop(config, "labels"), ctx, parseUrl) == Failure(MissingToken)
  {
  }
}
