/** Where the plugin finds the GitHub repository it talks to: an explicit
    `owner/repo` option, the host's repository URL, or GITHUB_REPOSITORY,
    tried in that order. */
module Repository {
  import opened Wrappers
  import opened JsValues
  import opened Host

  /** `{ owner, repo }` */
  datatype Repo = Repo(owner: string, repo: string)

  /** `parseGitHubUrl`: the URL parser's behaviour is not part of the model, so
      the repository-URL source is parsed by a function the caller supplies. */
  type UrlParser = string -> Option<Repo>

  /** `owner/repo` text: one slash, with non-empty text on both sides. */
  ghost predicate IsRepositoryId(s: string) {
    exists i :: 0 < i < |s| - 1 && s[i] == '/' && '/' !in s[..i] && '/' !in s[i + 1..]
  }

  function Format(r: Repo): string {
    r.owner + "/" + r.repo
  }

  /** Position of the first slash, or -1. */
  function FirstSlash(s: string): (i: int)
    ensures -1 <= i < |s|
    ensures i == -1 ==> '/' !in s
    ensures i >= 0 ==> s[i] == '/' && '/' !in s[..i]
  {
    if s == [] then -1
    else if s[0] == '/' then 0
    else
      var k := FirstSlash(s[1..]);
      assert s == [s[0]] + s[1..];
      if k < 0 then -1 else (assert s[..k + 1] == [s[0]] + s[1..][..k]; k + 1)
  }

  /** `parseRepository`: the regular expression `^([^/]+)\/([^/]+)$`. */
  function ParseRepository(s: string): (r: Option<Repo>)
    ensures r.Some? <==> IsRepositoryId(s)
    ensures r.Some? ==> s == Format(r.value) && r.value.owner != "" && r.value.repo != ""
                        && '/' !in r.value.owner && '/' !in r.value.repo
  {
    var i := FirstSlash(s);
    if 0 < i < |s| - 1 && '/' !in s[i + 1..] then
      assert s == s[..i] + "/" + s[i + 1..];
      Some(Repo(s[..i], s[i + 1..]))
    else
      assert !IsRepositoryId(s) by {
        forall j | 0 < j < |s| - 1 && s[j] == '/' && '/' !in s[..j]
          ensures '/' in s[j + 1..]
        {
          FirstSlashOf(s, j);
        }
      }
      None
  }

  /** The slash with no slash before it is the first one. */
  lemma FirstSlashOf(s: string, j: int)
    requires 0 <= j < |s| && s[j] == '/' && '/' !in s[..j]
    ensures FirstSlash(s) == j
  {
    forall k | 0 <= k < j ensures s[k] != '/' {
      assert s[..j][k] == s[k];
    }
    var i := FirstSlash(s);
    assert s[j] in s;
    forall k | 0 <= k < i ensures s[k] != '/' {
      assert s[..i][k] == s[k];
    }
  }

  /** Parsing the text of an identifier gives the identifier back. */
  lemma ParseFormat(r: Repo)
    requires r.owner != "" && r.repo != "" && '/' !in r.owner && '/' !in r.repo
    ensures ParseRepository(Format(r)) == Some(r)
  {
    var s := Format(r);
    var i := |r.owner|;
    assert s[i] == '/' && s[..i] == r.owner && s[i + 1..] == r.repo;
    assert IsRepositoryId(s);
  }

  /** `mapOptional`: apply `fn` to a value that is not `undefined`. */
  function MapOptional<T, U>(value: Option<T>, fn: T -> Option<U>): (r: Option<U>)
    ensures value.None? ==> r.None?
    ensures value.Some? ==> r == fn(value.value)
  {
    if value.Some? then fn(value.value) else None
  }

  /** The `repository` option, through `mapOptional` and `parseRepository`:
      `undefined` is skipped; any other value is turned into a string by `exec`,
      which throws for an object that cannot be converted, and then parsed. */
  function ConfigSource(config: JsValue): (r: Result<Option<Repo>, PluginError>)
    ensures Prop(config, "repository").Undefined? ==> r == Success(None)
    ensures r.Failure? <==>
      Prop(config, "repository").Object? && HasOwnKey(Prop(config, "repository").entries, "toString")
    ensures r.Failure? ==> r.error == NotConvertibleToString
    ensures r.Success? && r.value.Some? ==> Prop(config, "repository") == Str(Format(r.value.value))
  {
    match Defined(Prop(config, "repository"))
    case None => Success(None)
    case Some(v) =>
      match ToJsString(v)
      case Failure(e) => Failure(e)
      case Success(s) => Success(ParseRepository(s))
  }

  /** `context.options.repositoryUrl`, through the URL parser. */
  function UrlSource(ctx: Context, parseUrl: UrlParser): Option<Repo> {
    MapOptional(ctx.repositoryUrl, parseUrl)
  }

  /** `context.env.GITHUB_REPOSITORY` */
  function EnvSource(ctx: Context): Option<Repo> {
    MapOptional(ctx.env.githubRepository, ParseRepository)
  }

  /** `getRepositoryInfo`: the first source that is defined and parses, or
      `undefined`; a `repository` option that cannot be converted to a string
      throws before any other source is tried. */
  function GetRepositoryInfo(config: JsValue, ctx: Context, parseUrl: UrlParser): (r: Result<Option<Repo>, PluginError>)
    ensures r.Failure? <==> ConfigSource(config).Failure?
    ensures r.Failure? ==> r == ConfigSource(config)
    ensures r == Success(None) <==>
      ConfigSource(config) == Success(None) && UrlSource(ctx, parseUrl).None? && EnvSource(ctx).None?
    ensures ConfigSource(config).Success? && ConfigSource(config).value.Some? ==> r == ConfigSource(config)
    ensures ConfigSource(config) == Success(None) && UrlSource(ctx, parseUrl).Some? ==> r == Success(UrlSource(ctx, parseUrl))
    ensures ConfigSource(config) == Success(None) && UrlSource(ctx, parseUrl).None? ==> r == Success(EnvSource(ctx))
  {
    match ConfigSource(config)
    case Failure(e) => Failure(e)
    case Success(Some(repo)) => Success(Some(repo))
    case Success(None) =>
      var fromUrl := UrlSource(ctx, parseUrl);
      if fromUrl.Some? then Success(fromUrl) else Success(EnvSource(ctx))
  }

  /** An explicit `owner/repo` option wins whatever the other sources hold. */
  lemma ExplicitRepositoryWins(config: JsValue, ctx: Context, parseUrl: UrlParser, r: Repo)
    requires Prop(config, "repository") == Str(Format(r))
    requires r.owner != "" && r.repo != "" && '/' !in r.owner && '/' !in r.repo
    ensures GetRepositoryInfo(config, ctx, parseUrl) == Success(Some(r))
  {
    ParseFormat(r);
  }

  /** A `repository` option that is set but does not parse falls through to the
      next source, and so does an unparseable repository URL. */
  lemma UnparseableSourcesFallThrough(config: JsValue, ctx: Context, parseUrl: UrlParser)
    requires Prop(config, "repository").Str? && !IsRepositoryId(Prop(config, "repository").s)
    requires ctx.repositoryUrl.None? || parseUrl(ctx.repositoryUrl.value).None?
    ensures GetRepositoryInfo(config, ctx, parseUrl) == Success(MapOptional(ctx.env.githubRepository, ParseRepository))
  {
  }

  /** `mapOptional` skips an undefined source without calling its parser: with
      no repository URL the URL parser cannot matter; with no `repository`
      option the result is that of the other two sources; with no
      GITHUB_REPOSITORY the environment contributes nothing. */
  lemma UndefinedSourcesSkipped(config: JsValue, ctx: Context, p1: UrlParser, p2: UrlParser)
    ensures ctx.repositoryUrl.None? ==> GetRepositoryInfo(config, ctx, p1) == GetRepositoryInfo(config, ctx, p2)
    ensures Prop(config, "repository").Undefined? ==>
      GetRepositoryInfo(config, ctx, p1) == Success(if UrlSource(ctx, p1).Some? then UrlSource(ctx, p1) else EnvSource(ctx))
    ensures ctx.env.githubRepository.None? && ConfigSource(config) == Success(None) ==>
      GetRepositoryInfo(config, ctx, p1) == Success(UrlSource(ctx, p1))
  {
  }

  /** Only a string option can name a repository: `null`, booleans, numbers and
      plain objects print without a slash, and other objects throw. */
  lemma OnlyStringsParse(config: JsValue)
    requires !Prop(config, "repository").Str?
    ensures ConfigSource(config).Failure? || ConfigSource(config) == Success(None)
  {
  }
}
