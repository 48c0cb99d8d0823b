/** The credential check of `createGitHubApiFetcher`. The request function it
    returns performs HTTP I/O and is not part of the model. */
module GitHubApi {
  import opened Wrappers
  import opened JsValues
  import opened Host

  /** The configured token, or GITHUB_TOKEN when the configured one is nullish;
      the result must be truthy. Reading the `apiUrl` option first throws when
      the config itself is nullish. */
  function ResolveToken(config: JsValue, env: Env): (r: Result<JsValue, PluginError>)
    ensures IsNullish(config) ==> r == Failure(ConfigIsNullish)
    ensures r.Success? <==>
      !IsNullish(config) &&
      (Truthy(Prop(config, "token")) ||
       (IsNullish(Prop(config, "token")) && env.githubToken.Some? && env.githubToken.value != ""))
    ensures r.Failure? && !IsNullish(config) ==> r.error == MissingToken
    ensures r.Success? ==> Truthy(r.value)
    ensures r.Success? && !IsNullish(Prop(config, "token")) ==> r.value == Prop(config, "token")
    ensures r.Success? && IsNullish(Prop(config, "token")) ==> r.value == Str(env.githubToken.value)
  {
    if IsNullish(config) then Failure(ConfigIsNullish)
    else
      var token := Coalesce(Prop(config, "token"), FromOptional(env.githubToken));
      if Truthy(token) then Success(token) else Failure(MissingToken)
  }

  /** `??` is not `||`: a configured token that is set but falsy (an empty
      string, `false`, 0) hides GITHUB_TOKEN instead of falling back to it. */
  lemma FalsyTokenHidesEnvironment(config: JsValue, env: Env)
    requires !IsNullish(config)
    requires !IsNullish(Prop(config, "token")) && !Truthy(Prop(config, "token"))
    ensures ResolveToken(config, env) == Failure(MissingToken)
  {
  }
}
