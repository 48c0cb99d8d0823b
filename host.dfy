/** What the release pipeline hands the plugin, and the errors the plugin throws. */
module Host {
  import opened Wrappers

  /** The environment variables the plugin reads (`GITHUB_API_URL` only feeds
      the HTTP client and is not modelled). */
  datatype Env = Env(githubToken: Option<string>, githubRepository: Option<string>)

  /** A commit; only its subject line is read. */
  datatype Commit = Commit(subject: string)

  /** The pipeline context: `env`, `options.repositoryUrl` and `commits`. */
  datatype Context = Context(env: Env, repositoryUrl: Option<string>, commits: seq<Commit>)

  /** The errors the entry points throw. */
  datatype PluginError =
    | MissingLabels                                   // `labels` is falsy
    | LabelsNotObject                                 // `typeof labels !== "object"`
    | InvalidReleaseType(labelName: string, releaseType: string)  // first label mapped off the ladder, as the message prints it
    | MissingToken                                    // neither `token` nor GITHUB_TOKEN resolves to a truthy value
    | ConfigIsNullish                                 // TypeError: reading `apiUrl` of undefined or null
    | RepositoryUnresolved                            // TypeError: destructuring `{ owner, repo }` of undefined
    | NotConvertibleToString                          // TypeError: an object that cannot be converted to a string
}
