/** The environment the logger reads on every call, and the modes derived from it. */
module Mode {
  import opened Wrappers

  /** The environment variables the logger reads; `None` is an unset variable. */
  datatype Env = Env(
    logPath: Option<string>,      // LOG_PATH
    logFileName: Option<string>,  // LOG_FILE_NAME
    env: Option<string>,          // env
    serviceName: Option<string>)  // serviceName

  /** `!!x` for an environment variable: set and not empty. */
  predicate Truthy(x: Option<string>) {
    x.Some? && x.value != ""
  }

  /** Cluster ("K8") mode: both file-sink variables are set and non-empty. */
  function IsK8Env(e: Env): (r: bool)
    ensures r <==> e.logPath.Some? && |e.logPath.value| > 0
                   && e.logFileName.Some? && |e.logFileName.value| > 0
  {
    Truthy(e.logPath) && Truthy(e.logFileName)
  }

  /** Production mode: `env` is set and is exactly `production`. */
  function IsProdEnv(e: Env): (r: bool)
    ensures r <==> e.env.Some? && e.env.value == "production"
  {
    e.env == Some("production")
  }

  /** Plain output (no colour, compact serialiser). The call tests it as `env` being
      `production` or cluster mode, which is exactly production or cluster mode. */
  function IsPlain(e: Env): (r: bool)
    ensures r <==> IsK8Env(e) || IsProdEnv(e)
  {
    e.env == Some("production") || IsK8Env(e)
  }
}
