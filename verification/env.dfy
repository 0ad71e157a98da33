/** The process environment variables the server code reads. Each is absent
    or a string. */
module Environment {
  import opened Wrappers

  datatype Env = Env(
    nodeEnv: Option<string>,        // NODE_ENV
    trainingToken: Option<string>,  // INTERNAL_TRAINING_TOKEN
    defaultChaos: Option<string>)   // NEXT_PUBLIC_DEFAULT_CHAOS

  predicate IsProduction(env: Env) {
    env.nodeEnv == Some("production")
  }

  /** NEXT_PUBLIC_DEFAULT_CHAOS === '1'. */
  predicate DefaultChaosEnabled(env: Env) {
    env.defaultChaos == Some("1")
  }
}
