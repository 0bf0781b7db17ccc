/** The access gate that wraps every handler of the store: a chain of checks
    of the request's id key, api key and verb against a static table. */
module Gate {
  import opened Common

  /** What the configuration grants one api key: its "methods" entry, if the
      entry is there at all. */
  datatype Grant = Grant(methods: Option<seq<string>>)

  /** id key -> api key -> grant */
  type Config = map<string, map<string, Grant>>

  /** The parts of a request the gate reads: REQUEST_METHOD and the
      X-IDKEY / X-APIKEY headers (absent headers are None). */
  datatype Env = Env(verb: string, idkey: Option<string>, apikey: Option<string>)

  /** Granted: the handler runs with the two header values injected.
      Denied: 401 and the handler never runs. Faulted: the lookup of the
      "methods" entry raised, which the gate turns into a 500. */
  datatype Verdict = Granted(idkey: string, apikey: string) | Denied | Faulted

  function Authenticate(config: Config, env: Env): (v: Verdict)
    ensures v.Granted? <==>
      && env.idkey.Some? && env.idkey.value in config
      && env.apikey.Some? && env.apikey.value in config[env.idkey.value]
      && config[env.idkey.value][env.apikey.value].methods.Some?
      && env.verb in config[env.idkey.value][env.apikey.value].methods.value
    ensures v.Granted? ==> v.idkey == env.idkey.value && v.apikey == env.apikey.value
    ensures v.Faulted? <==>
      && env.idkey.Some? && env.idkey.value in config
      && env.apikey.Some? && env.apikey.value in config[env.idkey.value]
      && config[env.idkey.value][env.apikey.value].methods.None?
  {
    if env.idkey.None? then Denied
    else if env.idkey.value !in config then Denied
    else if env.apikey.None? then Denied
    else if env.apikey.value !in config[env.idkey.value] then Denied
    else
      var grant := config[env.idkey.value][env.apikey.value];
      if grant.methods.None? then Faulted
      else if env.verb !in grant.methods.value then Denied
      else Granted(env.idkey.value, env.apikey.value)
  }
}
