/** The server's command-line options: their defaults and the checks made before the server starts.
    Durations are whole nanoseconds, as Go's time.Duration. */
module Options {
  import opened Wrappers

  const Second: int := 1_000_000_000

  datatype ServerOptions = ServerOptions(
    port: int,
    dbPath: string,
    logLevel: string,
    enablePprof: bool,
    metricsPort: int,
    rateLimit: int,
    enableCORS: bool,
    corsOrigins: seq<string>,
    readTimeout: int,
    writeTimeout: int)

  /** NewServerOptions: the defaults. */
  function NewServerOptions(): (o: ServerOptions)
    ensures o.port == 8080 && o.metricsPort == 0 && o.rateLimit == 100
    ensures o.corsOrigins == ["*"] && !o.enableCORS && !o.enablePprof
    ensures o.readTimeout == 30 * Second && o.writeTimeout == 30 * Second
  {
    ServerOptions(8080, "./riffle.db", "info", false, 0, 100, false, ["*"], 30 * Second, 30 * Second)
  }

  /** Complete has nothing to fill in and never fails. */
  function Complete(o: ServerOptions): (r: Option<string>)
    ensures r.None?
  {
    None
  }

  const PortRange := "port must be between 1 and 65535"
  const MetricsPortRange := "metrics port must be between 0 and 65535"
  const RateLimitRange := "rate limit must be greater than or equal to 0"
  const ReadTimeoutRange := "read timeout must be greater than 0"
  const WriteTimeoutRange := "write timeout must be greater than 0"

  /** Validate: the first failing check, in the order port, metrics port, rate limit, read timeout,
      write timeout; None when all pass. */
  function Validate(o: ServerOptions): Option<string> {
    if o.port < 1 || o.port > 65535 then Some(PortRange)
    else if o.metricsPort < 0 || o.metricsPort > 65535 then Some(MetricsPortRange)
    else if o.rateLimit < 0 then Some(RateLimitRange)
    else if o.readTimeout <= 0 then Some(ReadTimeoutRange)
    else if o.writeTimeout <= 0 then Some(WriteTimeoutRange)
    else None
  }

  predicate Acceptable(o: ServerOptions) {
    && 1 <= o.port <= 65535
    && 0 <= o.metricsPort <= 65535
    && o.rateLimit >= 0
    && o.readTimeout > 0
    && o.writeTimeout > 0
  }

  /** Validation passes exactly for acceptable options, and a failure names the first check that
      fails: an invalid port wins over everything else, and so on down the list. */
  lemma ValidateSpec(o: ServerOptions)
    ensures Validate(o).None? <==> Acceptable(o)
    ensures !(1 <= o.port <= 65535) ==> Validate(o) == Some(PortRange)
    ensures 1 <= o.port <= 65535 && !(0 <= o.metricsPort <= 65535) ==> Validate(o) == Some(MetricsPortRange)
    ensures 1 <= o.port <= 65535 && 0 <= o.metricsPort <= 65535 && o.rateLimit < 0 ==> Validate(o) == Some(RateLimitRange)
    ensures 1 <= o.port <= 65535 && 0 <= o.metricsPort <= 65535 && o.rateLimit >= 0 && o.readTimeout <= 0 ==>
              Validate(o) == Some(ReadTimeoutRange)
    ensures 1 <= o.port <= 65535 && 0 <= o.metricsPort <= 65535 && o.rateLimit >= 0 && o.readTimeout > 0 && o.writeTimeout <= 0 ==>
              Validate(o) == Some(WriteTimeoutRange)
    ensures Validate(o).Some? ==> Validate(o).value in {PortRange, MetricsPortRange, RateLimitRange, ReadTimeoutRange, WriteTimeoutRange}
  {
  }

  /** The defaults pass validation. */
  lemma DefaultsValid()
    ensures Validate(NewServerOptions()) == None
    ensures Complete(NewServerOptions()) == None
  {
  }

  /** A metrics port of 0 (metrics off) is accepted, a server port of 0 is not, and a rate limit of
      0 is accepted. */
  lemma ZeroPorts(o: ServerOptions)
    requires Acceptable(o)
    ensures Validate(o.(metricsPort := 0)) == None
    ensures Validate(o.(rateLimit := 0)) == None
    ensures Validate(o.(port := 0)) == Some(PortRange)
  {
  }
}
