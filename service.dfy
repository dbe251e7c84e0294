/**
 * Startup and the `/health` endpoint: which clients `initialize_clients`
 * leaves behind, and how the health report is derived from them.
 */
module Service {
  import opened Wrappers
  import opened PyStr
  import opened Embedding

  /** Which clients `initialize_clients` leaves behind: the database client, and the cache client. */
  datatype Clients = Clients(database: bool, cache: bool)

  /**
   * `initialize_clients`. One `try` covers every step, so the first step
   * that raises leaves the later clients unset: a missing or empty API key
   * raises first; `create_client` (when both credentials are non-empty) may
   * raise, as `createRaises` says; then `redis.from_url` may raise, as
   * `fromUrlRaises` says (a URL it cannot parse). The cache client is
   * assigned before `ping`, so whether the server answered at startup
   * decides nothing.
   */
  function InitializeClients(apiKey: Option<string>, url: Option<string>, serviceKey: Option<string>,
                             createRaises: bool, fromUrlRaises: bool): (c: Clients)
    ensures c.database <==> !Falsy(apiKey) && !Falsy(url) && !Falsy(serviceKey) && !createRaises
    ensures c.cache <==> !Falsy(apiKey) && !fromUrlRaises && (Falsy(url) || Falsy(serviceKey) || !createRaises)
  {
    if Falsy(apiKey) then Clients(false, false)
    else
      var credentials := !Falsy(url) && !Falsy(serviceKey);
      if credentials && createRaises then Clients(false, false)
      else if fromUrlRaises then Clients(credentials, false)
      else Clients(credentials, true)
  }

  /** A failed database client creation ends startup before the cache: neither client exists. */
  lemma CreateFailureLeavesNoCache(apiKey: Option<string>, url: Option<string>, serviceKey: Option<string>, fromUrlRaises: bool)
    requires !Falsy(url) && !Falsy(serviceKey)
    ensures InitializeClients(apiKey, url, serviceKey, true, fromUrlRaises) == Clients(false, false)
  {
  }

  /** The services part of the health report. */
  datatype Services = Services(openrouter: bool, milvus: bool, redis: bool, supabase: bool)

  datatype HealthReport = HealthReport(status: string, services: Services)

  const Healthy := "healthy"
  const Degraded := "degraded"

  /**
   * `health_check`, given the cache link at the time of the check. The
   * OpenRouter entry is `OPENROUTER_API_KEY is not None`; the Redis entry
   * pings the client, and a ping that finds no server raises out of the
   * endpoint, which the application's handler answers with 500. Only
   * OpenRouter and Milvus are critical.
   */
  function HealthCheck(apiKey: Option<string>, milvusConnected: bool, link: CacheLink, databasePresent: bool): (r: Result<HealthReport>)
    ensures r.Failure? <==> link == Unreachable
    ensures r.Failure? ==> r.status == InternalError
    ensures r.Success? ==> (r.value.status == Degraded <==> apiKey.None? || !milvusConnected)
    ensures r.Success? ==> (r.value.status == Healthy <==> apiKey.Some? && milvusConnected)
    ensures r.Success? ==> r.value.services.redis == (link == Connected) && r.value.services.supabase == databasePresent
  {
    if link == Unreachable then Failure(InternalError)
    else
      var services := Services(apiKey.Some?, milvusConnected, link == Connected, databasePresent);
      Success(HealthReport(if services.openrouter && services.milvus then Healthy else Degraded, services))
  }

  /**
   * An empty API key stops startup before either client is created, yet the
   * health report counts OpenRouter as configured and says healthy.
   */
  lemma EmptyKeyLooksConfigured(url: Option<string>, serviceKey: Option<string>, createRaises: bool, fromUrlRaises: bool,
                                milvusConnected: bool, cacheAnswers: bool)
    requires milvusConnected
    ensures var c := InitializeClients(Some(""), url, serviceKey, createRaises, fromUrlRaises);
      && c == Clients(false, false)
      && HealthCheck(Some(""), milvusConnected, LinkAt(c.cache, cacheAnswers), c.database)
         == Success(HealthReport(Healthy, Services(true, true, false, false)))
  {
  }

  /**
   * Once startup has created the cache client, a health check made while
   * the cache server does not answer fails with 500, whether or not the
   * server answered at startup.
   */
  lemma UnreachableCacheBreaksHealth(apiKey: Option<string>, url: Option<string>, serviceKey: Option<string>,
                                     createRaises: bool, milvusConnected: bool)
    requires InitializeClients(apiKey, url, serviceKey, createRaises, false).cache
    ensures var c := InitializeClients(apiKey, url, serviceKey, createRaises, false);
      HealthCheck(apiKey, milvusConnected, LinkAt(c.cache, false), c.database) == Failure(InternalError)
  {
  }

  /**
   * While the cache server answers, or there is no cache client, the report
   * is returned, and degraded exactly when a critical service is missing.
   */
  lemma HealthReflectsCriticalServices(apiKey: Option<string>, milvusConnected: bool, hasClient: bool, cacheAnswers: bool,
                                       databasePresent: bool)
    requires cacheAnswers || !hasClient
    ensures var r := HealthCheck(apiKey, milvusConnected, LinkAt(hasClient, cacheAnswers), databasePresent);
      && r.Success? && (r.value.status == Degraded <==> apiKey.None? || !milvusConnected)
      && r.value.services.redis == hasClient
  {
  }
}
