/**
 * The package state of app_config.go and the operations that change or read
 * it: initRefreshInterval (and initCommon, which calls it), the assignment of
 * the loaded AppConfig in initConfig, and the retry loop of syncServerIpList.
 * client.Get is an oracle `get(url, attempt)`; the n-th call of the loop is
 * attempt n.
 */
module Agollo {
  import opened Wrappers
  import opened GoBytes
  import opened Settings
  import opened Strconv
  import opened ApolloUrls

  type Error = Bytes

  /** What ioutil.ReadAll returns for a response body. */
  datatype ReadResult = ReadResult(data: Bytes, err: Option<Error>)

  /** An *http.Response: the status code and what reading its body gives. */
  datatype Response = Response(StatusCode: int, Body: ReadResult)

  /** What client.Get returns: a response (nil is None) and an error. */
  datatype GetResult = GetResult(res: Option<Response>, err: Option<Error>)

  const StatusOK: int := 200
  const StatusNotModified: int := 304
  const OverMaxRetry: Error := "Over Max Retry Still Error!"
  const NoAppConfig: Error := "can not find apollo config!please confirm!"

  /** No response, or a transport error: the attempt is retried at once. */
  predicate Unreachable(g: GetResult)
  {
    g.res.None? || g.err.Some?
  }

  /** A 200 response whose body was read: syncServerIpList returns. */
  predicate Fetched(g: GetResult)
  {
    !Unreachable(g) && g.res.value.StatusCode == StatusOK && g.res.value.Body.err.None?
  }

  /** Any status other than 200, 304 included: the loop sleeps, then retries. */
  predicate Non200(g: GetResult)
  {
    !Unreachable(g) && g.res.value.StatusCode != StatusOK
  }

  /** The error an attempt that did not return leaves in `err`. */
  function ErrAfter(g: GetResult): Option<Error>
  {
    if !Unreachable(g) && g.res.value.StatusCode == StatusOK then g.res.value.Body.err else g.err
  }

  /** How many of attempts 1..n got a non-200 status. */
  function Non200Count(get: (Bytes, nat) -> GetResult, url: Bytes, n: nat): (k: nat)
    ensures k <= n
    ensures k == n <==> forall i :: 1 <= i <= n ==> Non200(get(url, i))
  {
    if n == 0 then 0 else Non200Count(get, url, n - 1) + (if Non200(get(url, n)) then 1 else 0)
  }

  /**
   * What one call of syncServerIpList did: it panicked, it returned on a
   * readable 200 (line 136), or it ran out of attempts. `slept` is the time
   * spent in time.Sleep, in nanoseconds. The body read on success is dropped
   * by the source and is not kept here. On giving up, `logged` is the raw
   * `err` the call logs (None for nil) and `err` the value the local
   * variable holds after nil is replaced; that value is never read again.
   */
  datatype SyncReport =
    | Panicked(message: Error)
    | Synced(attempts: nat, slept: int)
    | GaveUp(attempts: nat, slept: int, logged: Option<Error>, err: Error)

  /**
   * The final value of `err` in syncServerIpList once every attempt has
   * failed: the reference definition the contract of SyncServerIpList uses.
   */
  function FinalError(last: GetResult): Error
  {
    match ErrAfter(last)
    case Some(e) => e
    case None => OverMaxRetry
  }

  /** os.Getenv: the value of `key` in `env`, or the empty string when it is unset. */
  function Getenv(env: map<Bytes, Bytes>, key: Bytes): Bytes
  {
    if key in env then env[key] else []
  }

  /** The package-level variables of app_config.go that its functions assign. */
  class Package {
    /** refresh_interval, a time.Duration in nanoseconds. */
    var refreshInterval: int
    /** appConfig; None stands for nil. */
    var appConfig: Option<AppConfig>

    /** The package's initial values, before init() runs. */
    constructor ()
      ensures refreshInterval == DefaultRefreshInterval && appConfig == None
    {
      refreshInterval := DefaultRefreshInterval;
      appConfig := None;
    }

    /** GetAppConfig. */
    function GetAppConfig(): Option<AppConfig>
      reads this
    {
      appConfig
    }

    /**
     * initRefreshInterval, reading the variable apollo.refreshInterval from
     * the environment `env`. An empty or unset value changes nothing; a
     * signed decimal within int range becomes the new interval in
     * nanoseconds (time.Duration(n)); for anything else Atoi's error is
     * returned and nothing changes.
     */
    method InitRefreshInterval(env: map<Bytes, Bytes>) returns (err: Option<NumError>)
      modifies this`refreshInterval
      ensures var customized := Getenv(env, RefreshIntervalKey);
        err.None? <==> customized == [] || (IsDecimal(customized) && MinInt <= DecimalValue(customized) <= MaxInt)
      ensures var customized := Getenv(env, RefreshIntervalKey);
        err.Some? ==> Atoi(customized).Failure? && err.value == Atoi(customized).error
      ensures var customized := Getenv(env, RefreshIntervalKey);
        customized != [] && err.None? ==> refreshInterval == DecimalValue(customized) * Nanosecond
      ensures Getenv(env, RefreshIntervalKey) == [] || err.Some? ==> refreshInterval == old(refreshInterval)
    {
      var customized := Getenv(env, RefreshIntervalKey);
      if customized != [] {
        var interval := Atoi(customized);
        if interval.Failure? {
          return Some(interval.error);
        }
        refreshInterval := interval.value * Nanosecond;
      }
      return None;
    }

    /** initCommon: the error of initRefreshInterval is dropped, so a malformed value leaves the interval as it was. */
    method InitCommon(env: map<Bytes, Bytes>)
      modifies this`refreshInterval
      ensures var customized := Getenv(env, RefreshIntervalKey);
        customized != [] && IsDecimal(customized) && MinInt <= DecimalValue(customized) <= MaxInt
        ==> refreshInterval == DecimalValue(customized) * Nanosecond
      ensures var customized := Getenv(env, RefreshIntervalKey);
        !(customized != [] && IsDecimal(customized) && MinInt <= DecimalValue(customized) <= MaxInt)
        ==> refreshInterval == old(refreshInterval)
    {
      var _ := InitRefreshInterval(env);
    }

    /**
     * The first half of initConfig: load app.properties with the oracle
     * `loadJsonConfig`, store what it returned and panic if it failed. The goroutine started afterwards is not modelled.
     */
    method InitConfig(loadJsonConfig: Bytes -> Result<AppConfig, Error>) returns (panicked: Option<Error>)
      modifies this`appConfig
      ensures var loaded := loadJsonConfig(AppConfigFileName);
        loaded.Success? ==> appConfig == Some(loaded.value) && panicked == None
      ensures var loaded := loadJsonConfig(AppConfigFileName);
        loaded.Failure? ==> appConfig == None && panicked == Some(loaded.error)
    {
      var loaded := loadJsonConfig(AppConfigFileName);
      appConfig := if loaded.Success? then Some(loaded.value) else None;
      panicked := if loaded.Failure? then Some(loaded.error) else None;
    }

    /**
     * syncServerIpList. With no AppConfig it panics. Otherwise it asks the
     * services-config URL at most MaxRetries times: attempt n happens only if
     * no earlier attempt fetched a readable 200, the first such attempt ends
     * the call at once, every non-200 attempt (304 included) sleeps for
     * on_error_retry_interval, and other failures do not sleep. If no
     * attempt succeeds, the last attempt's error is logged as it is, nil
     * included, and only then is a nil `err` replaced by "Over Max Retry
     * Still Error!", a value nothing reads.
     */
    method SyncServerIpList(get: (Bytes, nat) -> GetResult, internal: Bytes) returns (report: SyncReport)
      ensures report.Panicked? <==> appConfig.None?
      ensures report.Panicked? ==> report.message == NoAppConfig
      ensures report.Synced? ==>
        var url := ServicesConfigUrl(appConfig.value, internal);
        && 1 <= report.attempts <= MaxRetries
        && Fetched(get(url, report.attempts))
        && (forall i :: 1 <= i < report.attempts ==> !Fetched(get(url, i)))
        && report.slept == Non200Count(get, url, report.attempts) * OnErrorRetryInterval
      ensures report.GaveUp? ==>
        var url := ServicesConfigUrl(appConfig.value, internal);
        && report.attempts == MaxRetries
        && (forall i :: 1 <= i <= MaxRetries ==> !Fetched(get(url, i)))
        && report.slept == Non200Count(get, url, MaxRetries) * OnErrorRetryInterval
        && report.logged == ErrAfter(get(url, MaxRetries))
        && report.err == FinalError(get(url, MaxRetries))
    {
      var config := GetAppConfig();
      if config.None? {
        return Panicked(NoAppConfig);
      }
      var url := ServicesConfigUrl(config.value, internal);

      var retry: nat := 0;
      var err: Option<Error> := None;
      var slept: int := 0;
      while true
        invariant retry <= MaxRetries
        invariant slept == Non200Count(get, url, retry) * OnErrorRetryInterval
        invariant forall i :: 1 <= i <= retry ==> !Fetched(get(url, i))
        invariant retry == 0 ==> err == None
        invariant retry > 0 ==> err == ErrAfter(get(url, retry))
        decreases MaxRetries - retry
      {
        retry := retry + 1;
        if retry > MaxRetries {
          break;
        }
        var got := get(url, retry);
        var res := got.res;
        err := got.err;
        if res.None? || err.Some? {
          continue;
        }
        if res.value.StatusCode == StatusOK {
          var body := res.value.Body;
          err := body.err;
          if err.Some? {
            continue;
          }
          return Synced(retry, slept);
        } else {
          slept := slept + OnErrorRetryInterval;
          continue;
        }
      }
      var logged := err;
      if err.None? {
        err := Some(OverMaxRetry);
      }
      report := GaveUp(retry - 1, slept, logged, err.value);
    }
  }

  /** When every attempt answers 304, every attempt sleeps and none leaves an error behind. */
  lemma AllNotModified(get: (Bytes, nat) -> GetResult, url: Bytes, n: nat)
    requires forall i :: 1 <= i <= n ==> get(url, i).res.Some? && get(url, i).err.None?
                                         && get(url, i).res.value.StatusCode == StatusNotModified
    ensures Non200Count(get, url, n) == n
    ensures forall i :: 1 <= i <= n ==> !Fetched(get(url, i)) && ErrAfter(get(url, i)).None?
  {
  }

  /**
   * A server that answers 304 every time uses up every attempt and sleeps
   * on_error_retry_interval after each one; it logs a nil error and leaves
   * the generic error in `err`.
   */
  method NotModifiedEveryTime(p: Package, internal: Bytes) returns (report: SyncReport)
    requires p.appConfig.Some?
    ensures report == GaveUp(MaxRetries, MaxRetries * OnErrorRetryInterval, None, OverMaxRetry)
  {
    var notModified := GetResult(Some(Response(StatusNotModified, ReadResult([], None))), None);
    var get := (url: Bytes, attempt: nat) => notModified;
    report := p.SyncServerIpList(get, internal);
    AllNotModified(get, ServicesConfigUrl(p.appConfig.value, internal), MaxRetries);
  }
}
