/** The package-level tuning values and the AppConfig record of app_config.go. */
module Settings {
  import opened GoBytes

  /** time.Duration counts nanoseconds. */
  const Nanosecond: int := 1
  const Second: int := 1_000_000_000 * Nanosecond
  const Minute: int := 60 * Second

  /** Default refresh_interval: five minutes. */
  const DefaultRefreshInterval: int := 5 * Minute
  /** Name of the environment variable that overrides refresh_interval. */
  const RefreshIntervalKey: Bytes := "apollo.refreshInterval"
  /** Pause after an attempt that got a non-200 status. */
  const OnErrorRetryInterval: int := 1 * Second
  /** Number of fetch attempts syncServerIpList makes at most. */
  const MaxRetries: nat := 5

  /** Name of the file initConfig loads the AppConfig from. */
  const AppConfigFileName: Bytes := "app.properties"

  /** The identity loaded from app.properties. */
  datatype AppConfig = AppConfig(AppId: Bytes, Cluster: Bytes, NamespaceName: Bytes, Ip: Bytes)
}
