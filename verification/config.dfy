/** The plugin configuration the hosting proxy decodes and hands to `New`. */
module PluginConfig {

  /**
   * `Config`: the provider name, the operator's extra CIDRs keyed by provider
   * name, whether the allowlist is refreshed periodically, the refresh period as
   * a Go duration string, and the debug-logging switch.
   */
  datatype Config = Config(
    provider: string,
    trustIP: map<string, seq<string>>,
    autoRefresh: bool,
    refreshInterval: string,
    debug: bool)

  /** `CreateConfig`: Auto mode, no overrides, refresh every 12 hours, no debug logging. */
  function CreateConfig(): (c: Config)
    ensures c.provider == "auto" && c.trustIP == map[]
    ensures c.autoRefresh && c.refreshInterval == "12h" && !c.debug
  {
    Config("auto", map[], true, "12h", false)
  }
}
