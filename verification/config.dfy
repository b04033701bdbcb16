/**
 * Compile-time defaults of the library and the `Config` record whose default
 * constructor is built from them (src/AViShaOTA.h).
 */
module OtaConfig {

  const VERSION: string := "1.2.0"
  const DEFAULT_PORT: int := 80
  const DEFAULT_HOSTNAME: string := "AViShaOTA_ESP32"
  /** Milliseconds the station waits to associate with the access point. */
  const WIFI_TIMEOUT_MS: nat := 30000
  /** Milliseconds allowed for a browser upload (declared, never enforced). */
  const UPLOAD_TIMEOUT_MS: nat := 300000

  /** `unsigned long` on the ESP32 is 32 bits wide. */
  newtype ULong = x: int | 0 <= x < 0x1_0000_0000

  datatype Config = Config(
    hostname: string,
    otaPassword: string,
    serverPort: int,
    mdnsEnabled: bool,
    serialDebug: bool,
    autoReconnect: bool,
    wifiTimeout: ULong,
    uploadTimeout: ULong)

  /** An empty update password switches authentication off. */
  predicate AuthenticationRequired(c: Config) {
    c.otaPassword != ""
  }

  /** The record produced by `Config()`. */
  function DefaultConfig(): (c: Config)
    ensures c.hostname == DEFAULT_HOSTNAME
    ensures !AuthenticationRequired(c)
    ensures c.serverPort == DEFAULT_PORT == 80
    ensures c.mdnsEnabled && c.serialDebug && c.autoReconnect
    ensures c.wifiTimeout as int == WIFI_TIMEOUT_MS == 30000
    ensures c.uploadTimeout as int == UPLOAD_TIMEOUT_MS == 300000
  {
    Config(
      hostname := DEFAULT_HOSTNAME,
      otaPassword := "",
      serverPort := DEFAULT_PORT,
      mdnsEnabled := true,
      serialDebug := true,
      autoReconnect := true,
      wifiTimeout := WIFI_TIMEOUT_MS as ULong,
      uploadTimeout := UPLOAD_TIMEOUT_MS as ULong)
  }
}
