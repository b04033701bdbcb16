/**
 * The `AViShaOTA` object (src/AViShaOTA.h:22-195, src/AViShaOTA.cpp): its
 * fields, the callback registration, the lifecycle guards, the ArduinoOTA
 * and WiFi event handlers, and the browser-upload handlers, which are proved
 * to run the state machine of module WebUpload.
 */
module Service {
  import opened Optional
  import opened Effects
  import opened FormArgs
  import opened WebUpload
  import OtaConfig
  import UploadUrl

  /** The WiFi events `handleWiFiEvent` distinguishes; every other event is `Other`. */
  datatype WiFiEvent = StaDisconnected | StaConnected | StaGotIp | Other(code: int)

  class AViShaOta {
    var hostname: string
    var otaPassword: string
    var serverPort: int
    /** Whether `server` points to a web server (it is `nullptr` until `begin` creates one). */
    var hasServer: bool

    var mdnsEnabled: bool
    var serialDebug: bool
    /** Never assigned by the constructor, so its initial value is unspecified. */
    var autoReconnect: bool

    var isInitialized: bool
    var otaInProgress: bool
    var webUpdateInProgress: bool

    var onStartCallback: Option<Handler>
    var onEndCallback: Option<Handler>
    var onProgressCallback: Option<Handler>
    var onErrorCallback: Option<Handler>
    var onWiFiConnectedCallback: Option<Handler>
    var onWiFiDisconnectedCallback: Option<Handler>
    var onWebUpdateStartCallback: Option<Handler>
    var onWebUpdateEndCallback: Option<Handler>

    /** The two function-static flags of `handleUpdate`; they outlive every request. */
    var passwordChecked: bool
    var passwordValid: bool

    /** `Update.hasError()`: the error flag of the platform's update sink. */
    var updateHasError: bool

    /** Everything observable the object has done so far, in order. */
    var effects: seq<Effect>

    /** The state the upload handlers work on, as module WebUpload sees it. */
    function Snapshot(): UploadState
      reads this
    {
      UploadState(passwordChecked, passwordValid, webUpdateInProgress, updateHasError, effects)
    }

    /** What the upload handlers only read. */
    function Context(): WebUpload.Context
      reads this
    {
      WebUpload.Context(otaPassword, onWebUpdateStartCallback, onWebUpdateEndCallback)
    }

    /**
     * `AViShaOTA(hostname, port)`, with the header's default arguments. The
     * two password flags start false, as function statics do at program
     * start, and the sink starts without an error.
     */
    constructor (hostname: string := OtaConfig.DEFAULT_HOSTNAME, port: int := OtaConfig.DEFAULT_PORT)
      ensures this.hostname == hostname && serverPort == port
      ensures !hasServer && otaPassword == ""
      ensures mdnsEnabled && serialDebug
      ensures !isInitialized && !otaInProgress && !webUpdateInProgress
      ensures onStartCallback.None? && onEndCallback.None? && onProgressCallback.None?
      ensures onErrorCallback.None? && onWiFiConnectedCallback.None?
      ensures onWiFiDisconnectedCallback.None? && onWebUpdateStartCallback.None?
      ensures onWebUpdateEndCallback.None?
      ensures !passwordChecked && !passwordValid && !updateHasError
      ensures effects == []
    {
      this.hostname := hostname;
      this.serverPort := port;
      hasServer := false;
      otaPassword := "";
      mdnsEnabled := true;
      serialDebug := true;
      isInitialized := false;
      otaInProgress := false;
      webUpdateInProgress := false;
      onStartCallback := None;
      onEndCallback := None;
      onProgressCallback := None;
      onErrorCallback := None;
      onWiFiConnectedCallback := None;
      onWiFiDisconnectedCallback := None;
      onWebUpdateStartCallback := None;
      onWebUpdateEndCallback := None;
      passwordChecked := false;
      passwordValid := false;
      updateHasError := false;
      effects := [];
    }

    // ----- Configuration setters -----

    method SetOtaPassword(password: string)
      modifies this`otaPassword
      ensures otaPassword == password
    {
      otaPassword := password;
    }

    method SetHostname(name: string)
      modifies this`hostname
      ensures hostname == name
    {
      hostname := name;
    }

    method EnableMdns(enable: bool := true)
      modifies this`mdnsEnabled
      ensures mdnsEnabled == enable
    {
      mdnsEnabled := enable;
    }

    method EnableSerialDebug(enable: bool := true)
      modifies this`serialDebug
      ensures serialDebug == enable
    {
      serialDebug := enable;
    }

    // ----- Callback registration: each setter replaces its own slot only -----

    method OnStart(callback: Option<Handler>)
      modifies this`onStartCallback
      ensures onStartCallback == callback
    {
      onStartCallback := callback;
    }

    method OnEnd(callback: Option<Handler>)
      modifies this`onEndCallback
      ensures onEndCallback == callback
    {
      onEndCallback := callback;
    }

    method OnProgress(callback: Option<Handler>)
      modifies this`onProgressCallback
      ensures onProgressCallback == callback
    {
      onProgressCallback := callback;
    }

    method OnError(callback: Option<Handler>)
      modifies this`onErrorCallback
      ensures onErrorCallback == callback
    {
      onErrorCallback := callback;
    }

    method OnWiFiConnected(callback: Option<Handler>)
      modifies this`onWiFiConnectedCallback
      ensures onWiFiConnectedCallback == callback
    {
      onWiFiConnectedCallback := callback;
    }

    method OnWiFiDisconnected(callback: Option<Handler>)
      modifies this`onWiFiDisconnectedCallback
      ensures onWiFiDisconnectedCallback == callback
    {
      onWiFiDisconnectedCallback := callback;
    }

    method OnWebUpdateStart(callback: Option<Handler>)
      modifies this`onWebUpdateStartCallback
      ensures onWebUpdateStartCallback == callback
    {
      onWebUpdateStartCallback := callback;
    }

    method OnWebUpdateEnd(callback: Option<Handler>)
      modifies this`onWebUpdateEndCallback
      ensures onWebUpdateEndCallback == callback
    {
      onWebUpdateEndCallback := callback;
    }

    // ----- Lifecycle -----

    /**
     * `begin(ssid, password)`. An initialised object answers true and does
     * nothing; a missing or empty SSID answers false and does nothing.
     * Otherwise the web server is (re)created, and the object becomes
     * initialised exactly when the station joins the network
     * (`wifiJoined`, the outcome of the 30-second association wait).
     */
    method Begin(ssid: Option<string>, wifiJoined: bool) returns (ok: bool)
      modifies this`hasServer, this`isInitialized
      ensures old(isInitialized) ==> ok && isInitialized && hasServer == old(hasServer)
      ensures !old(isInitialized) && (ssid.None? || ssid.value == "") ==>
                !ok && !isInitialized && hasServer == old(hasServer)
      ensures !old(isInitialized) && ssid.Some? && ssid.value != "" ==>
                hasServer && ok == wifiJoined && isInitialized == wifiJoined
    {
      if isInitialized {
        return true;
      }
      if ssid.None? || |ssid.value| == 0 {
        return false;
      }
      hasServer := true;
      if !wifiJoined {
        return false;
      }
      isInitialized := true;
      return true;
    }

    /**
     * `handle()`: services the ArduinoOTA protocol and the web server's
     * clients only while the station is connected and the object is
     * initialised.
     */
    method Handle(wifiConnected: bool) returns (serviced: bool)
      modifies this`effects
      ensures serviced == (wifiConnected && isInitialized)
      ensures effects == old(effects) +
                (if serviced then [OtaServiced] + (if hasServer then [ClientsServed] else []) else [])
    {
      serviced := wifiConnected && isInitialized;
      if serviced {
        effects := effects + [OtaServiced];
        if hasServer {
          effects := effects + [ClientsServed];
        }
      }
    }

    /** `end()`: the object is no longer initialised and no update is in progress. */
    method End()
      modifies this`isInitialized, this`otaInProgress, this`webUpdateInProgress
      ensures !isInitialized && !otaInProgress && !webUpdateInProgress
    {
      isInitialized := false;
      otaInProgress := false;
      webUpdateInProgress := false;
    }

    // ----- ArduinoOTA event handlers -----

    method OtaStarted()
      modifies this`otaInProgress, this`effects
      ensures otaInProgress
      ensures effects == old(effects) + Invoke(onStartCallback, Notice.OtaStarted)
    {
      otaInProgress := true;
      effects := effects + Invoke(onStartCallback, Notice.OtaStarted);
    }

    method OtaEnded()
      modifies this`otaInProgress, this`effects
      ensures !otaInProgress
      ensures effects == old(effects) + Invoke(onEndCallback, Notice.OtaEnded)
    {
      otaInProgress := false;
      effects := effects + Invoke(onEndCallback, Notice.OtaEnded);
    }

    /** Progress reports pass through to the progress callback and change no state. */
    method OtaProgressed(progress: nat, total: nat)
      modifies this`effects
      ensures effects == old(effects) + Invoke(onProgressCallback, OtaProgress(progress, total))
    {
      effects := effects + Invoke(onProgressCallback, OtaProgress(progress, total));
    }

    method OtaErrored(error: OtaError)
      modifies this`otaInProgress, this`effects
      ensures !otaInProgress
      ensures effects == old(effects) + Invoke(onErrorCallback, OtaFailed(error))
    {
      otaInProgress := false;
      effects := effects + Invoke(onErrorCallback, OtaFailed(error));
    }

    // ----- WiFi events -----

    /**
     * `handleWiFiEvent`: losing the station connection reaches the
     * disconnected callback, obtaining an address reaches the connected
     * callback; association alone and all other events reach none.
     */
    method HandleWiFiEvent(event: WiFiEvent)
      modifies this`effects
      ensures event.StaDisconnected? ==> effects == old(effects) + Invoke(onWiFiDisconnectedCallback, WiFiDisconnected)
      ensures event.StaGotIp? ==> effects == old(effects) + Invoke(onWiFiConnectedCallback, WiFiConnected)
      ensures event.StaConnected? || event.Other? ==> effects == old(effects)
    {
      match event
      case StaDisconnected =>
        effects := effects + Invoke(onWiFiDisconnectedCallback, WiFiDisconnected);
      case StaConnected =>
      case StaGotIp =>
        effects := effects + Invoke(onWiFiConnectedCallback, WiFiConnected);
      case Other(_) =>
    }

    /** `getUploadURL`, given the address the network stack reports. */
    method GetUploadUrl(localIp: string) returns (url: string)
      ensures url == UploadUrl.UploadUrl(localIp, serverPort)
    {
      url := "http://" + localIp + ":" + UploadUrl.IntToDecimal(serverPort) + "/";
    }

    // ----- Browser upload -----

    /** A call on the update sink, answered by `ok`. */
    method CallUpdate(call: SinkCall, ok: bool) returns (succeeded: bool)
      modifies this`updateHasError, this`effects
      ensures succeeded == ok
      ensures updateHasError == SinkErrorAfter(old(updateHasError), call, ok)
      ensures effects == old(effects) + [SinkCalled(call)]
    {
      effects := effects + [SinkCalled(call)];
      updateHasError := SinkErrorAfter(updateHasError, call, ok);
      succeeded := ok;
    }

    /** `handleUpdate`: one upload status delivered by the web server. */
    method HandleUpdate(upload: UploadEvent)
      modifies this`passwordChecked, this`passwordValid, this`webUpdateInProgress
      modifies this`updateHasError, this`effects
      ensures Snapshot() == Step(Context(), old(Snapshot()), upload)
    {
      match upload
      case FileStart(_, form, beginOk) =>
        passwordChecked := false;
        passwordValid := false;
        if |otaPassword| > 0 {
          var received := ReadReceivedPassword(form);
          if received != otaPassword {
            effects := effects + [Sent(HTTP_UNAUTHORIZED)];
            return;
          }
          passwordValid := true;
        } else {
          passwordValid := true;
        }
        passwordChecked := true;
        webUpdateInProgress := true;
        effects := effects + Invoke(onWebUpdateStartCallback, WebUpdateStarted);
        var begun := CallUpdate(SinkCall.Begin(UPDATE_SIZE_UNKNOWN), beginOk);
        if !begun {
          webUpdateInProgress := false;
          return;
        }
      case FileWrite(chunk, accepted) =>
        if !passwordChecked || !passwordValid {
          return;
        }
        var written := CallUpdate(Write(chunk), accepted == |chunk|);
        if accepted != |chunk| {
          webUpdateInProgress := false;
          return;
        }
      case FileEnd(endOk) =>
        if !passwordChecked || !passwordValid {
          return;
        }
        var ended := CallUpdate(SinkCall.End(true), endOk);
        if !ended {
          webUpdateInProgress := false;
        }
      case FileAborted(endOk) =>
        var ended := CallUpdate(SinkCall.End(false), endOk);
        webUpdateInProgress := false;
    }

    /** `handleUpdateFinish`: the response once the upload is over. */
    method HandleUpdateFinish()
      modifies this`webUpdateInProgress, this`effects
      ensures Snapshot() == Finish(Context(), old(Snapshot()))
    {
      webUpdateInProgress := false;
      if updateHasError {
        effects := effects + [Sent(HTTP_SERVER_ERROR)];
        effects := effects + Invoke(onWebUpdateEndCallback, WebUpdateEnded(false));
      } else {
        effects := effects + [Sent(HTTP_OK)];
        effects := effects + Invoke(onWebUpdateEndCallback, WebUpdateEnded(true));
        effects := effects + [Restarted];
      }
    }
  }
}
