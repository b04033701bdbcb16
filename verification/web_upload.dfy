/**
 * The browser-upload state machine of `AViShaOTA::handleUpdate`
 * (src/AViShaOTA.cpp:323-437) and its completion handler
 * `handleUpdateFinish` (src/AViShaOTA.cpp:299-320), as functions on the part
 * of the service's state they touch. The class in module Service runs the
 * same steps imperatively and is proved to agree with `Step` and `Finish`.
 */
module WebUpload {
  import opened Optional
  import opened Effects
  import opened FormArgs
  import OtaConfig

  /**
   * One call of the upload handler: the web server's upload status, with the
   * answer the sink gives to the call this status leads to (the sink is a
   * platform library, so its answers are inputs): whether `Update.begin`
   * succeeded, how many bytes `Update.write` accepted, what `Update.end`
   * returned.
   */
  datatype UploadEvent =
    | FileStart(filename: string, form: Form, beginOk: bool)
    | FileWrite(chunk: seq<Byte>, accepted: nat)
    | FileEnd(endOk: bool)
    | FileAborted(endOk: bool)

  /**
   * The state the upload handlers read and write: the two persistent
   * password flags, the in-progress flag, the sink's error flag and the log
   * of effects.
   */
  datatype UploadState = UploadState(
    passwordChecked: bool,
    passwordValid: bool,
    webUpdateInProgress: bool,
    updateHasError: bool,
    effects: seq<Effect>)

  /** The configuration the handlers only read. */
  datatype Context = Context(
    otaPassword: string,
    onWebUpdateStart: Option<Handler>,
    onWebUpdateEnd: Option<Handler>)

  predicate Authorised(s: UploadState) {
    s.passwordChecked && s.passwordValid
  }

  /** Whether a FILE_START carrying `form` passes the password check. */
  predicate StartAccepted(ctx: Context, form: Form) {
    PasswordAccepted(ctx.otaPassword, ReceivedPassword(form))
  }

  /** A call on the sink: log it and update the sink's error flag. */
  function CallSink(s: UploadState, call: SinkCall, ok: bool): UploadState {
    s.(updateHasError := SinkErrorAfter(s.updateHasError, call, ok),
       effects := s.effects + [SinkCalled(call)])
  }

  /** One call of `handleUpdate`. */
  function Step(ctx: Context, s: UploadState, ev: UploadEvent): UploadState {
    match ev
    case FileStart(_, form, beginOk) =>
      var reset := s.(passwordChecked := false, passwordValid := false);
      if !StartAccepted(ctx, form) then
        reset.(effects := s.effects + [Sent(HTTP_UNAUTHORIZED)])
      else
        var started := reset.(passwordChecked := true, passwordValid := true,
                              webUpdateInProgress := true,
                              effects := s.effects + Invoke(ctx.onWebUpdateStart, WebUpdateStarted));
        var begun := CallSink(started, Begin(UPDATE_SIZE_UNKNOWN), beginOk);
        if beginOk then begun else begun.(webUpdateInProgress := false)
    case FileWrite(chunk, accepted) =>
      if !Authorised(s) then s
      else
        var written := CallSink(s, Write(chunk), accepted == |chunk|);
        if accepted == |chunk| then written else written.(webUpdateInProgress := false)
    case FileEnd(endOk) =>
      if !Authorised(s) then s
      else
        var ended := CallSink(s, End(true), endOk);
        if endOk then ended else ended.(webUpdateInProgress := false)
    case FileAborted(endOk) =>
      CallSink(s, End(false), endOk).(webUpdateInProgress := false)
  }

  /** `handleUpdateFinish`, run once the request's upload events are over. */
  function Finish(ctx: Context, s: UploadState): UploadState {
    var cleared := s.(webUpdateInProgress := false);
    if s.updateHasError then
      cleared.(effects := s.effects + [Sent(HTTP_SERVER_ERROR)] +
                          Invoke(ctx.onWebUpdateEnd, WebUpdateEnded(false)))
    else
      cleared.(effects := s.effects + [Sent(HTTP_OK)] +
                          Invoke(ctx.onWebUpdateEnd, WebUpdateEnded(true)) + [Restarted])
  }

  /** The handler applied to a sequence of upload events, in order. */
  function Run(ctx: Context, s: UploadState, trace: seq<UploadEvent>): UploadState
    decreases |trace|
  {
    if trace == [] then s else Run(ctx, Step(ctx, s, trace[0]), trace[1..])
  }

  /** The events of a run of chunks, each answered by the sink with the matching count. */
  function Writes(chunks: seq<seq<Byte>>, accepted: seq<nat>): (trace: seq<UploadEvent>)
    requires |accepted| == |chunks|
    ensures |trace| == |chunks|
    ensures forall i :: 0 <= i < |chunks| ==> trace[i] == FileWrite(chunks[i], accepted[i])
  {
    if chunks == [] then [] else [FileWrite(chunks[0], accepted[0])] + Writes(chunks[1..], accepted[1..])
  }

  function Lengths(chunks: seq<seq<Byte>>): (ns: seq<nat>)
    ensures |ns| == |chunks|
    ensures forall i :: 0 <= i < |chunks| ==> ns[i] == |chunks[i]|
  {
    if chunks == [] then [] else [|chunks[0]|] + Lengths(chunks[1..])
  }

  /** The sink calls that forward each chunk in turn. */
  function WriteCalls(chunks: seq<seq<Byte>>): (log: seq<Effect>)
    ensures |log| == |chunks|
    ensures forall i :: 0 <= i < |chunks| ==> log[i] == SinkCalled(Write(chunks[i]))
  {
    if chunks == [] then [] else [SinkCalled(Write(chunks[0]))] + WriteCalls(chunks[1..])
  }

  function TotalLength(chunks: seq<seq<Byte>>): nat {
    if chunks == [] then 0 else |chunks[0]| + TotalLength(chunks[1..])
  }

  // ----- One event at a time -----

  /**
   * A FILE_START with a configured password and a different received
   * password answers 401, leaves both password flags false, calls neither
   * the sink nor the start callback, and does not touch the in-progress flag.
   */
  lemma RejectedStart(ctx: Context, s: UploadState, filename: string, form: Form, beginOk: bool)
    requires ctx.otaPassword != "" && ReceivedPassword(form) != ctx.otaPassword
    ensures var r := Step(ctx, s, FileStart(filename, form, beginOk));
      && r.effects == s.effects + [Sent(HTTP_UNAUTHORIZED)]
      && !r.passwordChecked && !r.passwordValid
      && r.webUpdateInProgress == s.webUpdateInProgress
      && r.updateHasError == s.updateHasError
  {
  }

  /** Both flags end up set by a FILE_START exactly when the password check passes. */
  lemma StartAuthorisesIff(ctx: Context, s: UploadState, filename: string, form: Form, beginOk: bool)
    ensures var r := Step(ctx, s, FileStart(filename, form, beginOk));
      && r.passwordChecked == r.passwordValid
      && (r.passwordValid <==> ctx.otaPassword == "" || ReceivedPassword(form) == ctx.otaPassword)
  {
  }

  /** With no configured password, any FILE_START is authorised, whatever was sent. */
  lemma OpenStartAuthorisesAnyRequest(ctx: Context, s: UploadState, filename: string, form: Form, beginOk: bool)
    requires ctx.otaPassword == ""
    ensures Authorised(Step(ctx, s, FileStart(filename, form, beginOk)))
  {
  }

  /**
   * An authorised FILE_START fires the start callback and then calls
   * `Update.begin(UPDATE_SIZE_UNKNOWN)`, whether or not an upload is already
   * in progress; if begin fails the in-progress flag is cleared again while
   * the password flags stay set.
   */
  lemma AuthorisedStart(ctx: Context, s: UploadState, filename: string, form: Form, beginOk: bool)
    requires StartAccepted(ctx, form)
    ensures var r := Step(ctx, s, FileStart(filename, form, beginOk));
      && r.effects == s.effects + Invoke(ctx.onWebUpdateStart, WebUpdateStarted)
                                + [SinkCalled(Begin(UPDATE_SIZE_UNKNOWN))]
      && Authorised(r)
      && r.webUpdateInProgress == beginOk
      && r.updateHasError == !beginOk
  {
  }

  /** FILE_WRITE and FILE_END change nothing at all unless both password flags are set. */
  lemma GatedEventsIgnoredUnlessAuthorised(ctx: Context, s: UploadState, ev: UploadEvent)
    requires ev.FileWrite? || ev.FileEnd?
    requires !Authorised(s)
    ensures Step(ctx, s, ev) == s
  {
  }

  /**
   * An authorised FILE_WRITE hands the whole chunk to the sink; a short
   * write clears the in-progress flag but keeps the password flags, so later
   * chunks are still forwarded.
   */
  lemma AuthorisedWrite(ctx: Context, s: UploadState, chunk: seq<Byte>, accepted: nat)
    requires Authorised(s)
    ensures var r := Step(ctx, s, FileWrite(chunk, accepted));
      && r.effects == s.effects + [SinkCalled(Write(chunk))]
      && Authorised(r)
      && r.webUpdateInProgress == (s.webUpdateInProgress && accepted == |chunk|)
      && r.updateHasError == (s.updateHasError || accepted != |chunk|)
  {
  }

  /** An authorised FILE_END calls `Update.end(true)`; a failure clears the in-progress flag. */
  lemma AuthorisedEnd(ctx: Context, s: UploadState, endOk: bool)
    requires Authorised(s)
    ensures var r := Step(ctx, s, FileEnd(endOk));
      && r.effects == s.effects + [SinkCalled(End(true))]
      && Authorised(r)
      && r.webUpdateInProgress == (s.webUpdateInProgress && endOk)
      && r.updateHasError == (s.updateHasError || !endOk)
  {
  }

  /** FILE_ABORTED always calls `Update.end()` and clears the in-progress flag, authorised or not. */
  lemma AbortAlwaysEndsSink(ctx: Context, s: UploadState, endOk: bool)
    ensures var r := Step(ctx, s, FileAborted(endOk));
      && r.effects == s.effects + [SinkCalled(End(false))]
      && !r.webUpdateInProgress
      && r.passwordChecked == s.passwordChecked && r.passwordValid == s.passwordValid
  {
  }

  /**
   * The completion handler clears the in-progress flag and keeps the
   * password flags. On a sink error it answers 500 and reports failure and
   * does not restart; otherwise it answers 200, reports success and then
   * restarts.
   */
  lemma FinishOutcome(ctx: Context, s: UploadState)
    ensures var r := Finish(ctx, s);
      && !r.webUpdateInProgress
      && r.passwordChecked == s.passwordChecked && r.passwordValid == s.passwordValid
      && r.updateHasError == s.updateHasError
      && (s.updateHasError ==>
            r.effects == s.effects + [Sent(HTTP_SERVER_ERROR)] + Invoke(ctx.onWebUpdateEnd, WebUpdateEnded(false)))
      && (!s.updateHasError ==>
            r.effects == s.effects + [Sent(HTTP_OK)] + Invoke(ctx.onWebUpdateEnd, WebUpdateEnded(true)) + [Restarted])
      && (Restarted in r.effects[|s.effects|..] <==> !s.updateHasError)
  {
    var r := Finish(ctx, s);
    if s.updateHasError {
      assert r.effects[|s.effects|..] == [Sent(HTTP_SERVER_ERROR)] + Invoke(ctx.onWebUpdateEnd, WebUpdateEnded(false));
    } else {
      assert r.effects[|s.effects|..] == [Sent(HTTP_OK)] + Invoke(ctx.onWebUpdateEnd, WebUpdateEnded(true)) + [Restarted];
    }
  }

  // ----- Sequences of events -----

  lemma {:induction false} RunAppend(ctx: Context, s: UploadState, t1: seq<UploadEvent>, t2: seq<UploadEvent>)
    ensures Run(ctx, s, t1 + t2) == Run(ctx, Run(ctx, s, t1), t2)
    decreases |t1|
  {
    if t1 == [] {
      assert t1 + t2 == t2;
    } else {
      assert (t1 + t2)[0] == t1[0];
      assert (t1 + t2)[1..] == t1[1..] + t2;
      RunAppend(ctx, Step(ctx, s, t1[0]), t1[1..], t2);
    }
  }

  /** Without both password flags, any run of FILE_WRITE and FILE_END events is a no-op. */
  lemma {:induction false} UnauthorisedRunIsNoOp(ctx: Context, s: UploadState, trace: seq<UploadEvent>)
    requires !Authorised(s)
    requires forall i :: 0 <= i < |trace| ==> trace[i].FileWrite? || trace[i].FileEnd?
    ensures Run(ctx, s, trace) == s
    decreases |trace|
  {
    if trace != [] {
      GatedEventsIgnoredUnlessAuthorised(ctx, s, trace[0]);
      UnauthorisedRunIsNoOp(ctx, s, trace[1..]);
    }
  }

  /**
   * After a rejected FILE_START, the chunks and the end of the same upload
   * never reach the sink: the whole upload only answers 401 and clears the
   * password flags.
   */
  lemma RejectedUploadNeverReachesSink(ctx: Context, s: UploadState, filename: string, form: Form,
                                       beginOk: bool, rest: seq<UploadEvent>)
    requires ctx.otaPassword != "" && ReceivedPassword(form) != ctx.otaPassword
    requires forall i :: 0 <= i < |rest| ==> rest[i].FileWrite? || rest[i].FileEnd?
    ensures var r := Run(ctx, s, [FileStart(filename, form, beginOk)] + rest);
      && r.effects == s.effects + [Sent(HTTP_UNAUTHORIZED)]
      && !r.passwordChecked && !r.passwordValid
      && r.webUpdateInProgress == s.webUpdateInProgress
      && r.updateHasError == s.updateHasError
  {
    var start := [FileStart(filename, form, beginOk)];
    RunAppend(ctx, s, start, rest);
    assert Run(ctx, s, start) == Step(ctx, s, start[0]);
    RejectedStart(ctx, s, filename, form, beginOk);
    UnauthorisedRunIsNoOp(ctx, Step(ctx, s, start[0]), rest);
  }

  /**
   * Once authorised, every chunk is handed to the sink in order, whatever
   * the sink answers: a short write clears the in-progress flag and sets the
   * sink's error, but does not stop later chunks from being forwarded.
   */
  lemma {:induction false} AuthorisedWritesAllForwarded(ctx: Context, s: UploadState,
                                                        chunks: seq<seq<Byte>>, accepted: seq<nat>)
    requires Authorised(s)
    requires |accepted| == |chunks|
    ensures var r := Run(ctx, s, Writes(chunks, accepted));
      && r.effects == s.effects + WriteCalls(chunks)
      && Authorised(r)
      && r.webUpdateInProgress == (s.webUpdateInProgress && forall i :: 0 <= i < |chunks| ==> accepted[i] == |chunks[i]|)
      && r.updateHasError == (s.updateHasError || exists i :: 0 <= i < |chunks| && accepted[i] != |chunks[i]|)
    decreases |chunks|
  {
    if chunks != [] {
      var t := Writes(chunks, accepted);
      assert t[1..] == Writes(chunks[1..], accepted[1..]);
      var s1 := Step(ctx, s, t[0]);
      AuthorisedWrite(ctx, s, chunks[0], accepted[0]);
      AuthorisedWritesAllForwarded(ctx, s1, chunks[1..], accepted[1..]);
      assert WriteCalls(chunks) == [SinkCalled(Write(chunks[0]))] + WriteCalls(chunks[1..]);
      var r := Run(ctx, s, t);
      assert r == Run(ctx, s1, t[1..]);
      assert r.effects == s.effects + WriteCalls(chunks);
      if forall i :: 0 <= i < |chunks| ==> accepted[i] == |chunks[i]| {
        assert forall i :: 0 <= i < |chunks| - 1 ==> accepted[1..][i] == |chunks[1..][i]| by {
          forall i | 0 <= i < |chunks| - 1 ensures accepted[1..][i] == |chunks[1..][i]| {
            assert accepted[i + 1] == |chunks[i + 1]|;
          }
        }
      } else {
        var k :| 0 <= k < |chunks| && accepted[k] != |chunks[k]|;
        if k > 0 {
          assert accepted[1..][k - 1] != |chunks[1..][k - 1]|;
        }
      }
      if exists i :: 0 <= i < |chunks| - 1 && accepted[1..][i] != |chunks[1..][i]| {
        var k :| 0 <= k < |chunks| - 1 && accepted[1..][k] != |chunks[1..][k]|;
        assert accepted[k + 1] != |chunks[k + 1]|;
      }
    }
  }

  lemma {:induction false} TotalLengthIsBytesForwarded(chunks: seq<seq<Byte>>)
    ensures BytesForwarded(WriteCalls(chunks)) == TotalLength(chunks)
    decreases |chunks|
  {
    if chunks != [] {
      var log := WriteCalls(chunks);
      assert log[1..] == WriteCalls(chunks[1..]);
      TotalLengthIsBytesForwarded(chunks[1..]);
    }
  }

  /**
   * A complete authorised upload whose every sink call succeeds: the start
   * callback, `Update.begin`, each chunk in order, `Update.end(true)`; the
   * sink has received exactly the bytes of the chunks, and the completion
   * handler answers 200, reports success and restarts.
   */
  lemma SuccessfulUpload(ctx: Context, s: UploadState, filename: string, form: Form,
                         chunks: seq<seq<Byte>>)
    requires StartAccepted(ctx, form)
    ensures var r := Run(ctx, s, [FileStart(filename, form, true)] + Writes(chunks, Lengths(chunks)) + [FileEnd(true)]);
      && r == s.(passwordChecked := true, passwordValid := true,
                 webUpdateInProgress := true, updateHasError := false,
                 effects := s.effects + Invoke(ctx.onWebUpdateStart, WebUpdateStarted)
                                      + [SinkCalled(Begin(UPDATE_SIZE_UNKNOWN))]
                                      + WriteCalls(chunks) + [SinkCalled(End(true))])
      && BytesForwarded(r.effects) == BytesForwarded(s.effects) + TotalLength(chunks)
      && Finish(ctx, r).effects == r.effects + [Sent(HTTP_OK)]
                                  + Invoke(ctx.onWebUpdateEnd, WebUpdateEnded(true)) + [Restarted]
  {
    var start := [FileStart(filename, form, true)];
    var writes := Writes(chunks, Lengths(chunks));
    var finish := [FileEnd(true)];
    RunAppend(ctx, s, start + writes, finish);
    RunAppend(ctx, s, start, writes);
    var s1 := Step(ctx, s, start[0]);
    assert Run(ctx, s, start) == s1;
    AuthorisedStart(ctx, s, filename, form, true);
    var s2 := Run(ctx, s1, writes);
    AuthorisedWritesAllForwarded(ctx, s1, chunks, Lengths(chunks));
    assert !exists i :: 0 <= i < |chunks| && Lengths(chunks)[i] != |chunks[i]|;
    assert Run(ctx, s2, finish) == Step(ctx, s2, finish[0]);
    AuthorisedEnd(ctx, s2, true);
    var r := Step(ctx, s2, finish[0]);
    var prefix := s.effects + Invoke(ctx.onWebUpdateStart, WebUpdateStarted)
                            + [SinkCalled(Begin(UPDATE_SIZE_UNKNOWN))];
    assert r.effects == prefix + WriteCalls(chunks) + [SinkCalled(End(true))];
    BytesForwardedAppend(s.effects, Invoke(ctx.onWebUpdateStart, WebUpdateStarted));
    BytesForwardedAppend(s.effects + Invoke(ctx.onWebUpdateStart, WebUpdateStarted),
                         [SinkCalled(Begin(UPDATE_SIZE_UNKNOWN))]);
    BytesForwardedAppend(prefix, WriteCalls(chunks));
    BytesForwardedAppend(prefix + WriteCalls(chunks), [SinkCalled(End(true))]);
    TotalLengthIsBytesForwarded(chunks);
  }

  /** The default configuration admits every upload, whatever password it carries. */
  lemma DefaultConfigAdmitsAnyUpload(onStart: Option<Handler>, onEnd: Option<Handler>, form: Form)
    ensures StartAccepted(Context(OtaConfig.DefaultConfig().otaPassword, onStart, onEnd), form)
  {
  }

  /** The upload handler only ever appends to the log of effects. */
  lemma {:induction false} RunExtendsEffects(ctx: Context, s: UploadState, trace: seq<UploadEvent>)
    ensures var u := Run(ctx, s, trace);
      |s.effects| <= |u.effects| && u.effects == s.effects + u.effects[|s.effects|..]
    decreases |trace|
  {
    if trace != [] {
      var s1 := Step(ctx, s, trace[0]);
      RunExtendsEffects(ctx, s1, trace[1..]);
      var u := Run(ctx, s1, trace[1..]);
      assert s1.effects == s.effects + s1.effects[|s.effects|..];
      assert u.effects == s.effects + (s1.effects[|s.effects|..] + u.effects[|s1.effects|..]);
    }
  }

  /** Once authorised, FILE_WRITE and FILE_END send no response. */
  lemma {:induction false} AuthorisedRunSendsNothing(ctx: Context, s: UploadState, trace: seq<UploadEvent>)
    requires Authorised(s)
    requires forall i :: 0 <= i < |trace| ==> trace[i].FileWrite? || trace[i].FileEnd?
    ensures var u := Run(ctx, s, trace);
      |s.effects| <= |u.effects| && Responses(u.effects[|s.effects|..]) == []
    decreases |trace|
  {
    RunExtendsEffects(ctx, s, trace);
    if trace != [] {
      var s1 := Step(ctx, s, trace[0]);
      if trace[0].FileWrite? {
        AuthorisedWrite(ctx, s, trace[0].chunk, trace[0].accepted);
      } else {
        AuthorisedEnd(ctx, s, trace[0].endOk);
      }
      AuthorisedRunSendsNothing(ctx, s1, trace[1..]);
      RunExtendsEffects(ctx, s1, trace[1..]);
      var u := Run(ctx, s1, trace[1..]);
      var call := s1.effects[|s.effects|..];
      assert u.effects[|s.effects|..] == call + u.effects[|s1.effects|..];
      ResponsesAppend(call, u.effects[|s1.effects|..]);
    }
  }

  // ----- Finding: the completion handler ignores the password check -----

  /**
   * As written, `handleUpdateFinish` looks only at the sink's error flag.
   * After a FILE_START refused with 401, a sink that has seen no error makes
   * it answer 200 as well, report success to the end callback, and restart
   * the device: an unauthenticated upload reboots it.
   */
  lemma RejectedUploadStillRestarts(ctx: Context, s: UploadState, filename: string, form: Form,
                                    beginOk: bool, rest: seq<UploadEvent>)
    requires ctx.otaPassword != "" && ReceivedPassword(form) != ctx.otaPassword
    requires forall i :: 0 <= i < |rest| ==> rest[i].FileWrite? || rest[i].FileEnd?
    requires !s.updateHasError
    ensures var r := Finish(ctx, Run(ctx, s, [FileStart(filename, form, beginOk)] + rest));
      r.effects == s.effects + [Sent(HTTP_UNAUTHORIZED), Sent(HTTP_OK)]
                 + Invoke(ctx.onWebUpdateEnd, WebUpdateEnded(true)) + [Restarted]
  {
    RejectedUploadNeverReachesSink(ctx, s, filename, form, beginOk, rest);
  }

  /**
   * As written, a POST to the update route that carries no file part never
   * reaches the upload handler and its password check at all; on a sink
   * without error (as on a freshly booted device) the completion handler
   * answers 200, reports success and restarts the device, whatever password
   * is configured.
   */
  lemma RequestWithoutFileStillRestarts(ctx: Context, s: UploadState)
    requires !s.updateHasError
    ensures var r := Finish(ctx, Run(ctx, s, []));
      && Responses(r.effects[|s.effects|..]) == [HTTP_OK]
      && Restarted in r.effects[|s.effects|..]
  {
    var r := Finish(ctx, s);
    var tail := Invoke(ctx.onWebUpdateEnd, WebUpdateEnded(true)) + [Restarted];
    assert r.effects[|s.effects|..] == [Sent(HTTP_OK)] + tail;
    ResponsesAppend([Sent(HTTP_OK)], tail);
    ResponsesAppend(Invoke(ctx.onWebUpdateEnd, WebUpdateEnded(true)), [Restarted]);
    assert r.effects[|r.effects| - 1] == Restarted;
  }

  /**
   * The completion handler as evidently intended. A request whose password
   * check passed is finished as `Finish` does; one that did not pass is
   * answered 401 unless the upload handler already answered it, and is
   * neither reported nor restarted. Either way the password flags are
   * cleared, so they never carry over into the next request.
   */
  function FinishGuarded(ctx: Context, s: UploadState, responded: bool): UploadState {
    if Authorised(s) then Finish(ctx, s).(passwordChecked := false, passwordValid := false)
    else
      var cleared := s.(passwordChecked := false, passwordValid := false, webUpdateInProgress := false);
      if responded then cleared else cleared.(effects := s.effects + [Sent(HTTP_UNAUTHORIZED)])
  }

  /** One whole request under the corrected completion handler: its upload events, then the completion. */
  function RequestGuarded(ctx: Context, s: UploadState, trace: seq<UploadEvent>): UploadState {
    var u := Run(ctx, s, trace);
    RunExtendsEffects(ctx, s, trace);
    FinishGuarded(ctx, u, Responses(u.effects[|s.effects|..]) != [])
  }

  /**
   * With the corrected handler, a request without an accepted file start
   * (no file part at all, starting between requests with the flags clear)
   * is answered 401 once and changes nothing else that is visible.
   */
  lemma GuardedRequestWithoutFileAnswers401(ctx: Context, s: UploadState, rest: seq<UploadEvent>)
    requires !Authorised(s)
    requires forall i :: 0 <= i < |rest| ==> rest[i].FileWrite? || rest[i].FileEnd?
    ensures var r := RequestGuarded(ctx, s, rest);
      && r.effects == s.effects + [Sent(HTTP_UNAUTHORIZED)]
      && !r.passwordChecked && !r.passwordValid && !r.webUpdateInProgress
  {
    UnauthorisedRunIsNoOp(ctx, s, rest);
    assert Run(ctx, s, rest).effects[|s.effects|..] == [];
  }

  /** The corrected completion of a request whose password check passed. */
  lemma GuardedFinishOfAuthorised(ctx: Context, u: UploadState, responded: bool)
    requires Authorised(u)
    ensures var r := FinishGuarded(ctx, u, responded);
      && |u.effects| <= |r.effects| && r.effects[..|u.effects|] == u.effects
      && Responses(r.effects[|u.effects|..]) == [if u.updateHasError then HTTP_SERVER_ERROR else HTTP_OK]
      && (Restarted in r.effects[|u.effects|..] <==> !u.updateHasError)
      && !r.passwordChecked && !r.passwordValid
  {
    var r := FinishGuarded(ctx, u, responded);
    assert r.effects == Finish(ctx, u).effects;
    if u.updateHasError {
      var callback := Invoke(ctx.onWebUpdateEnd, WebUpdateEnded(false));
      assert r.effects[|u.effects|..] == [Sent(HTTP_SERVER_ERROR)] + callback;
      ResponsesAppend([Sent(HTTP_SERVER_ERROR)], callback);
    } else {
      var callback := Invoke(ctx.onWebUpdateEnd, WebUpdateEnded(true));
      assert r.effects[|u.effects|..] == [Sent(HTTP_OK)] + (callback + [Restarted]);
      ResponsesAppend([Sent(HTTP_OK)], callback + [Restarted]);
      ResponsesAppend(callback, [Restarted]);
    }
  }

  /** The upload events of a request whose FILE_START passed the password check send no response. */
  lemma AcceptedUploadSendsNothing(ctx: Context, s: UploadState, filename: string, form: Form,
                                   beginOk: bool, rest: seq<UploadEvent>)
    requires StartAccepted(ctx, form)
    requires forall i :: 0 <= i < |rest| ==> rest[i].FileWrite? || rest[i].FileEnd?
    ensures var u := Run(ctx, s, [FileStart(filename, form, beginOk)] + rest);
      && Authorised(u)
      && |s.effects| <= |u.effects| && Responses(u.effects[|s.effects|..]) == []
  {
    var start := [FileStart(filename, form, beginOk)];
    var u := Run(ctx, s, start + rest);
    RunAppend(ctx, s, start, rest);
    var s1 := Step(ctx, s, start[0]);
    assert Run(ctx, s, start) == s1;
    AuthorisedStart(ctx, s, filename, form, beginOk);
    AuthorisedRunStaysAuthorised(ctx, s1, rest);
    AuthorisedRunSendsNothing(ctx, s1, rest);
    RunExtendsEffects(ctx, s1, rest);
    var started := Invoke(ctx.onWebUpdateStart, WebUpdateStarted) + [SinkCalled(Begin(UPDATE_SIZE_UNKNOWN))];
    assert s1.effects == s.effects + started;
    assert u.effects[|s.effects|..] == started + u.effects[|s1.effects|..];
    ResponsesAppend(Invoke(ctx.onWebUpdateStart, WebUpdateStarted), [SinkCalled(Begin(UPDATE_SIZE_UNKNOWN))]);
    ResponsesAppend(started, u.effects[|s1.effects|..]);
  }

  /**
   * With the corrected handler, an upload request with one file part gets exactly one response
   * (401 when its password check failed, else 500 or 200 by the sink's
   * error), restarts the device exactly when the check passed and the sink
   * has no error, and leaves the password flags clear for the next request.
   */
  lemma GuardedRequestRestartsOnlyAfterAuthorisedUpload(ctx: Context, s: UploadState, filename: string,
                                                        form: Form, beginOk: bool, rest: seq<UploadEvent>)
    requires forall i :: 0 <= i < |rest| ==> rest[i].FileWrite? || rest[i].FileEnd?
    ensures var trace := [FileStart(filename, form, beginOk)] + rest;
      var u := Run(ctx, s, trace);
      var r := RequestGuarded(ctx, s, trace);
      && |s.effects| <= |u.effects| <= |r.effects|
      && (Restarted in r.effects[|u.effects|..] <==> StartAccepted(ctx, form) && !u.updateHasError)
      && Responses(r.effects[|s.effects|..]) ==
           (if !StartAccepted(ctx, form) then [HTTP_UNAUTHORIZED]
            else if u.updateHasError then [HTTP_SERVER_ERROR] else [HTTP_OK])
      && !r.passwordChecked && !r.passwordValid
  {
    var trace := [FileStart(filename, form, beginOk)] + rest;
    var u := Run(ctx, s, trace);
    var r := RequestGuarded(ctx, s, trace);
    RunExtendsEffects(ctx, s, trace);
    if StartAccepted(ctx, form) {
      AcceptedUploadSendsNothing(ctx, s, filename, form, beginOk, rest);
      GuardedFinishOfAuthorised(ctx, u, false);
      assert r.effects[|s.effects|..] == u.effects[|s.effects|..] + r.effects[|u.effects|..];
      ResponsesAppend(u.effects[|s.effects|..], r.effects[|u.effects|..]);
    } else {
      RejectedUploadNeverReachesSink(ctx, s, filename, form, beginOk, rest);
      assert u.effects[|s.effects|..] == [Sent(HTTP_UNAUTHORIZED)];
      assert r.effects == u.effects;
    }
  }

  /** FILE_WRITE and FILE_END never clear the password flags. */
  lemma {:induction false} AuthorisedRunStaysAuthorised(ctx: Context, s: UploadState, trace: seq<UploadEvent>)
    requires Authorised(s)
    requires forall i :: 0 <= i < |trace| ==> trace[i].FileWrite? || trace[i].FileEnd?
    ensures Authorised(Run(ctx, s, trace))
    decreases |trace|
  {
    if trace != [] {
      AuthorisedRunStaysAuthorised(ctx, Step(ctx, s, trace[0]), trace[1..]);
    }
  }
}
