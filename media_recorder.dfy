/** The Java ViroMediaRecorder: the recording lifecycle (start, the
    asynchronous stop and its runnable, destroy), the screenshot queue the
    renderer drains, and the outcome of persisting one screenshot. The
    device (permissions, storage directories, the Android MediaRecorder,
    GL reads and file writes) enters as parameters; the completions each
    delegate receives are recorded in order. */
module MediaRecorderJava {
  import opened Wrappers

  /** ViroMediaRecorderDelegate.ERROR. */
  datatype ErrorCode = NoError | AlreadyRunning | NoPermissions | WriteToFile | Initialization | AlreadyStopped | Unknown

  /** A completion callback: null, the no-op callback substituted for a
      null argument, or an application delegate. */
  datatype CallbackRef = NullCallback | EmptyCallback | Delegate(id: nat)

  /** One onTaskCompleted call received by an application delegate. */
  datatype Completion = Completion(delegate: nat, success: bool, error: ErrorCode, fileName: Option<string>)

  /** What a call to onTaskCompleted adds to the record: nothing for the
      no-op callback. */
  function Notify(cb: CallbackRef, success: bool, error: ErrorCode, fileName: Option<string>): (r: seq<Completion>)
    ensures |r| <= 1
    ensures r != [] <==> cb.Delegate?
  {
    if cb.Delegate? then [Completion(cb.id, success, error, fileName)] else []
  }

  /** A null argument becomes the no-op callback. */
  function OrEmpty(cb: CallbackRef): (r: CallbackRef)
    ensures r != NullCallback
    ensures cb != NullCallback ==> r == cb
  {
    if cb == NullCallback then EmptyCallback else cb
  }

  /** String.trim().isEmpty(): every character is a space or a control
      character. */
  predicate IsBlank(s: string)
  {
    forall i :: 0 <= i < |s| ==> s[i] <= ' '
  }

  /** The file a recording is written to. */
  function VideoPath(dir: string, fileName: string): (p: string)
    ensures |p| >= 4 && p[|p| - 4..] == ".mp4"
  {
    dir + "/" + fileName + ".mp4"
  }

  /** The recording path is never blank, so the blank-name check of
      prepareAndroidMediaRecorder never fires for a recording started by
      startRecordingAsync. */
  lemma VideoPathNeverBlank(dir: string, fileName: string)
    ensures !IsBlank(VideoPath(dir, fileName))
  {
    var p := VideoPath(dir, fileName);
    assert p[|p| - 3] == 'm';
  }

  /** How the Android MediaRecorder set-up goes: initialisation, prepare
      (an IOException or another exception), then start(). */
  datatype PrepareOutcome = Prepared | InitializationFailed | PrepareIOFailed | PrepareFailed | StartFailed

  /** The error a failed recorder set-up reports: a failed initialisation
      first, then a blank file name, then the exception prepare threw; a
      start() that throws is reported as a failed initialisation. */
  function PrepareError(path: string, outcome: PrepareOutcome): ErrorCode
  {
    if outcome == InitializationFailed then Initialization
    else if IsBlank(path) then WriteToFile
    else if outcome == PrepareFailed || outcome == StartFailed then Initialization
    else WriteToFile
  }

  /** The stop runnable: the error to report and the callback to call. */
  datatype StopTask = StopTask(error: ErrorCode, callback: CallbackRef)

  /** A queued screenshot request. */
  datatype ScreenShot = ScreenShot(width: int, height: int, fileName: string, saveToCameraRoll: bool, callback: CallbackRef)

  // ---------------------------------------------------------------------------
  // Persisting a screenshot
  // ---------------------------------------------------------------------------

  /** How writing the PNG goes: written, or the exception the write threw.
      The output stream is open for every outcome but FileNotFound. */
  datatype WriteOutcome = Written | FileNotFound | OutOfMemory | WriteFailed

  /** The image file of a screenshot. */
  function ImagePath(dir: string, fileName: string): string
  {
    dir + "/" + fileName + ".png"
  }

  /** persistImageData: the onTaskCompleted calls, in order. A failed GL
      read, a missing or uncreatable directory or a failed write reports
      its error; a stream that fails to close reports WRITE_TO_FILE as
      well, after whatever the write reported, and suppresses success. */
  function PersistImageData(shot: ScreenShot, grabbed: bool, appDirPath: Option<string>, dirReady: bool,
                            write: WriteOutcome, closeFails: bool): (r: seq<(bool, ErrorCode, Option<string>)>)
    ensures 1 <= |r| <= 2
    ensures r[|r| - 1].0 <==> grabbed && appDirPath.Some? && dirReady && write == Written && !closeFails
    ensures r[|r| - 1].0 ==> r == [(true, NoError, Some(ImagePath(appDirPath.value, shot.fileName)))]
    ensures |r| == 2 ==> closeFails && write != Written && write != FileNotFound && !r[0].0 && !r[1].0
  {
    if !grabbed then [(false, Unknown, None)]
    else if appDirPath.None? || !dirReady then [(false, WriteToFile, None)]
    else
      var closing := if closeFails && write != FileNotFound then [(false, WriteToFile, None)] else [];
      match write
      case FileNotFound => [(false, WriteToFile, None)]
      case OutOfMemory => [(false, WriteToFile, None)] + closing
      case WriteFailed => [(false, Unknown, None)] + closing
      case Written => if closeFails then closing else [(true, NoError, Some(ImagePath(appDirPath.value, shot.fileName)))]
  }

  // ---------------------------------------------------------------------------
  // The recorder
  // ---------------------------------------------------------------------------

  class MediaRecorder {
    const viewportWidth: int
    const viewportHeight: int
    var isRecording: bool
    var pendingStop: bool
    var isPendingDestroy: bool
    /** Whether nativeDeleteNativeRecorder has been called. */
    var nativeDeleted: bool
    /** The last value passed to nativeEnableFrameRecording. */
    var frameRecording: bool
    var recordingFilename: Option<string>
    var errorDelegate: CallbackRef
    var stopRunnable: Option<StopTask>
    var queuedScreenShots: seq<ScreenShot>
    /** The number of nativeScheduleScreenCapture calls. */
    var scheduledCaptures: nat
    /** The screenshots handed to background tasks, with whether their
        pixels were read without a GL error. */
    var dispatched: seq<(ScreenShot, bool)>
    var completions: seq<Completion>

    /** The lifecycle flags move together: a recording has a file exactly
        while it runs, a pending stop belongs to a running recording, and
        frames are recorded exactly while a recording runs with no stop
        pending. */
    predicate Valid()
      reads this
    {
      (isRecording <==> recordingFilename.Some?) &&
      (pendingStop ==> isRecording && stopRunnable.Some?) &&
      (frameRecording <==> isRecording && !pendingStop) &&
      (isRecording ==> errorDelegate != NullCallback) &&
      (nativeDeleted ==> isPendingDestroy)
    }

    constructor (width: int, height: int)
      ensures Valid() && viewportWidth == width && viewportHeight == height
      ensures !isRecording && !pendingStop && !isPendingDestroy && !nativeDeleted && !frameRecording
      ensures recordingFilename == None && errorDelegate == NullCallback && stopRunnable == None
      ensures queuedScreenShots == [] && scheduledCaptures == 0 && dispatched == [] && completions == []
    {
      viewportWidth, viewportHeight := width, height;
      isRecording, pendingStop, isPendingDestroy, nativeDeleted, frameRecording := false, false, false, false, false;
      recordingFilename, errorDelegate, stopRunnable := None, NullCallback, None;
      queuedScreenShots, scheduledCaptures, dispatched, completions := [], 0, [], [];
    }

    /** prepareAndroidMediaRecorder, corrected: any failure reports its
        error and leaves the recorder idle, a start() that throws included;
        success is the one way recording starts. */
    method PrepareAndroidMediaRecorder(path: string, cb: CallbackRef, outcome: PrepareOutcome) returns (ok: bool)
      requires !isRecording
      modifies this`isRecording, this`completions
      ensures ok <==> outcome == Prepared && !IsBlank(path)
      ensures isRecording == ok
      ensures !ok ==> (completions == old(completions) + Notify(cb, false, PrepareError(path, outcome), None))
      ensures ok ==> completions == old(completions)
    {
      if outcome == InitializationFailed {
        completions := completions + Notify(cb, false, Initialization, None);
        return false;
      }
      if IsBlank(path) {
        completions := completions + Notify(cb, false, WriteToFile, None);
        return false;
      }
      if outcome == PrepareIOFailed {
        completions := completions + Notify(cb, false, WriteToFile, None);
        return false;
      }
      if outcome == PrepareFailed {
        completions := completions + Notify(cb, false, Initialization, None);
        return false;
      }
      if outcome == StartFailed {
        completions := completions + Notify(cb, false, Initialization, None);
        return false;
      }
      isRecording := true;
      return true;
    }

    /** prepareAndroidMediaRecorder as written when start() throws: the
        recording flag is set before the call, outside the try, and the
        exception leaves startRecordingAsync before the file name and the
        error delegate are stored. The recorder is then marked recording
        with no file, so every later start answers ALREADY_RUNNING. */
    method StartThrowsAsWritten()
      requires Valid() && !isRecording
      modifies this`isRecording
      ensures isRecording && recordingFilename == None && errorDelegate == old(errorDelegate)
      ensures !Valid()
    {
      isRecording := true;
    }

    /** startRecordingAsync: refuses while recording, without permissions,
        or without a usable storage directory; otherwise the recorder is
        prepared and, once it is, frames are recorded to the file. */
    method StartRecordingAsync(fileName: string, onError: CallbackRef,
                               hasPermissions: bool, appDirPath: Option<string>, dirReady: bool,
                               prepare: PrepareOutcome)
      requires Valid()
      modifies this`isRecording, this`completions, this`recordingFilename, this`errorDelegate, this`frameRecording
      ensures Valid()
      ensures isRecording <==> old(isRecording) || (hasPermissions && appDirPath.Some? && dirReady && prepare == Prepared)
      ensures old(isRecording) ==> completions == old(completions) + Notify(OrEmpty(onError), false, AlreadyRunning, None)
      ensures !old(isRecording) && !hasPermissions ==> completions == old(completions) + Notify(OrEmpty(onError), false, NoPermissions, None)
      ensures !old(isRecording) && hasPermissions && (appDirPath.None? || !dirReady) ==>
        completions == old(completions) + Notify(OrEmpty(onError), false, WriteToFile, None)
      ensures !old(isRecording) && hasPermissions && appDirPath.Some? && dirReady && prepare != Prepared ==>
        completions == old(completions) + Notify(OrEmpty(onError), false, PrepareError(VideoPath(appDirPath.value, fileName), prepare), None)
      ensures !old(isRecording) && hasPermissions && appDirPath.Some? && dirReady && prepare != Prepared ==>
        completions == old(completions) + Notify(OrEmpty(onError), false, if prepare == PrepareIOFailed then WriteToFile else Initialization, None)
      ensures isRecording && !old(isRecording) ==>
        recordingFilename == Some(VideoPath(appDirPath.value, fileName)) && errorDelegate == OrEmpty(onError) &&
        frameRecording && completions == old(completions)
      ensures !isRecording || old(isRecording) ==>
        recordingFilename == old(recordingFilename) && errorDelegate == old(errorDelegate) && frameRecording == old(frameRecording)
    {
      var cb := OrEmpty(onError);
      if isRecording {
        completions := completions + Notify(cb, false, AlreadyRunning, None);
        return;
      }
      if !hasPermissions {
        completions := completions + Notify(cb, false, NoPermissions, None);
        return;
      }
      if appDirPath.None? || !dirReady {
        completions := completions + Notify(cb, false, WriteToFile, None);
        return;
      }
      var path := VideoPath(appDirPath.value, fileName);
      VideoPathNeverBlank(appDirPath.value, fileName);
      var ok := PrepareAndroidMediaRecorder(path, cb, prepare);
      if !ok {
        return;
      }
      recordingFilename := Some(path);
      errorDelegate := cb;
      frameRecording := true;
    }

    /** stopVideoRecordingAsyncWithError: nothing for a null callback;
        ALREADY_STOPPED when idle or already stopping; otherwise the stop
        is marked pending, the runnable prepared and frame recording
        switched off. */
    method StopVideoRecordingAsyncWithError(error: ErrorCode, cb: CallbackRef)
      requires Valid()
      modifies this`pendingStop, this`stopRunnable, this`frameRecording, this`completions
      ensures Valid()
      ensures cb == NullCallback ==> pendingStop == old(pendingStop) && stopRunnable == old(stopRunnable) && completions == old(completions)
      ensures cb != NullCallback && (!isRecording || old(pendingStop)) ==>
        pendingStop == old(pendingStop) && stopRunnable == old(stopRunnable) &&
        completions == old(completions) + Notify(cb, false, AlreadyStopped, None)
      ensures cb != NullCallback && isRecording && !old(pendingStop) ==>
        pendingStop && stopRunnable == Some(StopTask(error, cb)) && !frameRecording && completions == old(completions)
    {
      if cb == NullCallback {
        return;
      }
      if !isRecording || pendingStop {
        completions := completions + Notify(cb, false, AlreadyStopped, None);
        return;
      }
      pendingStop := true;
      stopRunnable := Some(StopTask(error, cb));
      frameRecording := false;
    }

    /** stopRecordingAsync: NO_PERMISSIONS without permissions, otherwise a
        stop reporting NONE. */
    method StopRecordingAsync(cb: CallbackRef, hasPermissions: bool)
      requires Valid()
      modifies this`pendingStop, this`stopRunnable, this`frameRecording, this`completions
      ensures Valid()
      ensures !hasPermissions ==>
        pendingStop == old(pendingStop) && stopRunnable == old(stopRunnable) &&
        completions == old(completions) + Notify(OrEmpty(cb), false, NoPermissions, None)
      ensures hasPermissions && isRecording && !old(pendingStop) ==>
        pendingStop && stopRunnable == Some(StopTask(NoError, OrEmpty(cb))) && !frameRecording
    {
      if !hasPermissions {
        completions := completions + Notify(OrEmpty(cb), false, NoPermissions, None);
        return;
      }
      StopVideoRecordingAsyncWithError(NoError, OrEmpty(cb));
    }

    /** A failure while recording: the MediaRecorder's error listener
        (UNKNOWN), a failed EGL set-up (INITIALIZATION) or a failed EGL
        surface operation (WRITE_TO_FILE) stops the recording, reporting to
        the recording's delegate. */
    method OnRecordingFailure(error: ErrorCode)
      requires Valid()
      modifies this`pendingStop, this`stopRunnable, this`frameRecording, this`completions
      ensures Valid()
      ensures isRecording && !old(pendingStop) ==> pendingStop && stopRunnable == Some(StopTask(error, errorDelegate))
      ensures !isRecording || old(pendingStop) ==> pendingStop == old(pendingStop) && stopRunnable == old(stopRunnable)
    {
      StopVideoRecordingAsyncWithError(error, errorDelegate);
    }

    /** The stop runnable: it does nothing unless a stop is pending;
        otherwise the callback hears of the outcome with the file name, the
        recording state is cleared, and a pending destroy deletes the
        native recorder. */
    method RunStopRunnable(task: StopTask, cleanupSucceeded: bool)
      requires Valid()
      modifies this`completions, this`recordingFilename, this`errorDelegate, this`isRecording,
               this`pendingStop, this`nativeDeleted
      ensures Valid()
      ensures !old(pendingStop) ==>
        completions == old(completions) && isRecording == old(isRecording) && nativeDeleted == old(nativeDeleted)
      ensures old(pendingStop) ==>
        completions == old(completions) +
          Notify(task.callback, cleanupSucceeded, if cleanupSucceeded then task.error else Unknown, old(recordingFilename)) &&
        !isRecording && !pendingStop && recordingFilename == None && errorDelegate == NullCallback &&
        nativeDeleted == (old(nativeDeleted) || isPendingDestroy)
    {
      if !pendingStop {
        return;
      }
      completions := completions + Notify(task.callback, cleanupSucceeded,
                                          if cleanupSucceeded then task.error else Unknown, recordingFilename);
      errorDelegate := NullCallback;
      recordingFilename := None;
      isRecording := false;
      pendingStop := false;
      if isPendingDestroy {
        nativeDeleted := true;
      }
    }

    /** onNativeEnableFrameRecording: once the renderer stops recording
        frames, the stop runnable, if one was prepared, runs (posting it to
        the UI thread is not modelled). */
    method OnNativeEnableFrameRecording(recording: bool, cleanupSucceeded: bool)
      requires Valid()
      modifies this`completions, this`recordingFilename, this`errorDelegate, this`isRecording,
               this`pendingStop, this`nativeDeleted
      ensures Valid()
      ensures recording || stopRunnable.None? ==>
        completions == old(completions) && isRecording == old(isRecording) && pendingStop == old(pendingStop)
      ensures !recording && old(pendingStop) ==> !isRecording && !pendingStop
    {
      if stopRunnable.Some? && !recording {
        RunStopRunnable(stopRunnable.value, cleanupSucceeded);
      }
    }

    /** destroy: marks the destroy pending; a running recording is stopped
        and the native recorder goes once the stop completes, otherwise it
        goes now. */
    method Destroy(hasPermissions: bool)
      requires Valid()
      modifies this`isPendingDestroy, this`nativeDeleted, this`pendingStop, this`stopRunnable,
               this`frameRecording, this`completions
      ensures Valid() && isPendingDestroy
      ensures !isRecording ==> nativeDeleted
      ensures isRecording ==> nativeDeleted == old(nativeDeleted)
      ensures isRecording && hasPermissions && !old(pendingStop) ==> pendingStop && stopRunnable == Some(StopTask(NoError, EmptyCallback))
    {
      isPendingDestroy := true;
      if isRecording {
        StopRecordingAsync(NullCallback, hasPermissions);
      } else {
        nativeDeleted := true;
      }
    }

    /** takeScreenShotAsync: NO_PERMISSIONS without the storage permission;
        INITIALIZATION when building or queueing the request throws
        (`queueable` is false); otherwise the request joins the queue, at
        the viewport's size, and a capture is scheduled for the next frame. */
    method TakeScreenShotAsync(fileName: string, saveToCameraRoll: bool, cb: CallbackRef, hasPermission: bool, queueable: bool)
      modifies this`queuedScreenShots, this`scheduledCaptures, this`completions
      ensures !hasPermission ==>
        queuedScreenShots == old(queuedScreenShots) && scheduledCaptures == old(scheduledCaptures) &&
        completions == old(completions) + Notify(OrEmpty(cb), false, NoPermissions, None)
      ensures hasPermission && !queueable ==>
        queuedScreenShots == old(queuedScreenShots) && scheduledCaptures == old(scheduledCaptures) &&
        completions == old(completions) + Notify(OrEmpty(cb), false, Initialization, None)
      ensures hasPermission && queueable ==>
        queuedScreenShots == old(queuedScreenShots) + [ScreenShot(viewportWidth, viewportHeight, fileName, saveToCameraRoll, OrEmpty(cb))] &&
        scheduledCaptures == old(scheduledCaptures) + 1 && completions == old(completions)
    {
      if !hasPermission {
        completions := completions + Notify(OrEmpty(cb), false, NoPermissions, None);
        return;
      }
      if !queueable {
        completions := completions + Notify(OrEmpty(cb), false, Initialization, None);
        return;
      }
      queuedScreenShots := queuedScreenShots + [ScreenShot(viewportWidth, viewportHeight, fileName, saveToCameraRoll, OrEmpty(cb))];
      scheduledCaptures := scheduledCaptures + 1;
    }

    /** onNativeTakeScreenshot: every queued request, in order, reads the
        frame and goes to a background task; the queue is then empty. The
        result of each GL read is passed in by position. */
    method OnNativeTakeScreenshot(glNoError: int -> bool)
      modifies this`queuedScreenShots, this`dispatched
      ensures queuedScreenShots == []
      ensures |dispatched| == |old(dispatched)| + |old(queuedScreenShots)|
      ensures dispatched[..|old(dispatched)|] == old(dispatched)
      ensures forall i :: 0 <= i < |old(queuedScreenShots)| ==>
        dispatched[|old(dispatched)| + i] == (old(queuedScreenShots)[i], glNoError(i))
    {
      var queue := queuedScreenShots;
      var i := 0;
      while i < |queue|
        invariant 0 <= i <= |queue|
        invariant |dispatched| == |old(dispatched)| + i
        invariant dispatched[..|old(dispatched)|] == old(dispatched)
        invariant forall k :: 0 <= k < i ==> dispatched[|old(dispatched)| + k] == (queue[k], glNoError(k))
      {
        dispatched := dispatched + [(queue[i], glNoError(i))];
        i := i + 1;
      }
      queuedScreenShots := [];
    }
  }
}
