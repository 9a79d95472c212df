/**
 * `CameraPermissions`: the request for the camera (and microphone)
 * permissions and the listener that turns the platform's grant results into
 * one answer for the caller. The permission checks are parameters; the
 * answers the caller's callback receives and the permission requests made
 * are recorded as sequences.
 */
module CameraPermissions {
  import opened Base

  const CAMERA_REQUEST_ID: int := 9796
  /** `PackageManager.PERMISSION_GRANTED`. */
  const PERMISSION_GRANTED: int := 0

  const PERMISSION_ERROR: string := "cameraPermission"
  const ONGOING_DESCRIPTION: string := "Camera permission request ongoing"
  const CAMERA_DENIED: string := "MediaRecorderCamera permission not granted"
  const AUDIO_DENIED: string := "MediaRecorderAudio permission not granted"

  /** The permissions a request asks for. */
  datatype Permission = CameraAccess | RecordAudio

  /** One call of `ResultCallback.onResult`: both null on success. */
  datatype Answer = Answer(errorCode: Option<string>, errorDescription: Option<string>)
  {
    predicate Success()
    {
      errorCode.None? && errorDescription.None?
    }
  }

  /** One call of `onRequestPermissionsResult`. */
  datatype Call = Call(id: int, grantResults: seq<int>)

  /** The answer a handled call gives: the camera result first, then the audio result if there is one. */
  function Verdict(grantResults: seq<int>): Answer
  {
    if |grantResults| == 0 || grantResults[0] != PERMISSION_GRANTED then
      Answer(Some(PERMISSION_ERROR), Some(CAMERA_DENIED))
    else if |grantResults| > 1 && grantResults[1] != PERMISSION_GRANTED then
      Answer(Some(PERMISSION_ERROR), Some(AUDIO_DENIED))
    else
      Answer(None, None)
  }

  /**
   * A handled call succeeds exactly when the camera was granted and the
   * audio, when asked for, too; every failure is a permission error naming
   * the first permission denied.
   */
  lemma VerdictSucceedsIffGranted(grantResults: seq<int>)
    ensures Verdict(grantResults).Success() <==>
      |grantResults| > 0 && grantResults[0] == PERMISSION_GRANTED &&
      (|grantResults| > 1 ==> grantResults[1] == PERMISSION_GRANTED)
    ensures !Verdict(grantResults).Success() ==> Verdict(grantResults).errorCode == Some(PERMISSION_ERROR)
    ensures (|grantResults| == 0 || grantResults[0] != PERMISSION_GRANTED) ==>
      Verdict(grantResults).errorDescription == Some(CAMERA_DENIED)
    ensures |grantResults| > 1 && grantResults[0] == PERMISSION_GRANTED && grantResults[1] != PERMISSION_GRANTED ==>
      Verdict(grantResults).errorDescription == Some(AUDIO_DENIED)
  {
  }

  /** Whether a listener that has, or has not, answered yet handles this call. */
  predicate Handles(alreadyCalled: bool, call: Call)
  {
    !alreadyCalled && call.id == CAMERA_REQUEST_ID
  }

  /**
   * The answers one listener gives over a series of calls, starting from
   * its `alreadyCalled` flag.
   */
  function Answers(alreadyCalled: bool, calls: seq<Call>): seq<Answer>
    decreases |calls|
  {
    if calls == [] then []
    else if Handles(alreadyCalled, calls[0]) then [Verdict(calls[0].grantResults)] + Answers(true, calls[1..])
    else Answers(alreadyCalled, calls[1..])
  }

  /**
   * A listener answers at most once, never after it has answered, and
   * otherwise exactly when some call carries the request id, with the
   * verdict of the first such call.
   */
  lemma {:induction false} AnswersAtMostOnce(alreadyCalled: bool, calls: seq<Call>)
    ensures |Answers(alreadyCalled, calls)| <= 1
    ensures alreadyCalled ==> Answers(alreadyCalled, calls) == []
    ensures !alreadyCalled ==>
      (|Answers(alreadyCalled, calls)| == 1 <==> exists i :: 0 <= i < |calls| && calls[i].id == CAMERA_REQUEST_ID)
    ensures !alreadyCalled ==> forall i ::
      (0 <= i < |calls| && calls[i].id == CAMERA_REQUEST_ID &&
       forall j :: 0 <= j < i ==> calls[j].id != CAMERA_REQUEST_ID) ==>
      Answers(alreadyCalled, calls) == [Verdict(calls[i].grantResults)]
    decreases |calls|
  {
    if calls != [] {
      AnswersAtMostOnce(true, calls[1..]);
      AnswersAtMostOnce(alreadyCalled, calls[1..]);
      if !alreadyCalled && calls[0].id != CAMERA_REQUEST_ID {
        forall i | 0 <= i < |calls| && calls[i].id == CAMERA_REQUEST_ID
          ensures i >= 1 && calls[1..][i - 1].id == CAMERA_REQUEST_ID
        {
        }
        forall i | 1 <= i < |calls[1..]| + 1 && calls[1..][i - 1].id == CAMERA_REQUEST_ID
          ensures calls[i].id == CAMERA_REQUEST_ID
        {
        }
        forall i | 0 <= i < |calls| && calls[i].id == CAMERA_REQUEST_ID &&
            (forall j :: 0 <= j < i ==> calls[j].id != CAMERA_REQUEST_ID)
          ensures Answers(alreadyCalled, calls) == [Verdict(calls[i].grantResults)]
        {
          assert calls[1..][i - 1] == calls[i];
          assert forall j :: 0 <= j < i - 1 ==> calls[1..][j] == calls[j + 1];
        }
      }
    }
  }

  /** The `CameraPermissions` object: whether a request is pending, and what the caller was told. */
  class Permissions {
    var ongoing: bool
    /** The answers passed to the callers' callbacks, in order. */
    var answers: seq<Answer>
    /** The permission sets passed to `ActivityCompat.requestPermissions`. */
    var requested: seq<seq<Permission>>

    constructor()
      ensures !ongoing && answers == [] && requested == []
    {
      ongoing := false;
      answers := [];
      requested := [];
    }

    /**
     * `requestPermissions`: a pending request is reported as an error, but
     * the request carries on. When a permission is missing a listener for
     * this object is returned (to be registered), the request is marked
     * ongoing and the permissions are requested; otherwise success is
     * reported at once and `ongoing` is left alone.
     */
    method RequestPermissions(hasCamera: bool, hasAudio: bool, enableAudio: bool) returns (listener: Listener?)
      modifies this
      ensures var busy := if old(ongoing) then [Answer(Some(PERMISSION_ERROR), Some(ONGOING_DESCRIPTION))] else [];
        if !hasCamera || (enableAudio && !hasAudio) then
          listener != null && fresh(listener) && listener.owner == this && !listener.alreadyCalled &&
          ongoing && answers == old(answers) + busy &&
          requested == old(requested) + [if enableAudio then [CameraAccess, RecordAudio] else [CameraAccess]]
        else
          listener == null && ongoing == old(ongoing) && requested == old(requested) &&
          answers == old(answers) + busy + [Answer(None, None)]
    {
      if ongoing {
        answers := answers + [Answer(Some(PERMISSION_ERROR), Some(ONGOING_DESCRIPTION))];
      }
      if !hasCamera || (enableAudio && !hasAudio) {
        listener := new Listener(this);
        ongoing := true;
        requested := requested + [if enableAudio then [CameraAccess, RecordAudio] else [CameraAccess]];
      } else {
        listener := null;
        answers := answers + [Answer(None, None)];
      }
    }

    /** The callback the listener wraps: it clears `ongoing`, then forwards the answer. */
    method OnResult(answer: Answer)
      modifies this`ongoing, this`answers
      ensures !ongoing && answers == old(answers) + [answer]
    {
      ongoing := false;
      answers := answers + [answer];
    }
  }

  /** `CameraRequestPermissionsListener`, bound to the object whose request it answers. */
  class Listener {
    const owner: Permissions
    var alreadyCalled: bool

    constructor(owner: Permissions)
      ensures this.owner == owner && !alreadyCalled
    {
      this.owner := owner;
      alreadyCalled := false;
    }

    /**
     * `onRequestPermissionsResult`: a repeat call or another request's id
     * is declined and changes nothing; the first call for this request is
     * answered with its verdict, which also clears the owner's `ongoing`.
     */
    method OnRequestPermissionsResult(call: Call) returns (handled: bool)
      modifies this, owner
      ensures handled == Handles(old(alreadyCalled), call)
      ensures !handled ==> unchanged(this) && unchanged(owner)
      ensures handled ==>
        alreadyCalled && !owner.ongoing &&
        owner.answers == old(owner.answers) + Answers(old(alreadyCalled), [call]) &&
        owner.requested == old(owner.requested)
    {
      if alreadyCalled || call.id != CAMERA_REQUEST_ID {
        return false;
      }
      alreadyCalled := true;
      owner.OnResult(Verdict(call.grantResults));
      return true;
    }
  }
}
