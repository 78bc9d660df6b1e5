/**
 * The settings slice (app/features/settings/state/slice.ts).
 */
module SettingsState {

  class Settings {
    var isFrontCamera: bool
    var isAudioOn: bool
    /** Has no reducer case; the initial state leaves it unset, read as false. */
    var isVibrationOn: bool

    constructor ()
      ensures !isFrontCamera && !isAudioOn && !isVibrationOn
    {
      isFrontCamera, isAudioOn, isVibrationOn := false, false, false;
    }

    /** `doToggleCameraType`: flips the camera, so two toggles restore it. */
    method ToggleCameraType()
      modifies this
      ensures isFrontCamera == !old(isFrontCamera)
      ensures isAudioOn == old(isAudioOn) && isVibrationOn == old(isVibrationOn)
    {
      isFrontCamera := !isFrontCamera;
    }

    /** `doToggleAudio.fulfilled`: stores the new audio setting. */
    method ToggleAudioFulfilled(payload: bool)
      modifies this
      ensures isAudioOn == payload
      ensures isFrontCamera == old(isFrontCamera) && isVibrationOn == old(isVibrationOn)
    {
      isAudioOn := payload;
    }
  }
}
