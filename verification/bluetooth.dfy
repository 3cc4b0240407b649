/** The bluetooth broadcast receiver the com service registers: it turns A2DP
    connection-state changes and headset audio-state changes into at most one of
    the onConnected / onDisconnected callbacks. */
module Bluetooth {
  import opened Media

  /** BluetoothA2dp.ACTION_CONNECTION_STATE_CHANGED */
  const A2dpConnectionStateChanged: string := "android.bluetooth.a2dp.profile.action.CONNECTION_STATE_CHANGED"
  /** BluetoothHeadset.ACTION_AUDIO_STATE_CHANGED */
  const HeadsetAudioStateChanged: string := "android.bluetooth.headset.profile.action.AUDIO_STATE_CHANGED"

  /** BluetoothProfile.EXTRA_STATE and EXTRA_PREVIOUS_STATE, which both
      BluetoothA2dp and BluetoothHeadset inherit. */
  const ExtraState: string := "android.bluetooth.profile.extra.STATE"
  const ExtraPreviousState: string := "android.bluetooth.profile.extra.PREVIOUS_STATE"

  /** BluetoothProfile connection states. */
  const StateDisconnected: int := 0
  const StateConnected: int := 2
  const StateDisconnecting: int := 3

  /** BluetoothHeadset audio states. */
  const StateAudioDisconnected: int := 10
  const StateAudioConnected: int := 12

  /** onReceive: which callback an intent with this action and these extras
      fires (None: neither). Bundle.getInt reads a missing state as 0. */
  function OnReceive(action: Option<string>, extras: Option<map<string, ExtraValue>>): (r: Option<Connection>)
    ensures action.None? || extras.None? ==> r.None?
    ensures action.Some? && action.value != A2dpConnectionStateChanged && action.value != HeadsetAudioStateChanged ==> r.None?
    ensures action == Some(A2dpConnectionStateChanged) && extras.Some? ==>
      var state := GetInt(extras.value, ExtraState, 0);
      var previous := GetInt(extras.value, ExtraPreviousState, 0);
      (r == Some(Connected) <==> state == StateConnected) &&
      (r == Some(Disconnected) <==> (state == StateDisconnected || state == StateDisconnecting) && previous == StateConnected)
    ensures action == Some(HeadsetAudioStateChanged) && extras.Some? ==>
      var state := GetInt(extras.value, ExtraState, 0);
      var previous := GetInt(extras.value, ExtraPreviousState, 0);
      (r == Some(Connected) <==> state == StateAudioConnected) &&
      (r == Some(Disconnected) <==> state == StateAudioDisconnected && previous == StateAudioConnected)
  {
    match action
    case None => None
    case Some(a) =>
      if a == A2dpConnectionStateChanged && extras.Some? then
        var state := GetInt(extras.value, ExtraState, 0);
        var previous := GetInt(extras.value, ExtraPreviousState, 0);
        if state == StateConnected then Some(Connected)
        else if (state == StateDisconnected || state == StateDisconnecting) && previous == StateConnected then Some(Disconnected)
        else None
      else if a == HeadsetAudioStateChanged && extras.Some? then
        var state := GetInt(extras.value, ExtraState, 0);
        var previous := GetInt(extras.value, ExtraPreviousState, 0);
        if state == StateAudioConnected then Some(Connected)
        else if state == StateAudioDisconnected && previous == StateAudioConnected then Some(Disconnected)
        else None
      else None
  }
}
