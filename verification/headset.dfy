/** The wired-headset receiver the com service registers for
    AudioManager.ACTION_HEADSET_PLUG. */
module Headset {
  import opened Media

  /** The intent extra that carries the plug state: 0 unplugged, 1 plugged. */
  const StateKey: string := "state"

  /** onReceive: which callback a headset-plug broadcast fires (None: neither).
      The sticky broadcast delivered at registration is ignored, and so is an
      intent without a "state" extra; getIntExtra reads a non-int extra as 0. */
  function OnReceive(isInitialStickyBroadcast: bool, extras: map<string, ExtraValue>): (r: Option<Connection>)
    ensures isInitialStickyBroadcast ==> r.None?
    ensures StateKey !in extras ==> r.None?
    ensures r == Some(Disconnected) <==> !isInitialStickyBroadcast && StateKey in extras && GetInt(extras, StateKey, 0) == 0
    ensures r == Some(Connected) <==> !isInitialStickyBroadcast && StateKey in extras && GetInt(extras, StateKey, 0) == 1
  {
    if isInitialStickyBroadcast then None
    else if StateKey in extras then
      var state := GetInt(extras, StateKey, 0);
      if state == 0 then Some(Disconnected) else if state == 1 then Some(Connected) else None
    else None
  }
}
