/** The radio as a node sees it: the ESP-NOW peer table and the frames handed over. */
module EspNow {
  import opened Types
  import opened Message

  class Radio {
    var registered: set<Mac>
    var sent: seq<Send>

    constructor ()
      ensures registered == {} && sent == []
    {
      registered, sent := {}, [];
    }

    /** `registerPeerWithEspNow`: idempotent. */
    method Register(mac: Mac)
      modifies `registered
      ensures registered == old(registered) + {mac}
    {
      registered := registered + {mac};
    }

    /** `esp_now_del_peer`, when the peer exists. */
    method Unregister(mac: Mac)
      modifies `registered
      ensures registered == old(registered) - {mac}
    {
      registered := registered - {mac};
    }

    /** `Enrollment::enrollPeer`: the peer is dropped, if it exists, and registered anew. */
    method Reregister(mac: Mac)
      modifies `registered
      ensures registered == old(registered) + {mac}
    {
      Unregister(mac);
      Register(mac);
    }

    /** `sendMessage`: a frame to this device itself is skipped. */
    method SendMessage(dest: Mac, msg: Msg, self: Mac)
      modifies `sent
      ensures sent == old(sent) + Unicast(dest, msg, self)
    {
      if dest != self {
        sent := sent + [Send(dest, msg)];
      }
    }

    /** `sendBroadcast`. */
    method SendBroadcast(msg: Msg)
      modifies `sent
      ensures sent == old(sent) + [Send(BROADCAST_MAC, msg)]
    {
      sent := sent + [Send(BROADCAST_MAC, msg)];
    }
  }

  function Unicast(dest: Mac, msg: Msg, self: Mac): seq<Send> {
    if dest == self then [] else [Send(dest, msg)]
  }
}
