/** `mesh_message` and the values the radio layer hands to and takes from a node. */
module Message {
  import opened Types
  import opened Keys

  const TYPE_ADAPTER_DATA: Byte := 0
  const TYPE_MASTER_BEACON: Byte := 1
  const TYPE_ENROLLMENT: Byte := 2
  const TYPE_SERIAL_CMD_BROADCAST: Byte := 3
  const TYPE_JOIN_ACK: Byte := 4
  const TYPE_ROUTE_REPORT: Byte := 5

  const UNKNOWN_ADAPTER: I32 := 0
  const SERIAL_ADAPTER: I32 := 1

  const OP_ROUTE_REPORT: Byte := 0xB3
  const OP_NODE_ID_SET: Byte := 0xC0
  const OP_CONFIG_SET: Byte := 0xC1

  /** The 64-byte `data` field: plaintext, the layout a JOIN_ACK packs into it, or an
      AEAD ciphertext. */
  datatype Data =
    | Clear(bytes: seq<Byte>)
    | JoinAck(fingerprint: nat, secondaryMac: Mac, secondaryKey: PubKey)
    | Sealed(key: Key, nonce: seq<Byte>, aad: seq<Byte>, plain: Data)

  /** The 16-byte AEAD tag. */
  datatype Tag = NoTag | Tag(key: Key, nonce: seq<Byte>, aad: seq<Byte>, plain: Data)

  /** The fixed `route_path` array of eight MAC slots. */
  type RoutePath = p: seq<Mac> | |p| == 8
    witness seq(8, i => ZERO_MAC)

  datatype Msg = Msg(
    proto: Byte,
    kind: Byte,
    dataType: I32,
    origin: Mac,
    target: Mac,
    lastHop: Mac,
    data: Data,
    hopCount: Byte,
    epoch: U32,
    seqNum: U16,
    enrollKey: PubKey,
    routeLen: Byte,
    routePath: RoutePath,
    authTag: Tag,
    authPath: ChainMac)

  const EMPTY_PATH: RoutePath :=
    [ZERO_MAC, ZERO_MAC, ZERO_MAC, ZERO_MAC, ZERO_MAC, ZERO_MAC, ZERO_MAC, ZERO_MAC]

  const ZERO_BYTES: seq<Byte> := [0, 0, 0, 0, 0, 0, 0, 0]

  const ZERO_DATA: seq<Byte> := ZERO_BYTES + ZERO_BYTES + ZERO_BYTES + ZERO_BYTES
                                + ZERO_BYTES + ZERO_BYTES + ZERO_BYTES + ZERO_BYTES

  const BLANK := Msg(0, 0, 0, ZERO_MAC, ZERO_MAC, ZERO_MAC, Clear(ZERO_DATA), 0, 0, 0,
                     NoKey, 0, EMPTY_PATH, NoTag, NoMac)

  predicate IsSealedType(kind: Byte) {
    kind == TYPE_ADAPTER_DATA || kind == TYPE_ROUTE_REPORT
  }

  /** The path a well-formed frame carries: the first `routeLen` slots. */
  function PathOf(msg: Msg): seq<Mac>
    requires msg.routeLen <= MAX_HOPS
  {
    msg.routePath[..msg.routeLen]
  }

  /** First byte of a payload, when its bytes are known. */
  function Opcode(d: Data): Option<Byte> {
    if d.Clear? && |d.bytes| > 0 then Some(d.bytes[0]) else None
  }

  /** One frame handed to the radio: the ESP-NOW destination and the frame. */
  datatype Send = Send(dest: Mac, msg: Msg)
}
