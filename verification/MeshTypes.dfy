// The data the reliable protocol keeps and exchanges (keemash_mesh_core.c:38-131,
// include/keemash_mesh_proto.h:545-586).
module MeshTypes {
  import opened Base
  import opened Serial

  type Byte = x: int | 0 <= x < 256
  type Bytes = seq<Byte>

  const CHANNELS: nat := 10         // MESH_V2_TUNNEL_CHANNEL_MAX + 1
  const TIME_CHANNEL: nat := 8      // the only channel that may carry LATEST packets
  const WINDOW: nat := 32           // MESH_V2_RELIABLE_WINDOW
  const MAX_FRAGMENTS: nat := 16    // MESH_V2_RELIABLE_MAX_FRAGMENTS
  const INNER_MAX: nat := 152       // MESH_V2_RELIABLE_INNER_MAX
  const MESSAGE_MAX: nat := 2432    // KM_MESSAGE_MAX
  const LOST_RANGES: nat := 8       // KM_PENDING_LOST_RANGES
  const PRIORITY_CONTROL: nat := 4  // KEEMASH_REL_PRIORITY_CONTROL

  datatype Reason = Overflow | SessionReset | RetryExhausted | FragmentTimeout | RouteTimeout

  datatype Err = Ok | InvalidArg | InvalidState | NoMem

  // What a pair of session ids binds: packets of another binding are refused.
  datatype Binding = Binding(rootSession: u32, nodeSession: u32)

  // One DATA fragment.  `msg` is a ghost tag: the whole message the fragment was cut from.
  datatype Frag = Frag(channel: nat, sn: SeqNum, index: nat, count: nat, stream: u32,
                       payload: Bytes, ghost msg: Bytes)

  datatype Packet =
    | Data(binding: Binding, frag: Frag, fragmented: bool, latest: bool)
    | Ack(binding: Binding, channel: nat, ack: SeqNum, sack: set<nat>, isNack: bool, nack: SeqNum)
    | Lost(binding: Binding, channel: nat, reason: Reason, receiverDrop: bool,
           first: SeqNum, last: SeqNum)

  // Slots of the shared tables; `peer` is the key of the peer that owns the slot.
  datatype TxSlot = TxFree | TxUsed(peer: nat, priority: nat, retries: nat, frag: Frag)
  datatype RxSlot = RxFree | RxUsed(peer: nat, frag: Frag)
  datatype ReSlot =
    | ReFree
    | ReUsed(peer: nat, channel: nat, stream: u32, first: SeqNum, count: nat,
             lens: seq<nat>, received: set<nat>, data: Bytes, ghost msg: Bytes)
  datatype PendSlot = PendFree | PendUsed(channel: nat, first: SeqNum, last: SeqNum)

  datatype Config = Config(reservedControl: nat, perPeerTx: nat, perPeerControlReserve: nat,
                           perPeerRx: nat, perPeerRe: nat)

  // The history of one endpoint in its present epoch: ghost, read by specifications only.
  datatype Msg = Msg(channel: nat, first: int, stream: u32, bytes: Bytes)
  datatype LostEvent = LostEvent(asSender: bool, channel: nat, reason: Reason,
                                 first: SeqNum, last: SeqNum)
  datatype Delivery = Delivery(channel: nat, first: int, count: nat, stream: u32, bytes: Bytes)
  datatype Log = Log(submitted: seq<Msg>,      // messages given tx slots
                     sent: seq<Packet>,        // packets handed to the transport
                     lost: seq<LostEvent>,     // loss events reported to the application
                     passed: seq<Frag>,        // fragments passed to deliver_fragment
                     delivered: seq<Delivery>) // messages handed to the application

  // One endpoint, as the peer it is bound to sees it: that peer's state and the shared tables.
  datatype Endpoint = Endpoint(
    cfg: Config, peer: nat, binding: Binding, ready: bool, routeUp: bool,
    nextStream: u32, next: seq<SeqNum>, expected: seq<SeqNum>,
    tx: seq<TxSlot>, rx: seq<RxSlot>, re: seq<ReSlot>, pend: seq<PendSlot>,
    ghost log: Log)

  predicate ValidChannel(ch: nat) {
    1 <= ch < CHANNELS
  }

  // How many fragments a message of `len` bytes needs (keemash_mesh_core.c:1000-1001).
  function Fragments(len: nat): nat {
    (len + INNER_MAX - 1) / INNER_MAX
  }

  function ChunkLen(len: nat, i: nat): nat
    requires i * INNER_MAX <= len
  {
    if len - i * INNER_MAX > INNER_MAX then INNER_MAX else len - i * INNER_MAX
  }

  function Chunk(bytes: Bytes, i: nat): Bytes
    requires i * INNER_MAX <= |bytes|
  {
    bytes[i * INNER_MAX..][..ChunkLen(|bytes|, i)]
  }
}
