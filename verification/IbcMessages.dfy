/**
 * The size estimates for coins and IBC messages. Each method returns the length of the message's
 * JSON text, short only of what its strings are missed by.
 */
module IbcMessages {
  import opened ByteStrings
  import opened JsonStrings
  import opened JsonScalars
  import opened JsonText

  datatype Coin = Coin(denom: Bytes, amount: Bytes)

  datatype Endpoint = Endpoint(portId: Bytes, channelId: Bytes)

  datatype Channel = Channel(endpoint: Endpoint, counterpartyEndpoint: Endpoint, order: Bytes, version: Bytes, connectionId: Bytes)

  datatype OpenInit = OpenInit(channel: Channel)

  datatype OpenTry = OpenTry(channel: Channel, counterpartyVersion: Bytes)

  datatype ChannelOpenMsg = ChannelOpenMsg(openInit: Option<OpenInit>, openTry: Option<OpenTry>)

  /** IBCOpenAck has the fields of IBCOpenTry, and IBCOpenConfirm those of IBCOpenInit. */
  datatype ChannelConnectMsg = ChannelConnectMsg(openAck: Option<OpenTry>, openConfirm: Option<OpenInit>)

  /** IBCCloseInit and IBCCloseConfirm have the fields of IBCOpenInit. */
  datatype ChannelCloseMsg = ChannelCloseMsg(closeInit: Option<OpenInit>, closeConfirm: Option<OpenInit>)

  datatype TimeoutBlock = TimeoutBlock(revision: nat, height: nat)

  datatype Timeout = Timeout(block: Option<TimeoutBlock>, timestamp: nat)

  datatype Packet = Packet(data: Option<Bytes>, src: Endpoint, dest: Endpoint, sequence: nat, timeout: Timeout)

  datatype Acknowledgement = Acknowledgement(data: Option<Bytes>)

  /** IBCPacketReceiveMsg and IBCPacketTimeoutMsg have the same fields. */
  datatype TimeoutCallbackMsg = TimeoutCallbackMsg(packet: Packet, relayer: Bytes)

  /** IBCPacketAckMsg has the same fields. */
  datatype AckCallbackMsg = AckCallbackMsg(acknowledgement: Acknowledgement, originalPacket: Packet, relayer: Bytes)

  datatype SourceCallbackMsg = SourceCallbackMsg(acknowledgement: Option<AckCallbackMsg>, timeout: Option<TimeoutCallbackMsg>)

  datatype TransferCallback = TransferCallback(funds: seq<Coin>, receiver: Bytes, sender: Bytes)

  datatype DestinationCallbackMsg = DestinationCallbackMsg(ack: Acknowledgement, packet: Packet, transfer: Option<TransferCallback>)

  // The longer field names.

  const COUNTERPARTY_ENDPOINT: Name := "counterparty_endpoint"
  const CONNECTION_ID: Name := "connection_id"
  const ACKNOWLEDGEMENT: Name := "acknowledgement"
  const ORIGINAL_PACKET: Name := "original_packet"
  const COUNTERPARTY_VERSION: Name := "counterparty_version"

  // The JSON value of each message, as its struct tags describe it.

  function CoinJson(c: Coin): (j: Json) { Record2("denom", Str(c.denom), "amount", Str(c.amount)) }

  function CoinItems(coins: seq<Coin>): (i: Items) {
    if coins == [] then NoItems else Item(CoinJson(coins[0]), CoinItems(coins[1..]))
  }

  function EndpointJson(e: Endpoint): (j: Json) {
    Record2("port_id", Str(e.portId), "channel_id", Str(e.channelId))
  }

  function ChannelJson(c: Channel): (j: Json) {
    Obj(Field("endpoint", EndpointJson(c.endpoint),
        Field(COUNTERPARTY_ENDPOINT, EndpointJson(c.counterpartyEndpoint),
        Field("order", Str(c.order),
        Field("version", Str(c.version),
        Field(CONNECTION_ID, Str(c.connectionId), NoFields))))))
  }

  function OpenInitJson(o: OpenInit): (j: Json) { Record1("channel", ChannelJson(o.channel)) }

  function OpenTryJson(o: OpenTry): (j: Json) {
    Record2("channel", ChannelJson(o.channel), COUNTERPARTY_VERSION, Str(o.counterpartyVersion))
  }

  /** An object with two fields that are left out when empty. */
  function OptionalPair(a: Name, x: Option<Json>, b: Name, y: Option<Json>): (j: Json) {
    var last := if y.Some? then Field(b, y.value, NoFields) else NoFields;
    Obj(if x.Some? then Field(a, x.value, last) else last)
  }

  function MaybeInit(o: Option<OpenInit>): (j: Option<Json>) { if o.Some? then Some(OpenInitJson(o.value)) else None }

  function MaybeTry(o: Option<OpenTry>): (j: Option<Json>) { if o.Some? then Some(OpenTryJson(o.value)) else None }

  function ChannelOpenJson(m: ChannelOpenMsg): (j: Json) {
    OptionalPair("open_init", MaybeInit(m.openInit), "open_try", MaybeTry(m.openTry))
  }

  function ChannelConnectJson(m: ChannelConnectMsg): (j: Json) {
    OptionalPair("open_ack", MaybeTry(m.openAck), "open_confirm", MaybeInit(m.openConfirm))
  }

  function ChannelCloseJson(m: ChannelCloseMsg): (j: Json) {
    OptionalPair("close_init", MaybeInit(m.closeInit), "close_confirm", MaybeInit(m.closeConfirm))
  }

  function BlockJson(b: TimeoutBlock): (j: Json) { Record2("revision", Num(b.revision), "height", Num(b.height)) }

  function TimeoutJson(t: Timeout): (j: Json) {
    var block := if t.block.Some? then BlockJson(t.block.value) else Null;
    if t.timestamp == 0 then Record1("block", block) else Record2("block", block, "timestamp", Quoted(t.timestamp))
  }

  function PacketJson(p: Packet): (j: Json) {
    Obj(Field("data", Bin(p.data),
        Field("src", EndpointJson(p.src),
        Field("dest", EndpointJson(p.dest),
        Field("sequence", Num(p.sequence),
        Field("timeout", TimeoutJson(p.timeout), NoFields))))))
  }

  function AcknowledgementJson(a: Acknowledgement): (j: Json) { Record1("data", Bin(a.data)) }

  function TimeoutCallbackJson(m: TimeoutCallbackMsg): (j: Json) {
    Record2("packet", PacketJson(m.packet), "relayer", Str(m.relayer))
  }

  function AckCallbackJson(m: AckCallbackMsg): (j: Json) {
    Obj(Field(ACKNOWLEDGEMENT, AcknowledgementJson(m.acknowledgement),
        Field(ORIGINAL_PACKET, PacketJson(m.originalPacket),
        Field("relayer", Str(m.relayer), NoFields))))
  }

  function SourceCallbackJson(m: SourceCallbackMsg): (j: Json) {
    OptionalPair(ACKNOWLEDGEMENT, if m.acknowledgement.Some? then Some(AckCallbackJson(m.acknowledgement.value)) else None,
                 "timeout", if m.timeout.Some? then Some(TimeoutCallbackJson(m.timeout.value)) else None)
  }

  function TransferJson(t: TransferCallback): (j: Json) {
    Obj(Field("funds", Arr(CoinItems(t.funds)),
        Field("receiver", Str(t.receiver),
        Field("sender", Str(t.sender), NoFields))))
  }

  function DestinationCallbackJson(m: DestinationCallbackMsg): (j: Json) {
    var last := if m.transfer.Some? then Field("transfer", TransferJson(m.transfer.value), NoFields) else NoFields;
    Obj(Field("ack", AcknowledgementJson(m.ack), Field("packet", PacketJson(m.packet), last)))
  }

  // The estimates.

  method StringSize(s: Bytes) returns (out: nat)
    ensures Predicts(out, Str(s))
  {
    out := ExpectedJSONSizeString(s);
  }

  method BinarySize(b: Option<Bytes>) returns (out: nat)
    ensures Predicts(out, Bin(b))
  {
    out := ExpectedJSONSizeBinary(b);
  }

  method NumberSize(n: nat) returns (out: nat)
    ensures Predicts(out, Num(n)) && Predicts(out + 2, Quoted(n))
  {
    out := ExpectedJSONSizeUint64(n);
  }

  method CoinSize(c: Coin) returns (out: nat)
    ensures Predicts(out, CoinJson(c))
  {
    var denom := StringSize(c.denom);
    var amount := StringSize(c.amount);
    out := 2 + 7 + 1 + denom + 1 + 8 + 1 + amount;
    Record2Size("denom", Str(c.denom), denom, "amount", Str(c.amount), amount);
  }

  method ArraySize(coins: seq<Coin>) returns (out: nat)
    ensures Predicts(out, Arr(CoinItems(coins)))
  {
    out := 2;
    var i := 0;
    while i < |coins|
      invariant 0 <= i <= |coins|
      invariant ItemsAfter(out, coins, i)
    {
      var before := out;
      if i > 0 {
        out := out + 1;
      }
      var size := CoinSize(coins[i]);
      out := out + size;
      NextCoin(before, coins, i, size);
      i := i + 1;
    }
    assert coins[i..] == [];
  }

  /** The part of a list's text that is still to come, after its first items and the opening bracket. */
  ghost predicate ItemsAfter(out: int, coins: seq<Coin>, i: int)
    requires 0 <= i <= |coins|
  {
    var rest, all := CoinItems(coins[i..]), CoinItems(coins);
    out + (|PrintItems(rest)| - DeficitOfItems(rest)) + (if 0 < i < |coins| then 1 else 0)
      == 2 + |PrintItems(all)| - DeficitOfItems(all)
  }

  lemma NextCoin(out: int, coins: seq<Coin>, i: int, size: int)
    requires 0 <= i < |coins| && ItemsAfter(out, coins, i) && Predicts(size, CoinJson(coins[i]))
    ensures ItemsAfter(out + (if i > 0 then 1 else 0) + size, coins, i + 1)
  {
    var rest := CoinItems(coins[i..]);
    assert coins[i..][0] == coins[i] && coins[i..][1..] == coins[i + 1..];
    MoreItems(rest);
  }

  method EndpointSize(e: Endpoint) returns (out: nat)
    ensures Predicts(out, EndpointJson(e))
  {
    var port := StringSize(e.portId);
    var channel := StringSize(e.channelId);
    out := 2 + 9 + 1 + port + 1 + 12 + 1 + channel;
    Record2Size("port_id", Str(e.portId), port, "channel_id", Str(e.channelId), channel);
  }

  method ChannelSize(c: Channel) returns (out: nat)
    ensures Predicts(out, ChannelJson(c))
  {
    var endpoint := EndpointSize(c.endpoint);
    var counterparty := EndpointSize(c.counterpartyEndpoint);
    var order := StringSize(c.order);
    var version := StringSize(c.version);
    var connection := StringSize(c.connectionId);
    out := 2 + 10 + 1 + endpoint + 1 + 23 + 1 + counterparty + 1 + 7 + 1 + order + 1 + 9 + 1 + version + 1 + 15 + 1 + connection;
    ghost var fields := Field("order", Str(c.order), Field("version", Str(c.version), Field(CONNECTION_ID, Str(c.connectionId), NoFields)));
    Record3Size("order", Str(c.order), order, "version", Str(c.version), version, CONNECTION_ID, Str(c.connectionId), connection);
    TwoMoreFields("endpoint", EndpointJson(c.endpoint), endpoint,
                  COUNTERPARTY_ENDPOINT, EndpointJson(c.counterpartyEndpoint), counterparty,
                  fields, 7 + 1 + order + 1 + 9 + 1 + version + 1 + 15 + 1 + connection);
  }

  method OpenInitSize(o: OpenInit) returns (out: nat)
    ensures Predicts(out, OpenInitJson(o))
  {
    var channel := ChannelSize(o.channel);
    out := 2 + 9 + 1 + channel;
    Record1Size("channel", ChannelJson(o.channel), channel);
  }

  method OpenTrySize(o: OpenTry) returns (out: nat)
    ensures Predicts(out, OpenTryJson(o))
  {
    var channel := ChannelSize(o.channel);
    var version := StringSize(o.counterpartyVersion);
    out := 2 + 9 + 1 + channel + 1 + 22 + 1 + version;
    Record2Size("channel", ChannelJson(o.channel), channel, COUNTERPARTY_VERSION, Str(o.counterpartyVersion), version);
  }

  lemma OptionalPairSize(a: Name, x: Option<Json>, i: int, b: Name, y: Option<Json>, j: int)
    requires x.Some? ==> Predicts(i, x.value)
    requires y.Some? ==> Predicts(j, y.value)
    ensures Predicts(2 + (if x.Some? then |a| + 3 + i else 0) + (if x.Some? && y.Some? then 1 else 0)
                       + (if y.Some? then |b| + 3 + j else 0), OptionalPair(a, x, b, y))
  {
    match (x, y)
    case (None, None) =>
    case (Some(v), None) => Record1Size(a, v, i);
    case (None, Some(w)) => Record1Size(b, w, j);
    case (Some(v), Some(w)) => Record2Size(a, v, i, b, w, j);
  }

  method ChannelOpenSize(m: ChannelOpenMsg) returns (out: nat)
    ensures Predicts(out, ChannelOpenJson(m))
  {
    var init, try := 0, 0;
    out := 2;
    if m.openInit.Some? {
      init := OpenInitSize(m.openInit.value);
      out := out + 11 + 1 + init;
    }
    if m.openInit.Some? && m.openTry.Some? {
      out := out + 1;
    }
    if m.openTry.Some? {
      try := OpenTrySize(m.openTry.value);
      out := out + 10 + 1 + try;
    }
    OptionalPairSize("open_init", MaybeInit(m.openInit), init, "open_try", MaybeTry(m.openTry), try);
  }

  method ChannelConnectSize(m: ChannelConnectMsg) returns (out: nat)
    ensures Predicts(out, ChannelConnectJson(m))
  {
    var ack, confirm := 0, 0;
    out := 2;
    if m.openAck.Some? {
      ack := OpenTrySize(m.openAck.value);
      out := out + 10 + 1 + ack;
    }
    if m.openAck.Some? && m.openConfirm.Some? {
      out := out + 1;
    }
    if m.openConfirm.Some? {
      confirm := OpenInitSize(m.openConfirm.value);
      out := out + 14 + 1 + confirm;
    }
    OptionalPairSize("open_ack", MaybeTry(m.openAck), ack, "open_confirm", MaybeInit(m.openConfirm), confirm);
  }

  method ChannelCloseSize(m: ChannelCloseMsg) returns (out: nat)
    ensures Predicts(out, ChannelCloseJson(m))
  {
    var init, confirm := 0, 0;
    out := 2;
    if m.closeInit.Some? {
      init := OpenInitSize(m.closeInit.value);
      out := out + 12 + 1 + init;
    }
    if m.closeInit.Some? && m.closeConfirm.Some? {
      out := out + 1;
    }
    if m.closeConfirm.Some? {
      confirm := OpenInitSize(m.closeConfirm.value);
      out := out + 15 + 1 + confirm;
    }
    OptionalPairSize("close_init", MaybeInit(m.closeInit), init, "close_confirm", MaybeInit(m.closeConfirm), confirm);
  }

  method BlockSize(b: TimeoutBlock) returns (out: nat)
    ensures Predicts(out, BlockJson(b))
  {
    var revision := NumberSize(b.revision);
    var height := NumberSize(b.height);
    out := 2 + 10 + 1 + revision + 1 + 8 + 1 + height;
    Record2Size("revision", Num(b.revision), revision, "height", Num(b.height), height);
  }

  method TimeoutSize(t: Timeout) returns (out: nat)
    ensures Predicts(out, TimeoutJson(t))
  {
    out := 2;
    var block := 4;
    if t.block.Some? {
      block := BlockSize(t.block.value);
      out := out + 7 + 1 + block;
    } else {
      out := out + 7 + 1 + 4;
    }
    ghost var value := if t.block.Some? then BlockJson(t.block.value) else Null;
    Record1Size("block", value, block);
    if t.timestamp != 0 {
      var timestamp := NumberSize(t.timestamp);
      out := out + 1 + 11 + 1 + timestamp + 2;
      Record2Size("block", value, block, "timestamp", Quoted(t.timestamp), timestamp + 2);
    }
  }

  method PacketSize(p: Packet) returns (out: nat)
    ensures Predicts(out, PacketJson(p))
  {
    var data := BinarySize(p.data);
    var src := EndpointSize(p.src);
    var dest := EndpointSize(p.dest);
    var sequence := NumberSize(p.sequence);
    var timeout := TimeoutSize(p.timeout);
    out := 2 + 6 + 1 + data + 1 + 5 + 1 + src + 1 + 6 + 1 + dest + 1 + 10 + 1 + sequence + 1 + 9 + 1 + timeout;
    ghost var fields := Field("dest", EndpointJson(p.dest),
                        Field("sequence", Num(p.sequence),
                        Field("timeout", TimeoutJson(p.timeout), NoFields)));
    Record3Size("dest", EndpointJson(p.dest), dest, "sequence", Num(p.sequence), sequence, "timeout", TimeoutJson(p.timeout), timeout);
    TwoMoreFields("data", Bin(p.data), data, "src", EndpointJson(p.src), src,
                  fields, 6 + 1 + dest + 1 + 10 + 1 + sequence + 1 + 9 + 1 + timeout);
  }

  method AcknowledgementSize(a: Acknowledgement) returns (out: nat)
    ensures Predicts(out, AcknowledgementJson(a))
  {
    var data := BinarySize(a.data);
    out := 2 + 6 + 1 + data;
    Record1Size("data", Bin(a.data), data);
  }

  method TimeoutCallbackSize(m: TimeoutCallbackMsg) returns (out: nat)
    ensures Predicts(out, TimeoutCallbackJson(m))
  {
    var packet := PacketSize(m.packet);
    var relayer := StringSize(m.relayer);
    out := 2 + 8 + 1 + packet + 1 + 9 + 1 + relayer;
    Record2Size("packet", PacketJson(m.packet), packet, "relayer", Str(m.relayer), relayer);
  }

  method AckCallbackSize(m: AckCallbackMsg) returns (out: nat)
    ensures Predicts(out, AckCallbackJson(m))
  {
    var acknowledgement := AcknowledgementSize(m.acknowledgement);
    var packet := PacketSize(m.originalPacket);
    var relayer := StringSize(m.relayer);
    out := 2 + 17 + 1 + acknowledgement + 1 + 17 + 1 + packet + 1 + 9 + 1 + relayer;
    Record3Size(ACKNOWLEDGEMENT, AcknowledgementJson(m.acknowledgement), acknowledgement,
                ORIGINAL_PACKET, PacketJson(m.originalPacket), packet, "relayer", Str(m.relayer), relayer);
  }

  method SourceCallbackSize(m: SourceCallbackMsg) returns (out: nat)
    ensures Predicts(out, SourceCallbackJson(m))
  {
    var acknowledgement, timeout := 0, 0;
    out := 2;
    if m.acknowledgement.Some? {
      acknowledgement := AckCallbackSize(m.acknowledgement.value);
      out := out + 17 + 1 + acknowledgement;
    }
    if m.acknowledgement.Some? && m.timeout.Some? {
      out := out + 1;
    }
    if m.timeout.Some? {
      timeout := TimeoutCallbackSize(m.timeout.value);
      out := out + 9 + 1 + timeout;
    }
    OptionalPairSize(ACKNOWLEDGEMENT,
                     if m.acknowledgement.Some? then Some(AckCallbackJson(m.acknowledgement.value)) else None, acknowledgement,
                     "timeout", if m.timeout.Some? then Some(TimeoutCallbackJson(m.timeout.value)) else None, timeout);
  }

  method TransferSize(t: TransferCallback) returns (out: nat)
    ensures Predicts(out, TransferJson(t))
  {
    var funds := ArraySize(t.funds);
    var receiver := StringSize(t.receiver);
    var sender := StringSize(t.sender);
    out := 2 + 7 + 1 + funds + 1 + 10 + 1 + receiver + 1 + 8 + 1 + sender;
    Record3Size("funds", Arr(CoinItems(t.funds)), funds, "receiver", Str(t.receiver), receiver, "sender", Str(t.sender), sender);
  }

  method DestinationCallbackSize(m: DestinationCallbackMsg) returns (out: nat)
    ensures Predicts(out, DestinationCallbackJson(m))
  {
    var ack := AcknowledgementSize(m.ack);
    var packet := PacketSize(m.packet);
    out := 2 + 5 + 1 + ack + 1 + 8 + 1 + packet;
    if m.transfer.Some? {
      var transfer := TransferSize(m.transfer.value);
      out := out + 1 + 10 + 1 + transfer;
      Record3Size("ack", AcknowledgementJson(m.ack), ack, "packet", PacketJson(m.packet), packet,
                  "transfer", TransferJson(m.transfer.value), transfer);
    } else {
      Record2Size("ack", AcknowledgementJson(m.ack), ack, "packet", PacketJson(m.packet), packet);
    }
  }
}
