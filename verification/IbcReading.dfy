/**
 * What the printed messages say. Readers look the members of a JSON object up by their tag names
 * and put the message together again; so no field is missing, swapped or under a wrong name.
 */
module IbcReading {
  import opened ByteStrings
  import opened Utf8
  import opened JsonStrings
  import opened JsonScalars
  import opened JsonText
  import opened IbcMessages

  // Looking members up.

  function Find(members: seq<Member>, name: Bytes): (r: Option<Value>) {
    if members == [] then None
    else if members[0].name == name then Some(members[0].value)
    else Find(members[1..], name)
  }

  /** The member with a name, if the value is an object that has one. */
  function Get(v: Value, name: Name): (r: Option<Value>) { if v.VObject? then Find(v.members, Ascii(name)) else None }

  function Text(v: Option<Value>): (r: Option<Bytes>) {
    if v.Some? && v.value.VString? then Some(v.value.text) else None
  }

  function Number(v: Option<Value>): (r: Option<nat>) {
    if v.Some? && v.value.VNumber? then Some(v.value.n) else None
  }

  /** A byte slice: null, or base64 in quotes. */
  function Slice(v: Option<Value>): (r: Option<Option<Bytes>>) {
    if v.None? then None
    else if v.value.VNull? then Some(None)
    else if v.value.VString? && Unbase64(v.value.text).Some? then Some(Unbase64(v.value.text))
    else None
  }

  // The readers. None where something is missing or has the wrong form.

  function ReadCoin(v: Value): (r: Option<Coin>) {
    match (Text(Get(v, "denom")), Text(Get(v, "amount")))
    case (Some(denom), Some(amount)) => Some(Coin(denom, amount))
    case _ => None
  }

  function ReadCoins(vs: seq<Value>): (r: Option<seq<Coin>>) {
    if vs == [] then Some([])
    else
      match (ReadCoin(vs[0]), ReadCoins(vs[1..]))
      case (Some(coin), Some(more)) => Some([coin] + more)
      case _ => None
  }

  function ReadEndpoint(v: Value): (r: Option<Endpoint>) {
    match (Text(Get(v, "port_id")), Text(Get(v, "channel_id")))
    case (Some(port), Some(channel)) => Some(Endpoint(port, channel))
    case _ => None
  }

  function EndpointIn(v: Option<Value>): (r: Option<Endpoint>) { if v.Some? then ReadEndpoint(v.value) else None }

  function ReadChannel(v: Value): (r: Option<Channel>) {
    match (EndpointIn(Get(v, "endpoint")), EndpointIn(Get(v, "counterparty_endpoint")),
           Text(Get(v, "order")), Text(Get(v, "version")), Text(Get(v, "connection_id")))
    case (Some(near), Some(far), Some(order), Some(version), Some(connection)) =>
      Some(Channel(near, far, order, version, connection))
    case _ => None
  }

  function ChannelIn(v: Option<Value>): (r: Option<Channel>) { if v.Some? then ReadChannel(v.value) else None }

  function ReadOpenInit(v: Value): (r: Option<OpenInit>) {
    match ChannelIn(Get(v, "channel"))
    case Some(channel) => Some(OpenInit(channel))
    case None => None
  }

  function ReadOpenTry(v: Value): (r: Option<OpenTry>) {
    match (ChannelIn(Get(v, "channel")), Text(Get(v, "counterparty_version")))
    case (Some(channel), Some(version)) => Some(OpenTry(channel, version))
    case _ => None
  }

  /** A member that may be missing: missing it is None, present it has to be readable. */
  function InitIn(v: Option<Value>): (r: Option<Option<OpenInit>>) {
    if v.None? then Some(None) else if ReadOpenInit(v.value).Some? then Some(ReadOpenInit(v.value)) else None
  }

  function TryIn(v: Option<Value>): (r: Option<Option<OpenTry>>) {
    if v.None? then Some(None) else if ReadOpenTry(v.value).Some? then Some(ReadOpenTry(v.value)) else None
  }

  function ReadChannelOpen(v: Value): (r: Option<ChannelOpenMsg>) {
    match (InitIn(Get(v, "open_init")), TryIn(Get(v, "open_try")))
    case (Some(init), Some(try)) => Some(ChannelOpenMsg(init, try))
    case _ => None
  }

  function ReadChannelConnect(v: Value): (r: Option<ChannelConnectMsg>) {
    match (TryIn(Get(v, "open_ack")), InitIn(Get(v, "open_confirm")))
    case (Some(ack), Some(confirm)) => Some(ChannelConnectMsg(ack, confirm))
    case _ => None
  }

  function ReadChannelClose(v: Value): (r: Option<ChannelCloseMsg>) {
    match (InitIn(Get(v, "close_init")), InitIn(Get(v, "close_confirm")))
    case (Some(init), Some(confirm)) => Some(ChannelCloseMsg(init, confirm))
    case _ => None
  }

  function ReadBlock(v: Value): (r: Option<TimeoutBlock>) {
    match (Number(Get(v, "revision")), Number(Get(v, "height")))
    case (Some(revision), Some(height)) => Some(TimeoutBlock(revision, height))
    case _ => None
  }

  /** A block has to be there, but may be null. */
  function BlockIn(v: Option<Value>): (r: Option<Option<TimeoutBlock>>) {
    if v.None? then None
    else if v.value.VNull? then Some(None)
    else if ReadBlock(v.value).Some? then Some(ReadBlock(v.value))
    else None
  }

  predicate AllDigits(b: Bytes) { forall i :: 0 <= i < |b| ==> IsDigit(b[i]) }

  /** A number in quotes; a missing one is zero. */
  function QuotedIn(v: Option<Value>): (r: Option<nat>) {
    if v.None? then Some(0)
    else if v.value.VString? && AllDigits(v.value.text) then Some(DigitsValue(v.value.text))
    else None
  }

  function ReadTimeout(v: Value): (r: Option<Timeout>) {
    match (BlockIn(Get(v, "block")), QuotedIn(Get(v, "timestamp")))
    case (Some(block), Some(timestamp)) => Some(Timeout(block, timestamp))
    case _ => None
  }

  function TimeoutIn(v: Option<Value>): (r: Option<Timeout>) { if v.Some? then ReadTimeout(v.value) else None }

  function ReadPacket(v: Value): (r: Option<Packet>) {
    match (Slice(Get(v, "data")), EndpointIn(Get(v, "src")), EndpointIn(Get(v, "dest")),
           Number(Get(v, "sequence")), TimeoutIn(Get(v, "timeout")))
    case (Some(data), Some(src), Some(dest), Some(sequence), Some(timeout)) =>
      Some(Packet(data, src, dest, sequence, timeout))
    case _ => None
  }

  function PacketIn(v: Option<Value>): (r: Option<Packet>) { if v.Some? then ReadPacket(v.value) else None }

  function ReadAcknowledgement(v: Value): (r: Option<Acknowledgement>) {
    match Slice(Get(v, "data"))
    case Some(data) => Some(Acknowledgement(data))
    case None => None
  }

  function AcknowledgementIn(v: Option<Value>): (r: Option<Acknowledgement>) {
    if v.Some? then ReadAcknowledgement(v.value) else None
  }

  function ReadTimeoutCallback(v: Value): (r: Option<TimeoutCallbackMsg>) {
    match (PacketIn(Get(v, "packet")), Text(Get(v, "relayer")))
    case (Some(packet), Some(relayer)) => Some(TimeoutCallbackMsg(packet, relayer))
    case _ => None
  }

  function ReadAckCallback(v: Value): (r: Option<AckCallbackMsg>) {
    match (AcknowledgementIn(Get(v, "acknowledgement")), PacketIn(Get(v, "original_packet")), Text(Get(v, "relayer")))
    case (Some(acknowledgement), Some(packet), Some(relayer)) => Some(AckCallbackMsg(acknowledgement, packet, relayer))
    case _ => None
  }

  function AckCallbackIn(v: Option<Value>): (r: Option<Option<AckCallbackMsg>>) {
    if v.None? then Some(None) else if ReadAckCallback(v.value).Some? then Some(ReadAckCallback(v.value)) else None
  }

  function TimeoutCallbackIn(v: Option<Value>): (r: Option<Option<TimeoutCallbackMsg>>) {
    if v.None? then Some(None) else if ReadTimeoutCallback(v.value).Some? then Some(ReadTimeoutCallback(v.value)) else None
  }

  function ReadSourceCallback(v: Value): (r: Option<SourceCallbackMsg>) {
    match (AckCallbackIn(Get(v, "acknowledgement")), TimeoutCallbackIn(Get(v, "timeout")))
    case (Some(acknowledgement), Some(timeout)) => Some(SourceCallbackMsg(acknowledgement, timeout))
    case _ => None
  }

  function CoinsIn(v: Option<Value>): (r: Option<seq<Coin>>) {
    if v.Some? && v.value.VArray? then ReadCoins(v.value.elements) else None
  }

  function ReadTransfer(v: Value): (r: Option<TransferCallback>) {
    match (CoinsIn(Get(v, "funds")), Text(Get(v, "receiver")), Text(Get(v, "sender")))
    case (Some(funds), Some(receiver), Some(sender)) => Some(TransferCallback(funds, receiver, sender))
    case _ => None
  }

  function TransferIn(v: Option<Value>): (r: Option<Option<TransferCallback>>) {
    if v.None? then Some(None) else if ReadTransfer(v.value).Some? then Some(ReadTransfer(v.value)) else None
  }

  function ReadDestinationCallback(v: Value): (r: Option<DestinationCallbackMsg>) {
    match (AcknowledgementIn(Get(v, "ack")), PacketIn(Get(v, "packet")), TransferIn(Get(v, "transfer")))
    case (Some(ack), Some(packet), Some(transfer)) => Some(DestinationCallbackMsg(ack, packet, transfer))
    case _ => None
  }

  // What is written is read.

  /** Every string is UTF-8. */
  predicate Readable(j: Json) {
    match j
    case Str(text) => WellFormed(text)
    case Obj(fields) => ReadableFields(fields)
    case Arr(items) => ReadableItems(items)
    case _ => true
  }

  predicate ReadableFields(f: Fields) { f.Field? ==> Readable(f.value) && ReadableFields(f.more) }

  predicate ReadableItems(i: Items) { i.Item? ==> Readable(i.value) && ReadableItems(i.more) }

  lemma NamesDiffer(a: Name, b: Name)
    ensures Ascii(a) == Ascii(b) <==> a == b
  {
    if Ascii(a) == Ascii(b) {
      assert |a| == |b|;
      forall i | 0 <= i < |a| ensures a[i] == b[i] { assert Ascii(a)[i] == Ascii(b)[i]; }
    }
  }

  lemma FirstField(a: Name, x: Json, more: Fields)
    ensures Get(Meaning(Obj(Field(a, x, more))), a) == Some(Meaning(x))
    ensures Readable(Obj(Field(a, x, more))) <==> Readable(x) && Readable(Obj(more))
  {
    assert MembersOf(Field(a, x, more))[0] == Member(Ascii(a), Meaning(x));
  }

  lemma LaterField(a: Name, x: Json, more: Fields, name: Name)
    requires name != a
    ensures Get(Meaning(Obj(Field(a, x, more))), name) == Get(Meaning(Obj(more)), name)
  {
    NamesDiffer(a, name);
    assert MembersOf(Field(a, x, more))[1..] == MembersOf(more);
  }

  lemma OneField(a: Name, x: Json)
    ensures var v := Meaning(Record1(a, x)); Get(v, a) == Some(Meaning(x))
    ensures Readable(Record1(a, x)) ==> Readable(x)
    ensures forall name: Name :: name != a ==> Get(Meaning(Record1(a, x)), name) == None
  {
    FirstField(a, x, NoFields);
    forall name: Name | name != a ensures Get(Meaning(Record1(a, x)), name) == None { LaterField(a, x, NoFields, name); }
  }

  lemma TwoFields(a: Name, x: Json, b: Name, y: Json)
    requires a != b
    ensures var v := Meaning(Record2(a, x, b, y)); Get(v, a) == Some(Meaning(x)) && Get(v, b) == Some(Meaning(y))
    ensures Readable(Record2(a, x, b, y)) ==> Readable(x) && Readable(y)
  {
    FirstField(a, x, Field(b, y, NoFields));
    LaterField(a, x, Field(b, y, NoFields), b);
    OneField(b, y);
  }

  function Record3(a: Name, x: Json, b: Name, y: Json, c: Name, z: Json): (j: Json) {
    Obj(Field(a, x, Field(b, y, Field(c, z, NoFields))))
  }

  lemma ThreeFields(a: Name, x: Json, b: Name, y: Json, c: Name, z: Json)
    requires a != b && a != c && b != c
    ensures var v := Meaning(Record3(a, x, b, y, c, z));
            Get(v, a) == Some(Meaning(x)) && Get(v, b) == Some(Meaning(y)) && Get(v, c) == Some(Meaning(z))
    ensures Readable(Record3(a, x, b, y, c, z)) ==> Readable(x) && Readable(y) && Readable(z)
  {
    var more := Field(b, y, Field(c, z, NoFields));
    FirstField(a, x, more);
    LaterField(a, x, more, b);
    LaterField(a, x, more, c);
    TwoFields(b, y, c, z);
  }

  /** Two more fields in front of an object. */
  lemma FieldsBefore(a: Name, x: Json, b: Name, y: Json, more: Fields)
    requires a != b
    ensures var v := Meaning(Obj(Field(a, x, Field(b, y, more))));
            && Get(v, a) == Some(Meaning(x)) && Get(v, b) == Some(Meaning(y))
            && forall name: Name :: name != a && name != b ==> Get(v, name) == Get(Meaning(Obj(more)), name)
    ensures Readable(Obj(Field(a, x, Field(b, y, more)))) ==> Readable(x) && Readable(y) && Readable(Obj(more))
  {
    var tail := Field(b, y, more);
    FirstField(a, x, tail);
    LaterField(a, x, tail, b);
    FirstField(b, y, more);
    forall name: Name | name != a && name != b
      ensures Get(Meaning(Obj(Field(a, x, tail))), name) == Get(Meaning(Obj(more)), name)
    {
      LaterField(a, x, tail, name);
      LaterField(b, y, more, name);
    }
  }

  lemma {:induction false} RepairedText(s: Bytes)
    requires WellFormed(s)
    ensures Repaired(s) == s
  {
    if s != [] {
      RepairedText(s[Decode(s).width..]);
    }
  }

  lemma StringRead(s: Bytes)
    requires Readable(Str(s))
    ensures Text(Some(Meaning(Str(s)))) == Some(s)
  {
    RepairedText(s);
  }

  lemma SliceRead(b: Option<Bytes>)
    ensures Slice(Some(Meaning(Bin(b)))) == Some(b)
  {
    if b.Some? { Base64ReadsBack(b.value); }
  }

  /** A pair of optional members: each is there if and only if it was given. */
  lemma OptionalFields(a: Name, x: Option<Json>, b: Name, y: Option<Json>)
    requires a != b
    ensures var v := Meaning(OptionalPair(a, x, b, y));
            && Get(v, a) == (if x.Some? then Some(Meaning(x.value)) else None)
            && Get(v, b) == (if y.Some? then Some(Meaning(y.value)) else None)
    ensures Readable(OptionalPair(a, x, b, y)) ==> (x.Some? ==> Readable(x.value)) && (y.Some? ==> Readable(y.value))
  {
    match (x, y)
    case (None, None) =>
    case (Some(p), None) => OneField(a, p);
    case (None, Some(q)) => OneField(b, q);
    case (Some(p), Some(q)) => TwoFields(a, p, b, q);
  }

  // Every message comes back.

  lemma CoinRead(c: Coin)
    requires Readable(CoinJson(c))
    ensures ReadCoin(Meaning(CoinJson(c))) == Some(c)
  {
    TwoFields("denom", Str(c.denom), "amount", Str(c.amount));
    StringRead(c.denom);
    StringRead(c.amount);
  }

  lemma {:induction false} CoinsRead(coins: seq<Coin>)
    requires ReadableItems(CoinItems(coins))
    ensures ReadCoins(ElementsOf(CoinItems(coins))) == Some(coins)
  {
    if coins != [] {
      CoinRead(coins[0]);
      CoinsRead(coins[1..]);
      assert ElementsOf(CoinItems(coins))[1..] == ElementsOf(CoinItems(coins[1..]));
      assert coins == [coins[0]] + coins[1..];
    }
  }

  lemma EndpointRead(e: Endpoint)
    requires Readable(EndpointJson(e))
    ensures ReadEndpoint(Meaning(EndpointJson(e))) == Some(e)
  {
    TwoFields("port_id", Str(e.portId), "channel_id", Str(e.channelId));
    StringRead(e.portId);
    StringRead(e.channelId);
  }

  lemma ChannelRead(c: Channel)
    requires Readable(ChannelJson(c))
    ensures ReadChannel(Meaning(ChannelJson(c))) == Some(c)
  {
    var last := Record3("order", Str(c.order), "version", Str(c.version), "connection_id", Str(c.connectionId));
    FieldsBefore("endpoint", EndpointJson(c.endpoint), "counterparty_endpoint", EndpointJson(c.counterpartyEndpoint), last.fields);
    ThreeFields("order", Str(c.order), "version", Str(c.version), "connection_id", Str(c.connectionId));
    EndpointRead(c.endpoint);
    EndpointRead(c.counterpartyEndpoint);
    StringRead(c.order);
    StringRead(c.version);
    StringRead(c.connectionId);
  }

  lemma OpenInitRead(o: OpenInit)
    requires Readable(OpenInitJson(o))
    ensures ReadOpenInit(Meaning(OpenInitJson(o))) == Some(o)
  {
    OneField("channel", ChannelJson(o.channel));
    ChannelRead(o.channel);
  }

  lemma OpenTryRead(o: OpenTry)
    requires Readable(OpenTryJson(o))
    ensures ReadOpenTry(Meaning(OpenTryJson(o))) == Some(o)
  {
    TwoFields("channel", ChannelJson(o.channel), "counterparty_version", Str(o.counterpartyVersion));
    ChannelRead(o.channel);
    StringRead(o.counterpartyVersion);
  }

  lemma ChannelOpenRead(m: ChannelOpenMsg)
    requires Readable(ChannelOpenJson(m))
    ensures ReadChannelOpen(Meaning(ChannelOpenJson(m))) == Some(m)
  {
    OptionalFields("open_init", MaybeInit(m.openInit), "open_try", MaybeTry(m.openTry));
    if m.openInit.Some? { OpenInitRead(m.openInit.value); }
    if m.openTry.Some? { OpenTryRead(m.openTry.value); }
  }

  lemma ChannelConnectRead(m: ChannelConnectMsg)
    requires Readable(ChannelConnectJson(m))
    ensures ReadChannelConnect(Meaning(ChannelConnectJson(m))) == Some(m)
  {
    OptionalFields("open_ack", MaybeTry(m.openAck), "open_confirm", MaybeInit(m.openConfirm));
    if m.openAck.Some? { OpenTryRead(m.openAck.value); }
    if m.openConfirm.Some? { OpenInitRead(m.openConfirm.value); }
  }

  lemma ChannelCloseRead(m: ChannelCloseMsg)
    requires Readable(ChannelCloseJson(m))
    ensures ReadChannelClose(Meaning(ChannelCloseJson(m))) == Some(m)
  {
    OptionalFields("close_init", MaybeInit(m.closeInit), "close_confirm", MaybeInit(m.closeConfirm));
    if m.closeInit.Some? { OpenInitRead(m.closeInit.value); }
    if m.closeConfirm.Some? { OpenInitRead(m.closeConfirm.value); }
  }

  lemma BlockRead(b: TimeoutBlock)
    ensures ReadBlock(Meaning(BlockJson(b))) == Some(b)
  {
    TwoFields("revision", Num(b.revision), "height", Num(b.height));
  }

  /** The block is always there, the timestamp if and only if it is not zero. */
  lemma TimeoutRead(t: Timeout)
    ensures ReadTimeout(Meaning(TimeoutJson(t))) == Some(t)
    ensures var v := Meaning(TimeoutJson(t)); Get(v, "block").Some? && (Get(v, "timestamp").Some? <==> t.timestamp != 0)
  {
    var block := if t.block.Some? then BlockJson(t.block.value) else Null;
    OneField("block", block);
    TwoFields("block", block, "timestamp", Quoted(t.timestamp));
    if t.block.Some? { BlockRead(t.block.value); }
    DigitsReadBack(t.timestamp);
    assert AllDigits(Digits(t.timestamp));
  }

  lemma PacketRead(p: Packet)
    requires Readable(PacketJson(p))
    ensures ReadPacket(Meaning(PacketJson(p))) == Some(p)
  {
    var last := Record3("dest", EndpointJson(p.dest), "sequence", Num(p.sequence), "timeout", TimeoutJson(p.timeout));
    FieldsBefore("data", Bin(p.data), "src", EndpointJson(p.src), last.fields);
    ThreeFields("dest", EndpointJson(p.dest), "sequence", Num(p.sequence), "timeout", TimeoutJson(p.timeout));
    SliceRead(p.data);
    EndpointRead(p.src);
    EndpointRead(p.dest);
    TimeoutRead(p.timeout);
  }

  lemma AcknowledgementRead(a: Acknowledgement)
    ensures ReadAcknowledgement(Meaning(AcknowledgementJson(a))) == Some(a)
  {
    OneField("data", Bin(a.data));
    SliceRead(a.data);
  }

  lemma TimeoutCallbackRead(m: TimeoutCallbackMsg)
    requires Readable(TimeoutCallbackJson(m))
    ensures ReadTimeoutCallback(Meaning(TimeoutCallbackJson(m))) == Some(m)
  {
    TwoFields("packet", PacketJson(m.packet), "relayer", Str(m.relayer));
    PacketRead(m.packet);
    StringRead(m.relayer);
  }

  lemma AckCallbackRead(m: AckCallbackMsg)
    requires Readable(AckCallbackJson(m))
    ensures ReadAckCallback(Meaning(AckCallbackJson(m))) == Some(m)
  {
    ThreeFields("acknowledgement", AcknowledgementJson(m.acknowledgement), "original_packet", PacketJson(m.originalPacket),
                "relayer", Str(m.relayer));
    AcknowledgementRead(m.acknowledgement);
    PacketRead(m.originalPacket);
    StringRead(m.relayer);
  }

  lemma SourceCallbackRead(m: SourceCallbackMsg)
    requires Readable(SourceCallbackJson(m))
    ensures ReadSourceCallback(Meaning(SourceCallbackJson(m))) == Some(m)
  {
    OptionalFields("acknowledgement", if m.acknowledgement.Some? then Some(AckCallbackJson(m.acknowledgement.value)) else None,
                   "timeout", if m.timeout.Some? then Some(TimeoutCallbackJson(m.timeout.value)) else None);
    if m.acknowledgement.Some? { AckCallbackRead(m.acknowledgement.value); }
    if m.timeout.Some? { TimeoutCallbackRead(m.timeout.value); }
  }

  lemma TransferRead(t: TransferCallback)
    requires Readable(TransferJson(t))
    ensures ReadTransfer(Meaning(TransferJson(t))) == Some(t)
  {
    ThreeFields("funds", Arr(CoinItems(t.funds)), "receiver", Str(t.receiver), "sender", Str(t.sender));
    CoinsRead(t.funds);
    StringRead(t.receiver);
    StringRead(t.sender);
  }

  lemma DestinationCallbackRead(m: DestinationCallbackMsg)
    requires Readable(DestinationCallbackJson(m))
    ensures ReadDestinationCallback(Meaning(DestinationCallbackJson(m))) == Some(m)
  {
    var last := if m.transfer.Some? then Field("transfer", TransferJson(m.transfer.value), NoFields) else NoFields;
    FieldsBefore("ack", AcknowledgementJson(m.ack), "packet", PacketJson(m.packet), last);
    AcknowledgementRead(m.ack);
    PacketRead(m.packet);
    if m.transfer.Some? {
      OneField("transfer", TransferJson(m.transfer.value));
      TransferRead(m.transfer.value);
    }
  }

  // From a text to the message.

  /** The message that a text stands for, if all of it is one. */
  function From<T>(text: Bytes, read: Value -> Option<T>): (r: Option<T>) {
    match ParseValue(text)
    case Some((v, rest)) => if rest == [] then read(v) else None
    case None => None
  }

  lemma PrintedFrom<T>(j: Json, read: Value -> Option<T>)
    ensures From(Print(j), read) == read(Meaning(j))
  {
    PrintedMeans(j, []);
    assert Print(j) + [] == Print(j);
  }

  lemma ChannelOpenText(m: ChannelOpenMsg)
    requires Readable(ChannelOpenJson(m))
    ensures From(Print(ChannelOpenJson(m)), ReadChannelOpen) == Some(m)
  {
    PrintedFrom(ChannelOpenJson(m), ReadChannelOpen);
    ChannelOpenRead(m);
  }

  lemma ChannelConnectText(m: ChannelConnectMsg)
    requires Readable(ChannelConnectJson(m))
    ensures From(Print(ChannelConnectJson(m)), ReadChannelConnect) == Some(m)
  {
    PrintedFrom(ChannelConnectJson(m), ReadChannelConnect);
    ChannelConnectRead(m);
  }

  lemma ChannelCloseText(m: ChannelCloseMsg)
    requires Readable(ChannelCloseJson(m))
    ensures From(Print(ChannelCloseJson(m)), ReadChannelClose) == Some(m)
  {
    PrintedFrom(ChannelCloseJson(m), ReadChannelClose);
    ChannelCloseRead(m);
  }

  lemma TimeoutCallbackText(m: TimeoutCallbackMsg)
    requires Readable(TimeoutCallbackJson(m))
    ensures From(Print(TimeoutCallbackJson(m)), ReadTimeoutCallback) == Some(m)
  {
    PrintedFrom(TimeoutCallbackJson(m), ReadTimeoutCallback);
    TimeoutCallbackRead(m);
  }

  lemma AckCallbackText(m: AckCallbackMsg)
    requires Readable(AckCallbackJson(m))
    ensures From(Print(AckCallbackJson(m)), ReadAckCallback) == Some(m)
  {
    PrintedFrom(AckCallbackJson(m), ReadAckCallback);
    AckCallbackRead(m);
  }

  lemma SourceCallbackText(m: SourceCallbackMsg)
    requires Readable(SourceCallbackJson(m))
    ensures From(Print(SourceCallbackJson(m)), ReadSourceCallback) == Some(m)
  {
    PrintedFrom(SourceCallbackJson(m), ReadSourceCallback);
    SourceCallbackRead(m);
  }

  lemma DestinationCallbackText(m: DestinationCallbackMsg)
    requires Readable(DestinationCallbackJson(m))
    ensures From(Print(DestinationCallbackJson(m)), ReadDestinationCallback) == Some(m)
  {
    PrintedFrom(DestinationCallbackJson(m), ReadDestinationCallback);
    DestinationCallbackRead(m);
  }
}
