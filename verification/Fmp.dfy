/** The framed message format FMP and the read loops around it (fmp_message.py, fmp_connection.py,
    fmp_server.py). */
module Fmp {
  import opened Options
  import opened ByteStrings
  import opened Codings
  import opened Sequences

  datatype PayloadType =
    Heartbeat | Register | TaskAssign | TaskResult | KvTransfer | KvLookup | FaultReport |
    ChatCompletion | Embedding | ControlFrame | Ack | Nack | ShardSync | ShardAck | KvGet |
    KvGetResp | KvPut | KvPutAck

  datatype ControlType = Beat | Acknowledge | Refuse | FlowControl | Disconnect

  datatype LinkLayer = LinkLayer(sourceId: string, targetId: string, hopCount: int, maxHops: int, trace: seq<string>)

  datatype BusinessLayer = BusinessLayer(
    payloadType: PayloadType, payload: Bytes, roundId: string, roundNumber: int, maxRounds: int)

  datatype ControlLayer = ControlLayer(
    controlType: ControlType, sequence: int, timestamp: real, ackSeq: int, flowWindow: int)

  datatype Message = Message(
    messageId: string, link: LinkLayer, business: BusinessLayer, control: ControlLayer, encrypted: bool)

  // ---------- dictionaries ----------

  /** Dictionaries as they come off the wire: any key may be missing. */
  datatype LinkDict = LinkDict(
    sourceId: Option<string>, targetId: Option<string>, hopCount: Option<int>, maxHops: Option<int>,
    trace: Option<seq<string>>)

  datatype RawPayload = Text(text: string) | Binary(bytes: Bytes)

  datatype BusinessDict = BusinessDict(
    payloadType: Option<string>, payload: Option<RawPayload>, roundId: Option<string>,
    roundNumber: Option<int>, maxRounds: Option<int>)

  datatype ControlDict = ControlDict(
    controlType: Option<string>, sequence: Option<int>, timestamp: Option<real>, ackSeq: Option<int>,
    flowWindow: Option<int>)

  datatype MessageDict = MessageDict(
    messageId: Option<string>, link: Option<LinkDict>, business: Option<BusinessDict>,
    control: Option<ControlDict>, encrypted: Option<bool>)

  const MAX_HOP_COUNT := 3
  const MAX_ROUNDS := 10
  const FLOW_WINDOW := 64

  /** The outside libraries; msgpack may not be installed. */
  datatype Codecs = Codecs(
    json: Coding<MessageDict>, msgpack: Option<Coding<MessageDict>>,
    encode64: Bytes -> string, decode64: string -> Option<Bytes>)
  {
    /** They give this message's payload and dictionary back. */
    ghost predicate Undo(m: Message) {
      && json.Undoes(ToDict(m, this))
      && (msgpack.Some? ==> msgpack.value.Undoes(ToDict(m, this)))
      && decode64(encode64(m.business.payload)) == Some(m.business.payload)
    }
  }

  function PayloadValue(t: PayloadType): string {
    match t
    case Heartbeat => "heartbeat"
    case Register => "register"
    case TaskAssign => "task_assign"
    case TaskResult => "task_result"
    case KvTransfer => "kv_transfer"
    case KvLookup => "kv_lookup"
    case FaultReport => "fault_report"
    case ChatCompletion => "chat_completion"
    case Embedding => "embedding"
    case ControlFrame => "control"
    case Ack => "ack"
    case Nack => "nack"
    case ShardSync => "shard_sync"
    case ShardAck => "shard_ack"
    case KvGet => "kv_get"
    case KvGetResp => "kv_get_resp"
    case KvPut => "kv_put"
    case KvPutAck => "kv_put_ack"
  }

  function PayloadFrom(s: string): Option<PayloadType> {
    if s == "heartbeat" then Some(Heartbeat)
    else if s == "register" then Some(Register)
    else if s == "task_assign" then Some(TaskAssign)
    else if s == "task_result" then Some(TaskResult)
    else if s == "kv_transfer" then Some(KvTransfer)
    else if s == "kv_lookup" then Some(KvLookup)
    else if s == "fault_report" then Some(FaultReport)
    else if s == "chat_completion" then Some(ChatCompletion)
    else if s == "embedding" then Some(Embedding)
    else if s == "control" then Some(ControlFrame)
    else if s == "ack" then Some(Ack)
    else if s == "nack" then Some(Nack)
    else if s == "shard_sync" then Some(ShardSync)
    else if s == "shard_ack" then Some(ShardAck)
    else if s == "kv_get" then Some(KvGet)
    else if s == "kv_get_resp" then Some(KvGetResp)
    else if s == "kv_put" then Some(KvPut)
    else if s == "kv_put_ack" then Some(KvPutAck)
    else None
  }

  function ControlValue(t: ControlType): string {
    match t
    case Beat => "heartbeat"
    case Acknowledge => "ack"
    case Refuse => "nack"
    case FlowControl => "flow_control"
    case Disconnect => "disconnect"
  }

  function ControlFrom(s: string): Option<ControlType> {
    if s == "heartbeat" then Some(Beat)
    else if s == "ack" then Some(Acknowledge)
    else if s == "nack" then Some(Refuse)
    else if s == "flow_control" then Some(FlowControl)
    else if s == "disconnect" then Some(Disconnect)
    else None
  }

  lemma PayloadValuesDiffer(t: PayloadType)
    ensures PayloadFrom(PayloadValue(t)) == Some(t)
  {
  }

  lemma ControlValuesDiffer(t: ControlType)
    ensures ControlFrom(ControlValue(t)) == Some(t)
  {
  }

  function Get<T>(o: Option<T>, default: T): T {
    if o.Some? then o.value else default
  }

  function ToDict(m: Message, codecs: Codecs): MessageDict {
    MessageDict(
      Some(m.messageId),
      Some(LinkDict(Some(m.link.sourceId), Some(m.link.targetId), Some(m.link.hopCount), Some(m.link.maxHops),
                    Some(m.link.trace))),
      Some(BusinessDict(Some(PayloadValue(m.business.payloadType)), Some(Text(codecs.encode64(m.business.payload))),
                        Some(m.business.roundId), Some(m.business.roundNumber), Some(m.business.maxRounds))),
      Some(ControlDict(Some(ControlValue(m.control.controlType)), Some(m.control.sequence),
                       Some(m.control.timestamp), Some(m.control.ackSeq), Some(m.control.flowWindow))),
      Some(m.encrypted))
  }

  function LinkFrom(d: LinkDict): Option<LinkLayer> {
    if d.sourceId.None? || d.targetId.None? then None
    else Some(LinkLayer(d.sourceId.value, d.targetId.value, Get(d.hopCount, 0), Get(d.maxHops, MAX_HOP_COUNT),
                        Get(d.trace, [])))
  }

  function BusinessFrom(d: BusinessDict, codecs: Codecs): Option<BusinessLayer> {
    if d.payload.None? || d.payloadType.None? then None
    else
      var payload := if d.payload.value.Text? then codecs.decode64(d.payload.value.text) else Some(d.payload.value.bytes);
      var kind := PayloadFrom(d.payloadType.value);
      if payload.None? || kind.None? then None
      else Some(BusinessLayer(kind.value, payload.value, Get(d.roundId, ""), Get(d.roundNumber, 0),
                              Get(d.maxRounds, MAX_ROUNDS)))
  }

  function ControlLayerFrom(d: ControlDict): Option<ControlLayer> {
    if d.controlType.None? || ControlFrom(d.controlType.value).None? then None
    else Some(ControlLayer(ControlFrom(d.controlType.value).value, Get(d.sequence, 0), Get(d.timestamp, 0.0),
                           Get(d.ackSeq, 0), Get(d.flowWindow, FLOW_WINDOW)))
  }

  /** The message a dictionary describes; identities and types must be there, the rest has defaults. */
  function FromDict(d: MessageDict, codecs: Codecs): Option<Message> {
    if d.messageId.None? || d.link.None? || d.business.None? || d.control.None? then None
    else
      var link, business := LinkFrom(d.link.value), BusinessFrom(d.business.value, codecs);
      var control := ControlLayerFrom(d.control.value);
      if link.None? || business.None? || control.None? then None
      else Some(Message(d.messageId.value, link.value, business.value, control.value, Get(d.encrypted, false)))
  }

  lemma FromDictUndoesToDict(m: Message, codecs: Codecs)
    requires codecs.Undo(m)
    ensures FromDict(ToDict(m, codecs), codecs) == Some(m)
  {
    PayloadValuesDiffer(m.business.payloadType);
    ControlValuesDiffer(m.control.controlType);
  }

  /** For any list of messages there are libraries that give all of them back, with and without
      msgpack, so the theorems below are about something. */
  lemma CodecsExist(messages: seq<Message>, installed: bool) returns (codecs: Codecs)
    ensures codecs.msgpack.Some? <==> installed
    ensures forall m :: m in messages ==> codecs.Undo(m) && |codecs.json.enc(ToDict(m, codecs))| <= |messages|
  {
    var none := Numbering([]);
    var blank := Codecs(none, None, ToText, FromText);
    var dicts := seq(|messages|, i requires 0 <= i < |messages| => ToDict(messages[i], blank));
    var coding := Numbering(dicts);
    codecs := Codecs(coding, if installed then Some(coding) else None, ToText, FromText);
    NumberingUndoes(dicts);
    forall m | m in messages ensures codecs.Undo(m) && |coding.enc(ToDict(m, codecs))| <= |messages| {
      var i :| 0 <= i < |messages| && messages[i] == m;
      assert ToDict(m, codecs) == dicts[i];
      FromTextUndoesToText(m.business.payload);
    }
  }

  // ---------- frames ----------

  const MAGIC: Bytes := [0x46, 0x4D, 0x50, 0x01]
  const VERSION: Byte := 1
  const HEADER_SIZE := 12
  const MAX_SIZE := 16 * 1024 * 1024

  const ENCRYPTED: Byte := 1
  const MSGPACK: Byte := 2

  function Payload(m: Message, useMsgpack: bool, codecs: Codecs): Bytes {
    if useMsgpack && codecs.msgpack.Some? then codecs.msgpack.value.enc(ToDict(m, codecs))
    else codecs.json.enc(ToDict(m, codecs))
  }

  function Flags(m: Message, useMsgpack: bool, codecs: Codecs): Byte {
    (if m.encrypted then ENCRYPTED else 0) + if useMsgpack && codecs.msgpack.Some? then MSGPACK else 0
  }

  /** Magic, version, flags, payload length in four bytes, two reserved bytes, payload. */
  function Serialize(m: Message, useMsgpack: bool, codecs: Codecs): Option<Bytes> {
    var payload := Payload(m, useMsgpack, codecs);
    if |payload| < Pow256(4) then
      Some(MAGIC + [VERSION, Flags(m, useMsgpack, codecs)] + BigEndian(|payload|, 4) + [0, 0] + payload)
    else None
  }

  datatype Error = TooShort | BadMagic | BadVersion | TooLarge | Incomplete | NoMsgpack | BadPayload

  datatype Result = Ok(message: Message) | Err(error: Error)

  function Deserialize(data: Bytes, codecs: Codecs): Result {
    if |data| < HEADER_SIZE then Err(TooShort)
    else if data[..4] != MAGIC then Err(BadMagic)
    else if data[4] != VERSION then Err(BadVersion)
    else
      var flags, len := data[5], FromBigEndian(data[6..10]);
      if len > MAX_SIZE then Err(TooLarge)
      else if |data| < HEADER_SIZE + len then Err(Incomplete)
      else if flags / 2 % 2 == 1 && codecs.msgpack.None? then Err(NoMsgpack)
      else
        var codec := if flags / 2 % 2 == 1 then codecs.msgpack.value else codecs.json;
        match codec.dec(data[HEADER_SIZE..HEADER_SIZE + len])
        case None => Err(BadPayload)
        case Some(d) =>
          match FromDict(d.(encrypted := Some(flags % 2 == 1)), codecs)
          case None => Err(BadPayload)
          case Some(m) => Ok(m)
  }

  lemma HeaderFields(m: Message, useMsgpack: bool, codecs: Codecs, tail: Bytes)
    requires Serialize(m, useMsgpack, codecs).Some?
    ensures var payload, frame := Payload(m, useMsgpack, codecs), Serialize(m, useMsgpack, codecs).value;
            var data := frame + tail;
            && |frame| == HEADER_SIZE + |payload|
            && data[..4] == MAGIC && data[4] == VERSION && data[5] == Flags(m, useMsgpack, codecs)
            && FromBigEndian(data[6..10]) == |payload|
            && data[HEADER_SIZE..HEADER_SIZE + |payload|] == payload
  {
    var payload, frame := Payload(m, useMsgpack, codecs), Serialize(m, useMsgpack, codecs).value;
    var data, len := frame + tail, BigEndian(|payload|, 4);
    assert |MAGIC| == 4 && |len| == 4;
    assert data[..4] == MAGIC && data[6..10] == len && data[12..12 + |payload|] == payload;
    BigEndianInverse(|payload|, 4);
  }

  /** Reading a frame back gives the message, whatever follows the frame, if and only if its
      payload is at most 16 MiB; a larger one is written but refused. */
  lemma FrameRoundTrip(m: Message, useMsgpack: bool, codecs: Codecs, tail: Bytes)
    requires codecs.Undo(m) && Serialize(m, useMsgpack, codecs).Some?
    ensures Deserialize(Serialize(m, useMsgpack, codecs).value + tail, codecs)
         == if |Payload(m, useMsgpack, codecs)| <= MAX_SIZE then Ok(m) else Err(TooLarge)
  {
    HeaderFields(m, useMsgpack, codecs, tail);
    FromDictUndoesToDict(m, codecs);
    var flags := Flags(m, useMsgpack, codecs);
    assert (flags / 2 % 2 == 1 <==> useMsgpack && codecs.msgpack.Some?) && (flags % 2 == 1 <==> m.encrypted);
    assert ToDict(m, codecs).(encrypted := Some(m.encrypted)) == ToDict(m, codecs);
  }

  /** The bytes of a frame: magic and version, one flag for encryption and one for msgpack, the payload's
      length, two zero bytes, and the payload. */
  lemma FrameBytes(m: Message, useMsgpack: bool, codecs: Codecs)
    requires Serialize(m, useMsgpack, codecs).Some?
    ensures var frame, payload := Serialize(m, useMsgpack, codecs).value, Payload(m, useMsgpack, codecs);
            && frame[..5] == [0x46, 0x4D, 0x50, 0x01, 0x01] && frame[12..] == payload
            && frame[5] == (if m.encrypted then 1 else 0) + (if useMsgpack && codecs.msgpack.Some? then 2 else 0)
            && FromBigEndian(frame[6..10]) == |payload| && frame[10..12] == [0, 0]
  {
    HeaderFields(m, useMsgpack, codecs, []);
    var frame := Serialize(m, useMsgpack, codecs).value;
    assert frame + [] == frame;
    assert frame[..5] == MAGIC + [VERSION];
  }

  /** The dictionary in a frame, by the coding its flag names. */
  ghost function Carried(data: Bytes, codecs: Codecs): Option<MessageDict>
    requires |data| >= 12 && |data| >= 12 + FromBigEndian(data[6..10]) && (data[5] / 2 % 2 == 1 ==> codecs.msgpack.Some?)
  {
    var payload := data[12..12 + FromBigEndian(data[6..10])];
    if data[5] / 2 % 2 == 1 then codecs.msgpack.value.dec(payload) else codecs.json.dec(payload)
  }

  /** Bytes are read as a message exactly if they begin with magic and version, announce at most 16 MiB
      that are all there, in a coding that is installed, and carry the dictionary of a message; the
      message is encrypted exactly if the frame says so, whatever the dictionary says. */
  lemma AcceptedIff(data: Bytes, codecs: Codecs)
    ensures Deserialize(data, codecs).Ok? <==>
              && |data| >= 12 && data[..5] == [0x46, 0x4D, 0x50, 0x01, 0x01]
              && FromBigEndian(data[6..10]) <= 16777216 && |data| >= 12 + FromBigEndian(data[6..10])
              && (data[5] / 2 % 2 == 1 ==> codecs.msgpack.Some?)
              && Carried(data, codecs).Some? && FromDict(Carried(data, codecs).value, codecs).Some?
    ensures Deserialize(data, codecs).Ok? ==>
              Deserialize(data, codecs).message ==
              FromDict(Carried(data, codecs).value, codecs).value.(encrypted := data[5] % 2 == 1)
  {
    if |data| >= 12 {
      assert data[..5] == data[..4] + [data[4]];
      assert data[..5][..4] == data[..4] && data[..5][4] == data[4];
    }
  }

  /** A dictionary describes a message exactly if no identity, type or payload is missing or unreadable. */
  lemma DescribesIff(d: MessageDict, codecs: Codecs)
    ensures FromDict(d, codecs).Some? <==>
              && d.messageId.Some? && d.link.Some? && d.business.Some? && d.control.Some?
              && d.link.value.sourceId.Some? && d.link.value.targetId.Some?
              && d.business.value.payload.Some? && d.business.value.payloadType.Some? && d.control.value.controlType.Some?
              && (exists t :: d.business.value.payloadType == Some(PayloadValue(t)))
              && (exists t :: d.control.value.controlType == Some(ControlValue(t)))
              && (d.business.value.payload.value.Text? ==> codecs.decode64(d.business.value.payload.value.text).Some?)
  {
    if d.business.Some? && d.business.value.payloadType.Some? { PayloadNamed(d.business.value.payloadType); }
    if d.control.Some? && d.control.value.controlType.Some? { ControlNamed(d.control.value.controlType); }
  }

  /** A string is read as a payload type exactly if it is the value of one. */
  lemma PayloadNamed(s: Option<string>)
    requires s.Some?
    ensures PayloadFrom(s.value).Some? <==> exists t :: s == Some(PayloadValue(t))
  {
    ReadsPayload(s.value);
    if t :| s == Some(PayloadValue(t)) { PayloadValuesDiffer(t); }
  }

  lemma ReadsPayload(s: string)
    ensures PayloadFrom(s).Some? ==> s == PayloadValue(PayloadFrom(s).value)
  {
  }

  lemma ControlNamed(s: Option<string>)
    requires s.Some?
    ensures ControlFrom(s.value).Some? <==> exists t :: s == Some(ControlValue(t))
  {
    ReadsControl(s.value);
    if t :| s == Some(ControlValue(t)) { ControlValuesDiffer(t); }
  }

  lemma ReadsControl(s: string)
    ensures ControlFrom(s).Some? ==> s == ControlValue(ControlFrom(s).value)
  {
  }

  /** Everything else has a default: no hops of at most three, round 0 of at most ten, nothing
      acknowledged, a window of 64, not encrypted. */
  lemma Defaults(id: string, source: string, target: string, kind: PayloadType, payload: Bytes, control: ControlType, codecs: Codecs)
    ensures FromDict(MessageDict(Some(id), Some(LinkDict(Some(source), Some(target), None, None, None)),
                                 Some(BusinessDict(Some(PayloadValue(kind)), Some(Binary(payload)), None, None, None)),
                                 Some(ControlDict(Some(ControlValue(control)), None, None, None, None)), None), codecs)
         == Some(Message(id, LinkLayer(source, target, 0, 3, []), BusinessLayer(kind, payload, "", 0, 10),
                         ControlLayer(control, 0, 0.0, 0, 64), false))
  {
    PayloadValuesDiffer(kind);
    ControlValuesDiffer(control);
  }

  // ---------- streams ----------

  const LENGTH_BYTES: nat := 4

  /** What send writes: the length of the frame in four bytes, and the frame. */
  function Framed(frame: Bytes): (r: Bytes)
    requires |frame| < Pow256(LENGTH_BYTES)
    ensures |r| == 4 + |frame|
  {
    BigEndian(|frame|, LENGTH_BYTES) + frame
  }

  ghost predicate Sendable(frames: seq<Bytes>) {
    forall f :: f in frames ==> |f| < Pow256(LENGTH_BYTES)
  }

  ghost function Wire(frames: seq<Bytes>): Bytes
    requires Sendable(frames)
  {
    if frames == [] then [] else Framed(frames[0]) + Wire(frames[1..])
  }

  /** How a read loop with these codecs reads a frame. */
  function Reader(codecs: Codecs): Bytes -> Result {
    data => Deserialize(data, codecs)
  }

  /** Timeouts, one flag for each time a loop waits for the body of a frame. A timeout while the
      loop waits for a length loses nothing: a read that gives up leaves the bytes where they are. */
  type Timeouts = seq<bool>

  predicate TimesOut(late: Timeouts) {
    late != [] && late[0]
  }

  function Later(late: Timeouts): Timeouts {
    if late == [] then [] else late[1..]
  }

  /** The messages a read loop hands on before it stops: at the end of the stream, inside a frame,
      at a length it does not accept, or at a frame it cannot read. After a timeout it takes the
      body it was waiting for as the next length. */
  function ReadAll(stream: Bytes, read: Bytes -> Result, late: Timeouts): seq<Message>
    decreases |stream|
  {
    if |stream| < 4 then []
    else
      var len := FromBigEndian(stream[..4]);
      if len == 0 || len > MAX_SIZE then []
      else if TimesOut(late) then ReadAll(stream[4..], read, Later(late))
      else if |stream| < 4 + len then []
      else
        match read(stream[4..4 + len])
        case Err(_) => []
        case Ok(m) => [m] + ReadAll(stream[4 + len..], read, Later(late))
  }

  /** The frames of a list of messages, each in the format its flag asks for. */
  ghost predicate FramesOf(messages: seq<Message>, useMsgpack: seq<bool>, frames: seq<Bytes>, codecs: Codecs) {
    && |messages| == |useMsgpack| == |frames|
    && forall i :: 0 <= i < |messages| ==> Serialize(messages[i], useMsgpack[i], codecs) == Some(frames[i])
  }

  /** Whether the first frame is read: it fits the limit, is complete in the first `arrived` bytes,
      and no timeout falls between its length and its body. */
  ghost predicate FirstIsRead(frames: seq<Bytes>, arrived: nat, late: Timeouts)
    requires frames != []
  {
    |frames[0]| <= MAX_SIZE && arrived >= 4 + |frames[0]| && !TimesOut(late)
  }

  /** How many leading frames are read. */
  ghost function Readable(frames: seq<Bytes>, arrived: nat, late: Timeouts): (n: nat)
    ensures n <= |frames|
  {
    if frames == [] || !FirstIsRead(frames, arrived, late) then 0
    else 1 + Readable(frames[1..], arrived - 4 - |frames[0]|, Later(late))
  }

  /** No timeout falls between a length and its body, for the first n frames. */
  ghost predicate InTime(late: Timeouts, n: nat) {
    forall i :: 0 <= i < n && i < |late| ==> !late[i]
  }

  lemma InTimeLater(late: Timeouts, n: nat)
    requires n > 0
    ensures InTime(late, n) <==> !TimesOut(late) && InTime(Later(late), n - 1)
  {
    if late != [] && !late[0] && InTime(late[1..], n - 1) {
      forall i | 0 <= i < n && i < |late| ensures !late[i] {
        if i > 0 { assert !late[1..][i - 1]; }
      }
    }
  }

  lemma {:induction false} AllReadable(frames: seq<Bytes>, late: Timeouts)
    requires Sendable(frames)
    ensures Readable(frames, |Wire(frames)|, late) == |frames|
            <==> (forall f :: f in frames ==> |f| <= MAX_SIZE) && InTime(late, |frames|)
  {
    if frames != [] {
      AllReadable(frames[1..], Later(late));
      InTimeLater(late, |frames|);
      assert forall f :: f in frames <==> f == frames[0] || f in frames[1..];
    }
  }

  /** Every frame begins like this. */
  ghost predicate BeginsWithMagic(frame: Bytes) {
    |frame| >= 4 && frame[..4] == MAGIC
  }

  /** Read as a length, the magic is far above the limit. */
  lemma MagicIsNoLength()
    ensures FromBigEndian(MAGIC) == 0x464D5001 > MAX_SIZE
  {
    var one, two, three: Bytes := [0x46], [0x46, 0x4D], [0x46, 0x4D, 0x50];
    assert MAGIC[..3] == three && three[..2] == two && two[..1] == one && one[..0] == [];
    assert FromBigEndian(one) == 0x46 && FromBigEndian(two) == 0x464D && FromBigEndian(three) == 0x464D50;
  }

  /** A loop that takes the beginning of a frame for a length stops. */
  lemma OutOfStep(frame: Bytes, rest: Bytes, n: nat, read: Bytes -> Result, late: Timeouts)
    requires BeginsWithMagic(frame) && n <= |frame + rest|
    ensures ReadAll((frame + rest)[..n], read, late) == []
  {
    MagicIsNoLength();
    if n >= 4 {
      assert (frame + rest)[..n][..4] == frame[..4];
    }
  }

  lemma ReadOne(frame: Bytes, rest: Bytes, arrived: nat, read: Bytes -> Result, late: Timeouts)
    requires |frame| < Pow256(LENGTH_BYTES) && BeginsWithMagic(frame) && arrived <= |Framed(frame) + rest|
    ensures var stream := (Framed(frame) + rest)[..arrived];
            ReadAll(stream, read, late) ==
            if !FirstIsRead([frame], arrived, late) || read(frame).Err? then []
            else [read(frame).message] + ReadAll(rest[..arrived - 4 - |frame|], read, Later(late))
  {
    BigEndianInverse(|frame|, LENGTH_BYTES);
    if arrived >= 4 {
      FramedParts(BigEndian(|frame|, LENGTH_BYTES), frame, rest, arrived);
      OutOfStep(frame, rest, arrived - 4, read, Later(late));
    }
  }

  lemma FramedParts(length: Bytes, frame: Bytes, rest: Bytes, n: nat)
    requires |length| == 4 <= n <= |(length + frame) + rest|
    ensures var stream := ((length + frame) + rest)[..n];
            && stream[..4] == length && stream[4..] == (frame + rest)[..n - 4]
            && (n >= 4 + |frame| ==> stream[4..4 + |frame|] == frame && stream[4 + |frame|..] == rest[..n - 4 - |frame|])
  {
    var stream := ((length + frame) + rest)[..n];
    assert stream[..4] == length;
    assert stream[4..] == (frame + rest)[..n - 4];
    if n >= 4 + |frame| {
      assert stream[4..4 + |frame|] == frame;
      assert stream[4 + |frame|..] == rest[..n - 4 - |frame|];
    }
  }

  lemma TakeMore<T>(s: seq<T>, n: nat)
    requires n < |s|
    ensures s[..n + 1] == [s[0]] + s[1..][..n]
  {
  }

  /** The reader gives back each message from its frame, if the frame fits the limit. */
  ghost predicate Reads(messages: seq<Message>, frames: seq<Bytes>, read: Bytes -> Result) {
    && |messages| == |frames|
    && forall i :: 0 <= i < |frames| ==>
         BeginsWithMagic(frames[i]) && (|frames[i]| <= MAX_SIZE ==> read(frames[i]) == Ok(messages[i]))
  }

  lemma ReadsTail(messages: seq<Message>, frames: seq<Bytes>, read: Bytes -> Result)
    requires Reads(messages, frames, read) && frames != []
    ensures Reads(messages[1..], frames[1..], read)
  {
  }

  /** Hearing what a frame brings before hearing what comes later is hearing it all. */
  lemma DeliverStep(messages: seq<Message>, frames: seq<Bytes>, arrived: nat, late: Timeouts,
                    all: seq<Message>, later: seq<Message>)
    requires |messages| == |frames| > 0
    requires if !FirstIsRead(frames, arrived, late) then all == []
             else all == [messages[0]] + later
                  && later == messages[1..][..Readable(frames[1..], arrived - 4 - |frames[0]|, Later(late))]
    ensures all == messages[..Readable(frames, arrived, late)]
  {
    if FirstIsRead(frames, arrived, late) {
      TakeMore(messages, Readable(frames[1..], arrived - 4 - |frames[0]|, Later(late)));
    }
  }

  lemma HeadSize(frames: seq<Bytes>)
    requires Sendable(frames) && frames != []
    ensures |frames[0]| < Pow256(LENGTH_BYTES) && Sendable(frames[1..])
    ensures |Wire(frames)| == 4 + |frames[0]| + |Wire(frames[1..])|
  {
  }

  /** From what is heard after the first frame to what is heard in all. */
  lemma HearFirst(messages: seq<Message>, frames: seq<Bytes>, rest: Bytes, arrived: nat, read: Bytes -> Result, late: Timeouts)
    requires |messages| == |frames| > 0 && BeginsWithMagic(frames[0]) && |frames[0]| < Pow256(LENGTH_BYTES)
    requires |frames[0]| <= MAX_SIZE ==> read(frames[0]) == Ok(messages[0])
    requires arrived <= |Framed(frames[0]) + rest|
    requires FirstIsRead(frames, arrived, late) ==>
               ReadAll(rest[..arrived - 4 - |frames[0]|], read, Later(late))
               == messages[1..][..Readable(frames[1..], arrived - 4 - |frames[0]|, Later(late))]
    ensures ReadAll((Framed(frames[0]) + rest)[..arrived], read, late) == messages[..Readable(frames, arrived, late)]
  {
    var frame := frames[0];
    ReadOne(frame, rest, arrived, read, late);
    var fits := FirstIsRead(frames, arrived, late);
    DeliverStep(messages, frames, arrived, late, ReadAll((Framed(frame) + rest)[..arrived], read, late),
                if fits then ReadAll(rest[..arrived - 4 - |frame|], read, Later(late)) else []);
  }

  lemma HearNothing(messages: seq<Message>, read: Bytes -> Result, late: Timeouts)
    requires messages == []
    ensures ReadAll(Wire([])[..0], read, late) == messages[..Readable([], 0, late)]
  {
  }

  lemma {:induction false} StreamDelivers(messages: seq<Message>, frames: seq<Bytes>, arrived: nat,
                                          read: Bytes -> Result, late: Timeouts)
    requires Reads(messages, frames, read) && Sendable(frames) && arrived <= |Wire(frames)|
    ensures ReadAll(Wire(frames)[..arrived], read, late) == messages[..Readable(frames, arrived, late)]
    decreases |frames|
  {
    if frames == [] {
      HearNothing(messages, read, late);
    } else {
      HeadSize(frames);
      if FirstIsRead(frames, arrived, late) {
        ReadsTail(messages, frames, read);
        StreamDelivers(messages[1..], frames[1..], arrived - 4 - |frames[0]|, read, Later(late));
      }
      HearFirst(messages, frames, Wire(frames[1..]), arrived, read, late);
    }
  }

  /** Stream round trip: of any number of messages sent one after another, cut off anywhere and with
      timeouts anywhere, the read loop hands on exactly the leading ones that fit the limit,
      arrived whole, and met no timeout between length and body, in order. */
  lemma StreamRoundTrip(messages: seq<Message>, useMsgpack: seq<bool>, frames: seq<Bytes>, arrived: nat,
                        late: Timeouts, codecs: Codecs)
    requires (forall m :: m in messages ==> codecs.Undo(m)) && FramesOf(messages, useMsgpack, frames, codecs)
    requires Sendable(frames) && arrived <= |Wire(frames)|
    ensures ReadAll(Wire(frames)[..arrived], Reader(codecs), late) == messages[..Readable(frames, arrived, late)]
  {
    forall i | 0 <= i < |frames|
      ensures BeginsWithMagic(frames[i]) && (|frames[i]| <= MAX_SIZE ==> Reader(codecs)(frames[i]) == Ok(messages[i]))
    {
      FirstFrame(messages[i], useMsgpack[i], frames[i], codecs);
    }
    StreamDelivers(messages, frames, arrived, Reader(codecs), late);
  }

  lemma FirstFrame(m: Message, useMsgpack: bool, frame: Bytes, codecs: Codecs)
    requires codecs.Undo(m) && Serialize(m, useMsgpack, codecs) == Some(frame)
    ensures BeginsWithMagic(frame) && (|frame| <= MAX_SIZE ==> Deserialize(frame, codecs) == Ok(m))
  {
    HeaderFields(m, useMsgpack, codecs, []);
    FrameRoundTrip(m, useMsgpack, codecs, []);
    assert frame + [] == frame;
  }

  /** A whole stream is read back exactly when every frame, header included, is at most 16 MiB and
      no timeout falls between a length and its body. */
  lemma WholeStreamIff(messages: seq<Message>, useMsgpack: seq<bool>, frames: seq<Bytes>, late: Timeouts, codecs: Codecs)
    requires (forall m :: m in messages ==> codecs.Undo(m)) && FramesOf(messages, useMsgpack, frames, codecs) && Sendable(frames)
    ensures ReadAll(Wire(frames), Reader(codecs), late) == messages
            <==> (forall f :: f in frames ==> |f| <= MAX_SIZE) && InTime(late, |frames|)
  {
    StreamRoundTrip(messages, useMsgpack, frames, |Wire(frames)|, late, codecs);
    AllReadable(frames, late);
    assert Wire(frames)[..|Wire(frames)|] == Wire(frames);
    assert messages[..|messages|] == messages;
  }

  /** For any message there are codings that give it a frame with 16 MiB of payload: the frame can
      be parsed, and the read loop does not hand it on. */
  lemma LargeFrameIsRefused(m: Message) returns (codecs: Codecs, frame: Bytes)
    ensures codecs.Undo(m) && Serialize(m, false, codecs) == Some(frame) && |Payload(m, false, codecs)| == MAX_SIZE
    ensures Deserialize(frame, codecs) == Ok(m)
    ensures Sendable([frame]) && ReadAll(Wire([frame]), Reader(codecs), []) == []
  {
    var blank := Codecs(Numbering([]), None, ToText, FromText);
    var dict := ToDict(m, blank);
    codecs := Codecs(Coding(_ => seq(MAX_SIZE, _ => 0), _ => Some(dict)), None, ToText, FromText);
    FromTextUndoesToText(m.business.payload);
    assert ToDict(m, codecs) == dict;
    Pow256Four();
    frame := Serialize(m, false, codecs).value;
    HeaderFields(m, false, codecs, []);
    FrameRoundTrip(m, false, codecs, []);
    assert frame + [] == frame;
    StreamRoundTrip([m], [false], [frame], |Wire([frame])|, [], codecs);
    assert Wire([frame])[..|Wire([frame])|] == Wire([frame]);
  }

  /** What the read loop does at one position of the stream. */
  lemma ReadAt(stream: Bytes, at: nat, read: Bytes -> Result, late: Timeouts)
    requires at + 4 <= |stream|
    ensures var len := FromBigEndian(stream[at..at + 4]);
            ReadAll(stream[at..], read, late) ==
            if len == 0 || len > MAX_SIZE then []
            else if TimesOut(late) then ReadAll(stream[at + 4..], read, Later(late))
            else if at + 4 + len > |stream| then []
            else
              var result := read(stream[at + 4..at + 4 + len]);
              if result.Err? then [] else [result.message] + ReadAll(stream[at + 4 + len..], read, Later(late))
  {
    var rest, len := stream[at..], FromBigEndian(stream[at..at + 4]);
    PartsAt(stream, at, len);
    assert FromBigEndian(rest[..4]) == len;
  }

  lemma PartsAt(stream: Bytes, at: nat, len: nat)
    requires at + 4 <= |stream|
    ensures stream[at..][..4] == stream[at..at + 4] && stream[at..][4..] == stream[at + 4..]
    ensures at + 4 + len <= |stream| ==>
              stream[at..][4..4 + len] == stream[at + 4..at + 4 + len] && stream[at..][4 + len..] == stream[at + 4 + len..]
  {
  }

  /** What one turn of a read loop keeps. */
  lemma ReadTurn(stream: Bytes, at: nat, read: Bytes -> Result, late: Timeouts, messages: seq<Message>)
    requires at + 4 <= |stream|
    ensures var len := FromBigEndian(stream[at..at + 4]);
            messages + ReadAll(stream[at..], read, late) ==
            if len == 0 || len > MAX_SIZE then messages
            else if TimesOut(late) then messages + ReadAll(stream[at + 4..], read, Later(late))
            else if at + 4 + len > |stream| then messages
            else
              var result := read(stream[at + 4..at + 4 + len]);
              if result.Err? then messages
              else (messages + [result.message]) + ReadAll(stream[at + 4 + len..], read, Later(late))
  {
    ReadAt(stream, at, read, late);
    var len := FromBigEndian(stream[at..at + 4]);
    assert messages + [] == messages;
    if len <= MAX_SIZE && at + 4 + len <= |stream| && read(stream[at + 4..at + 4 + len]).Ok? {
      Associates(messages, [read(stream[at + 4..at + 4 + len]).message], ReadAll(stream[at + 4 + len..], read, Later(late)));
    }
  }

  /** One turn of a read loop at a complete length: whether it goes on, and from where. */
  method ReadFrame(stream: Bytes, at: nat, read: Bytes -> Result, late: Timeouts, messages: seq<Message>)
    returns (goesOn: bool, at': nat, messages': seq<Message>)
    requires at + 4 <= |stream|
    ensures goesOn ==> at < at' <= |stream| &&
                       messages + ReadAll(stream[at..], read, late) == messages' + ReadAll(stream[at'..], read, Later(late))
    ensures !goesOn ==> messages + ReadAll(stream[at..], read, late) == messages'
  {
    ReadTurn(stream, at, read, late, messages);
    at', messages' := at + 4, messages;
    var len := FromBigEndian(stream[at..at + 4]);
    if len <= 0 || len > MAX_SIZE {
      return false, at', messages';
    }
    if TimesOut(late) {
      return true, at', messages';
    }
    if at + 4 + len > |stream| {
      return false, at', messages';
    }
    var result := read(stream[at + 4..at + 4 + len]);
    if result.Err? {
      return false, at', messages';
    }
    return true, at + 4 + len, messages + [result.message];
  }

  /** The read loops, for any way of reading a frame; `at` is how far the stream has been read. */
  method ReadLoop(stream: Bytes, read: Bytes -> Result, late: Timeouts) returns (messages: seq<Message>)
    ensures messages == ReadAll(stream, read, late)
  {
    messages := [];
    var at, left := 0, late;
    assert stream[0..] == stream;
    while at + 4 <= |stream|
      invariant 0 <= at <= |stream|
      invariant ReadAll(stream, read, late) == messages + ReadAll(stream[at..], read, left)
    {
      var goesOn;
      goesOn, at, messages := ReadFrame(stream, at, read, left, messages);
      left := Later(left);
      if !goesOn {
        return;
      }
    }
  }
}
