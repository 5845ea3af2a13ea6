/** The local packet state machine of one chain: channels, outbound packets and inbound receipts. */
module Ibc {
  import opened Prelude
  import opened Core

  const MAX_PACKET_BYTES: nat := 128 * 1024
  const DEFAULT_TIMEOUT_BLOCKS: nat := 1000
  const DEFAULT_TIMEOUT_SECONDS: nat := 600

  datatype ChannelState = Init | TryOpen | Open | Closed

  datatype ChannelOrdering = Unordered | Ordered

  datatype Channel = Channel(
    channelId: string, portId: string, state: ChannelState, ordering: ChannelOrdering,
    counterpartyChannelId: string, counterpartyPortId: string)

  datatype Transfer = Transfer(sender: Address, receiver: string, token: string, amount: U128, sourceChannel: string)

  /** Payload bytes, known by their length and by the transfer they parse to, if any. */
  datatype Data = Data(decoded: Option<Transfer>, size: nat)

  datatype Packet = Packet(
    sequence: U64, sourcePort: string, sourceChannel: string, destinationPort: string, destinationChannel: string,
    data: Data, timeoutHeight: U64, timeoutTimestamp: U64)

  datatype IbcError =
    | Disabled
    | ChannelNotFound(channelId: string)
    | ChannelNotOpen(channelId: string, state: ChannelState)
    | InvalidChannelTransition(from: ChannelState, to: ChannelState)
    | InvalidChannel
    | InvalidPacket
    | InvalidTransfer
    | PacketTooLarge(provided: nat)
    | PacketTimedOut
    | PacketNotExpired
    | Replay
    | UnknownPacket(sequence: U64)
    | InvalidSequence(expected: U64, got: U64)
    | SequenceOverflow
    | Serialization

  /** `jsonSize` is the length of a transfer's serialized form. */
  datatype Config = Config(enabled: bool, jsonSize: Transfer -> nat)

  datatype Module = Module(
    channels: map<string, Channel>,
    sent: map<U64, Packet>,
    nextSend: U64,
    nextRecv: map<string, U64>,
    height: U64,
    received: set<(string, U64)>,
    acknowledged: set<U64>)

  const NEW_MODULE := Module(map[], map[], 1, map[], 0, {}, {})

  // ---------------------------------------------------------------- names

  function Decimal(n: nat): (s: string)
    ensures |s| >= 1
  {
    if n < 10 then [(n as char) + '0'] else Decimal(n / 10) + [((n % 10) as char) + '0']
  }

  lemma {:induction false} DecimalInjective(m: nat, n: nat)
    requires Decimal(m) == Decimal(n)
    ensures m == n
  {
    var a, b := Decimal(m), Decimal(n);
    assert a[|a| - 1] == ((m % 10) as char) + '0' && b[|b| - 1] == ((n % 10) as char) + '0';
    if m >= 10 && n >= 10 {
      assert a[..|a| - 1] == Decimal(m / 10) && b[..|b| - 1] == Decimal(n / 10);
      DecimalInjective(m / 10, n / 10);
    }
  }

  function ChannelId(n: nat): string {
    "channel-" + Decimal(n)
  }

  lemma ChannelIdInjective(m: nat, n: nat)
    requires ChannelId(m) == ChannelId(n)
    ensures m == n
  {
    assert ChannelId(m)[8..] == Decimal(m) && ChannelId(n)[8..] == Decimal(n);
    DecimalInjective(m, n);
  }

  predicate IsWhitespace(c: char) {
    || '\U{0009}' <= c <= '\U{000D}' || c == '\U{0020}' || c == '\U{0085}' || c == '\U{00A0}' || c == '\U{1680}'
    || '\U{2000}' <= c <= '\U{200A}' || c == '\U{2028}' || c == '\U{2029}' || c == '\U{202F}' || c == '\U{205F}'
    || c == '\U{3000}'
  }

  predicate Blank(s: string) {
    forall c | c in s :: IsWhitespace(c)
  }

  // ---------------------------------------------------------------- channels

  function OpenChannel(
    config: Config, m: Module, port: string, counterpartyPort: string, counterpartyChannel: string, ordering: ChannelOrdering)
    : (Module, Result<string, IbcError>)
  {
    if !config.enabled then (m, Err(Disabled))
    else if Blank(port) || Blank(counterpartyPort) || Blank(counterpartyChannel) then (m, Err(InvalidChannel))
    else
      var id := ChannelId(|m.channels|);
      var channel := Channel(id, port, Init, ordering, counterpartyChannel, counterpartyPort);
      (m.(channels := m.channels[id := channel]), Ok(id))
  }

  function Rank(s: ChannelState): nat {
    match s case Init => 0 case TryOpen => 1 case Open => 2 case Closed => 3
  }

  predicate TransitionAllowed(from: ChannelState, to: ChannelState) {
    match (from, to)
    case (Init, TryOpen) => true
    case (Init, Open) => true
    case (TryOpen, Open) => true
    case (Init, Closed) => true
    case (TryOpen, Closed) => true
    case (Open, Closed) => true
    case _ => false
  }

  function SetChannelState(config: Config, m: Module, id: string, state: ChannelState): (Module, Result<(), IbcError>) {
    if !config.enabled then (m, Err(Disabled))
    else if id !in m.channels then (m, Err(ChannelNotFound(id)))
    else if !TransitionAllowed(m.channels[id].state, state) then
      (m, Err(InvalidChannelTransition(m.channels[id].state, state)))
    else (m.(channels := m.channels[id := m.channels[id].(state := state)]), Ok(()))
  }

  // ---------------------------------------------------------------- sending

  predicate TransferOk(t: Transfer) {
    t.amount != 0 && !Blank(t.receiver) && !Blank(t.token)
  }

  function SaturatingAdd(a: U64, b: nat): U64 {
    if a + b > U64_MAX then U64_MAX else a + b
  }

  function SendRejection(config: Config, m: Module, t: Transfer): Option<IbcError> {
    if !config.enabled then Some(Disabled)
    else if !TransferOk(t) then Some(InvalidTransfer)
    else if t.sourceChannel !in m.channels then Some(ChannelNotFound(t.sourceChannel))
    else if !m.channels[t.sourceChannel].state.Open? then
      Some(ChannelNotOpen(t.sourceChannel, m.channels[t.sourceChannel].state))
    else if config.jsonSize(t) > MAX_PACKET_BYTES then Some(PacketTooLarge(config.jsonSize(t)))
    else if m.nextSend == U64_MAX then Some(SequenceOverflow)
    else None
  }

  function OutboundPacket(config: Config, m: Module, now: U64, t: Transfer): Packet
    requires t.sourceChannel in m.channels
  {
    var channel := m.channels[t.sourceChannel];
    Packet(m.nextSend, channel.portId, t.sourceChannel, channel.counterpartyPortId, channel.counterpartyChannelId,
           Data(Some(t), config.jsonSize(t)),
           SaturatingAdd(m.height, DEFAULT_TIMEOUT_BLOCKS), SaturatingAdd(now, DEFAULT_TIMEOUT_SECONDS))
  }

  function SendTransfer(config: Config, m: Module, now: U64, t: Transfer): (Module, Result<U64, IbcError>) {
    var rejection := SendRejection(config, m, t);
    if rejection.Some? then (m, Err(rejection.value)) else
      (m.(nextSend := m.nextSend + 1, sent := m.sent[m.nextSend := OutboundPacket(config, m, now, t)]), Ok(m.nextSend))
  }

  // ---------------------------------------------------------------- receiving

  function ExpectedRecv(m: Module, id: string): U64 {
    if id in m.nextRecv then m.nextRecv[id] else 1
  }

  predicate Expired(p: Packet, height: U64, now: U64) {
    || (p.timeoutHeight != 0 && p.timeoutHeight <= height)
    || (p.timeoutTimestamp != 0 && p.timeoutTimestamp <= now)
  }

  /** The packet came from the counterparty the channel was opened to. */
  predicate Bound(channel: Channel, p: Packet) {
    && channel.counterpartyChannelId == p.sourceChannel
    && channel.counterpartyPortId == p.sourcePort
    && channel.portId == p.destinationPort
  }

  function EnvelopeRejection(p: Packet): Option<IbcError> {
    if p.sequence == 0 || p.data.size == 0 then Some(InvalidPacket)
    else if p.data.size > MAX_PACKET_BYTES then Some(PacketTooLarge(p.data.size))
    else None
  }

  function ChannelRejection(m: Module, p: Packet): Option<IbcError> {
    if p.destinationChannel !in m.channels then Some(ChannelNotFound(p.destinationChannel))
    else
      var channel := m.channels[p.destinationChannel];
      if !channel.state.Open? && !channel.state.TryOpen? then Some(ChannelNotOpen(p.destinationChannel, channel.state))
      else if !Bound(channel, p) then Some(InvalidPacket)
      else None
  }

  function TimeoutRejection(m: Module, now: U64, p: Packet): Option<IbcError> {
    if p.timeoutHeight == 0 && p.timeoutTimestamp == 0 then Some(InvalidPacket)
    else if Expired(p, m.height, now) then Some(PacketTimedOut)
    else None
  }

  function OrderRejection(m: Module, p: Packet): Option<IbcError>
    requires p.destinationChannel in m.channels
  {
    if (p.sourceChannel, p.sequence) in m.received then Some(Replay)
    else if m.channels[p.destinationChannel].ordering.Ordered? && p.sequence != ExpectedRecv(m, p.destinationChannel) then
      Some(InvalidSequence(ExpectedRecv(m, p.destinationChannel), p.sequence))
    else None
  }

  function PayloadRejection(p: Packet): Option<IbcError> {
    if p.data.decoded.None? then Some(Serialization)
    else if !TransferOk(p.data.decoded.value) then Some(InvalidTransfer)
    else if p.data.decoded.value.sourceChannel != p.sourceChannel then Some(InvalidPacket)
    else None
  }

  /** The first check that fails, in the order they are made. */
  function ReceiveRejection(config: Config, m: Module, now: U64, p: Packet): Option<IbcError> {
    if !config.enabled then Some(Disabled)
    else if EnvelopeRejection(p).Some? then EnvelopeRejection(p)
    else if ChannelRejection(m, p).Some? then ChannelRejection(m, p)
    else if TimeoutRejection(m, now, p).Some? then TimeoutRejection(m, now, p)
    else if OrderRejection(m, p).Some? then OrderRejection(m, p)
    else PayloadRejection(p)
  }

  function HighestRecv(m: Module, p: Packet): U64 {
    if ExpectedRecv(m, p.destinationChannel) < p.sequence then p.sequence else ExpectedRecv(m, p.destinationChannel)
  }

  function Recorded(m: Module, p: Packet, next: U64): Module {
    m.(received := m.received + {(p.sourceChannel, p.sequence)}, nextRecv := m.nextRecv[p.destinationChannel := next])
  }

  function ReceivePacket(config: Config, m: Module, now: U64, p: Packet): (Module, Result<Transfer, IbcError>) {
    var rejection := ReceiveRejection(config, m, now, p);
    if rejection.Some? then (m, Err(rejection.value))
    else if HighestRecv(m, p) == U64_MAX then (Recorded(m, p, ExpectedRecv(m, p.destinationChannel)), Err(SequenceOverflow))
    else (Recorded(m, p, HighestRecv(m, p) + 1), Ok(p.data.decoded.value))
  }

  /**
   A failed receive leaves the module as it was except on sequence overflow, which is found only
   after the receipt has been recorded; that happens exactly when every check passed and the
   larger of the expected and the received sequence is the last one.
   */
  lemma FailedReceiveKeepsIff(config: Config, m: Module, now: U64, p: Packet)
    requires ReceivePacket(config, m, now, p).1.Err?
    ensures ReceivePacket(config, m, now, p).0 == m <==> ReceivePacket(config, m, now, p).1.error != SequenceOverflow
    ensures ReceivePacket(config, m, now, p).1.error == SequenceOverflow <==>
              ReceiveRejection(config, m, now, p).None? && HighestRecv(m, p) == U64_MAX
  {
    if ReceiveRejection(config, m, now, p).None? {
      assert (p.sourceChannel, p.sequence) in ReceivePacket(config, m, now, p).0.received;
    }
  }

  // ---------------------------------------------------------------- settling what was sent

  function AcknowledgePacket(config: Config, m: Module, sequence: U64): (Module, Result<(), IbcError>) {
    if !config.enabled then (m, Err(Disabled))
    else if sequence !in m.sent then (m, Err(UnknownPacket(sequence)))
    else if sequence in m.acknowledged then (m, Err(Replay))
    else (m.(acknowledged := m.acknowledged + {sequence}), Ok(()))
  }

  function TimeoutPacket(config: Config, m: Module, now: U64, sequence: U64): (Module, Result<Packet, IbcError>) {
    if !config.enabled then (m, Err(Disabled))
    else if sequence !in m.sent then (m, Err(UnknownPacket(sequence)))
    else if sequence in m.acknowledged then (m, Err(InvalidPacket))
    else if !Expired(m.sent[sequence], m.height, now) then (m, Err(PacketNotExpired))
    else (m.(sent := m.sent - {sequence}), Ok(m.sent[sequence]))
  }

  // ---------------------------------------------------------------- runs of one module

  datatype Event =
    | Opening(port: string, counterpartyPort: string, counterpartyChannel: string, ordering: ChannelOrdering)
    | Moving(id: string, state: ChannelState)
    | Height(height: U64)
    | Sending(now: U64, transfer: Transfer)
    | Receiving(now: U64, packet: Packet)
    | Acknowledging(sequence: U64)
    | TimingOut(now: U64, sequence: U64)

  function Step(config: Config, m: Module, e: Event): Module {
    match e
    case Opening(port, counterpartyPort, counterpartyChannel, ordering) =>
      OpenChannel(config, m, port, counterpartyPort, counterpartyChannel, ordering).0
    case Moving(id, state) => SetChannelState(config, m, id, state).0
    case Height(height) => m.(height := height)
    case Sending(now, transfer) => SendTransfer(config, m, now, transfer).0
    case Receiving(now, packet) => ReceivePacket(config, m, now, packet).0
    case Acknowledging(sequence) => AcknowledgePacket(config, m, sequence).0
    case TimingOut(now, sequence) => TimeoutPacket(config, m, now, sequence).0
  }

  function Run(config: Config, m: Module, events: seq<Event>): Module {
    if events == [] then m else Step(config, Run(config, m, events[..|events| - 1]), events[|events| - 1])
  }

  /** The channels are exactly those numbered below their count, each stored under its own id. */
  ghost predicate ChannelsOk(channels: map<string, Channel>) {
    && (forall id | id in channels :: channels[id].channelId == id && exists n: nat :: n < |channels| && id == ChannelId(n))
    && (forall n: nat | n < |channels| :: ChannelId(n) in channels)
  }

  ghost predicate OutboundOk(m: Module) {
    && 1 <= m.nextSend
    && m.acknowledged <= m.sent.Keys
    && (forall s | s in m.sent :: 1 <= s < m.nextSend && m.sent[s].sequence == s)
  }

  ghost predicate ModuleOk(m: Module) {
    ChannelsOk(m.channels) && OutboundOk(m)
  }

  lemma FreshId(channels: map<string, Channel>)
    requires ChannelsOk(channels)
    ensures ChannelId(|channels|) !in channels
  {
    var id := ChannelId(|channels|);
    if id in channels {
      var n: nat :| n < |channels| && id == ChannelId(n);
      ChannelIdInjective(n, |channels|);
    }
  }

  lemma InsertKeepsChannels(channels: map<string, Channel>, c: Channel)
    requires ChannelsOk(channels) && c.channelId == ChannelId(|channels|)
    ensures ChannelsOk(channels[c.channelId := c])
  {
    FreshId(channels);
    var more := channels[c.channelId := c];
    assert |more| == |channels| + 1 by {
      assert more.Keys == channels.Keys + {c.channelId};
    }
    forall id | id in more ensures more[id].channelId == id && exists n: nat :: n < |more| && id == ChannelId(n) {
      if id in channels {
        var n: nat :| n < |channels| && id == ChannelId(n);
        assert n < |more|;
      }
    }
  }

  lemma UpdateKeepsChannels(channels: map<string, Channel>, id: string, c: Channel)
    requires ChannelsOk(channels) && id in channels && c.channelId == id
    ensures ChannelsOk(channels[id := c])
  {
    assert channels[id := c].Keys == channels.Keys;
    assert |channels[id := c]| == |channels|;
  }

  lemma StepKeepsChannels(config: Config, m: Module, e: Event)
    requires ChannelsOk(m.channels)
    ensures ChannelsOk(Step(config, m, e).channels)
  {
    match e {
      case Opening(port, counterpartyPort, counterpartyChannel, ordering) =>
        InsertKeepsChannels(m.channels, Channel(ChannelId(|m.channels|), port, Init, ordering, counterpartyChannel, counterpartyPort));
      case Moving(id, state) =>
        if id in m.channels {
          UpdateKeepsChannels(m.channels, id, m.channels[id].(state := state));
        }
      case _ =>
    }
  }

  lemma StepKeepsOutbound(config: Config, m: Module, e: Event)
    requires OutboundOk(m)
    ensures OutboundOk(Step(config, m, e))
  {
  }

  // ---------------------------------------------------------------- channels only move forward

  predicate SameBinding(a: Channel, b: Channel) {
    a.(state := b.state) == b
  }

  /** Channels are never lost or rebound, and their states only move forward. */
  ghost predicate ChannelsForward(m: Module, n: Module) {
    forall id | id in m.channels ::
      id in n.channels && SameBinding(m.channels[id], n.channels[id])
      && (m.channels[id].state == n.channels[id].state || Rank(m.channels[id].state) < Rank(n.channels[id].state))
  }

  lemma OpenForward(
    config: Config, m: Module, port: string, counterpartyPort: string, counterpartyChannel: string, ordering: ChannelOrdering)
    requires ChannelsOk(m.channels)
    ensures ChannelsForward(m, OpenChannel(config, m, port, counterpartyPort, counterpartyChannel, ordering).0)
  {
    FreshId(m.channels);
  }

  /** The allowed transitions are exactly those that move a channel forward. */
  lemma AllowedIffForward(from: ChannelState, to: ChannelState)
    ensures TransitionAllowed(from, to) <==> Rank(from) < Rank(to)
  {
  }

  lemma MoveForward(config: Config, m: Module, id: string, state: ChannelState)
    ensures ChannelsForward(m, SetChannelState(config, m, id, state).0)
  {
    if id in m.channels {
      AllowedIffForward(m.channels[id].state, state);
    }
  }

  lemma StepChannelsForward(config: Config, m: Module, e: Event)
    requires ChannelsOk(m.channels)
    ensures ChannelsForward(m, Step(config, m, e))
  {
    match e {
      case Opening(port, counterpartyPort, counterpartyChannel, ordering) =>
        OpenForward(config, m, port, counterpartyPort, counterpartyChannel, ordering);
      case Moving(id, state) => MoveForward(config, m, id, state);
      case _ => assert Step(config, m, e).channels == m.channels;
    }
  }

  // ---------------------------------------------------------------- what became of a sequence

  predicate Outstanding(m: Module, s: U64) {
    s in m.sent && s !in m.acknowledged
  }

  predicate Acknowledged(m: Module, s: U64) {
    s in m.acknowledged
  }

  predicate TimedOut(m: Module, s: U64) {
    1 <= s < m.nextSend && s !in m.sent
  }

  /** Every issued sequence, and no other, is in exactly one of the three states. */
  lemma OneFate(m: Module, s: U64)
    requires OutboundOk(m)
    ensures 1 <= s < m.nextSend <==> Outstanding(m, s) || Acknowledged(m, s) || TimedOut(m, s)
    ensures !(Outstanding(m, s) && Acknowledged(m, s))
    ensures !(Outstanding(m, s) && TimedOut(m, s))
    ensures !(Acknowledged(m, s) && TimedOut(m, s))
  {
  }

  /** Sequences are not taken back, and the two ends of a packet are final. */
  ghost predicate FatesForward(m: Module, n: Module) {
    && m.nextSend <= n.nextSend
    && (forall s: U64 | Acknowledged(m, s) :: Acknowledged(n, s))
    && (forall s: U64 | TimedOut(m, s) :: TimedOut(n, s))
    && (forall s | s in m.sent && s in n.sent :: n.sent[s] == m.sent[s])
  }

  lemma StepFatesForward(config: Config, m: Module, e: Event)
    requires OutboundOk(m)
    ensures FatesForward(m, Step(config, m, e))
  {
  }

  /** Only a timeout call times a packet out, and only once the packet has expired. */
  lemma OnlyExpiryTimesOut(config: Config, m: Module, e: Event, s: U64)
    requires OutboundOk(m) && !TimedOut(m, s) && TimedOut(Step(config, m, e), s)
    ensures e.TimingOut? && e.sequence == s && Outstanding(m, s) && Expired(m.sent[s], m.height, e.now)
  {
  }

  ghost predicate Later(m: Module, n: Module) {
    ModuleOk(n) && ChannelsForward(m, n) && FatesForward(m, n)
  }

  lemma StepLater(config: Config, m: Module, e: Event)
    requires ModuleOk(m)
    ensures Later(m, Step(config, m, e))
  {
    StepKeepsChannels(config, m, e);
    StepKeepsOutbound(config, m, e);
    StepChannelsForward(config, m, e);
    StepFatesForward(config, m, e);
  }

  lemma ChannelsTransitive(a: Module, b: Module, c: Module)
    requires ChannelsForward(a, b) && ChannelsForward(b, c)
    ensures ChannelsForward(a, c)
  {
  }

  lemma FatesTransitive(a: Module, b: Module, c: Module)
    requires OutboundOk(a) && OutboundOk(b) && FatesForward(a, b) && FatesForward(b, c)
    ensures FatesForward(a, c)
  {
    forall s | s in a.sent && s in c.sent ensures c.sent[s] == a.sent[s] {
      assert s !in b.sent ==> TimedOut(b, s);
    }
  }

  lemma LaterTransitive(a: Module, b: Module, c: Module)
    requires ModuleOk(a) && Later(a, b) && Later(b, c)
    ensures Later(a, c)
  {
    ChannelsTransitive(a, b, c);
    FatesTransitive(a, b, c);
  }

  /**
   In every run channels are never overwritten and only move forward, sequences are issued once,
   and nothing settled is undone.
   */
  lemma {:induction false} RunLater(config: Config, m: Module, events: seq<Event>)
    requires ModuleOk(m)
    ensures Later(m, Run(config, m, events))
  {
    if events != [] {
      RunLater(config, m, events[..|events| - 1]);
      var middle := Run(config, m, events[..|events| - 1]);
      StepLater(config, middle, events[|events| - 1]);
      LaterTransitive(m, middle, Run(config, m, events));
    }
  }

  // ---------------------------------------------------------------- fates and the calls that decide them

  /** The event is a timeout call for `s` that the module accepts. */
  predicate TimesOut(config: Config, m: Module, e: Event, s: U64) {
    e.TimingOut? && e.sequence == s && TimeoutPacket(config, m, e.now, s).1.Ok?
  }

  /** The event is an acknowledgement of `s` that the module accepts. */
  predicate Acknowledges(config: Config, m: Module, e: Event, s: U64) {
    e.Acknowledging? && e.sequence == s && AcknowledgePacket(config, m, s).1.Ok?
  }

  predicate TimesOutAt(config: Config, events: seq<Event>, s: U64, i: nat)
    requires i < |events|
  {
    TimesOut(config, Run(config, NEW_MODULE, events[..i]), events[i], s)
  }

  predicate AcknowledgesAt(config: Config, events: seq<Event>, s: U64, i: nat)
    requires i < |events|
  {
    Acknowledges(config, Run(config, NEW_MODULE, events[..i]), events[i], s)
  }

  ghost predicate TimedOutIn(config: Config, events: seq<Event>, s: U64) {
    exists i | 0 <= i < |events| :: TimesOutAt(config, events, s, i)
  }

  ghost predicate AcknowledgedIn(config: Config, events: seq<Event>, s: U64) {
    exists i | 0 <= i < |events| :: AcknowledgesAt(config, events, s, i)
  }

  lemma SamePrefix(config: Config, events: seq<Event>, s: U64, n: nat, i: nat)
    requires i < n <= |events|
    ensures TimesOutAt(config, events[..n], s, i) <==> TimesOutAt(config, events, s, i)
    ensures AcknowledgesAt(config, events[..n], s, i) <==> AcknowledgesAt(config, events, s, i)
  {
    assert events[..n][..i] == events[..i];
  }

  lemma StepTimesOut(config: Config, m: Module, e: Event, s: U64)
    requires OutboundOk(m)
    ensures TimedOut(Step(config, m, e), s) <==> TimedOut(m, s) || TimesOut(config, m, e, s)
  {
  }

  lemma StepAcknowledges(config: Config, m: Module, e: Event, s: U64)
    ensures Acknowledged(Step(config, m, e), s) <==> Acknowledged(m, s) || Acknowledges(config, m, e, s)
  {
  }

  lemma TimedOutInSnoc(config: Config, events: seq<Event>, s: U64, n: nat)
    requires |events| == n + 1
    ensures TimedOutIn(config, events, s) <==> TimedOutIn(config, events[..n], s) || TimesOutAt(config, events, s, n)
  {
    if i :| 0 <= i < n && TimesOutAt(config, events, s, i) {
      SamePrefix(config, events, s, n, i);
    }
    if i :| 0 <= i < n && TimesOutAt(config, events[..n], s, i) {
      SamePrefix(config, events, s, n, i);
    }
  }

  lemma AcknowledgedInSnoc(config: Config, events: seq<Event>, s: U64, n: nat)
    requires |events| == n + 1
    ensures AcknowledgedIn(config, events, s) <==>
              AcknowledgedIn(config, events[..n], s) || AcknowledgesAt(config, events, s, n)
  {
    if i :| 0 <= i < n && AcknowledgesAt(config, events, s, i) {
      SamePrefix(config, events, s, n, i);
    }
    if i :| 0 <= i < n && AcknowledgesAt(config, events[..n], s, i) {
      SamePrefix(config, events, s, n, i);
    }
  }

  /** A packet has timed out, or is acknowledged, exactly when the run holds the call that made it so. */
  lemma {:induction false} FatesAreCalls(config: Config, events: seq<Event>, s: U64)
    ensures TimedOut(Run(config, NEW_MODULE, events), s) <==> TimedOutIn(config, events, s)
    ensures Acknowledged(Run(config, NEW_MODULE, events), s) <==> AcknowledgedIn(config, events, s)
  {
    if events != [] {
      var front, e := events[..|events| - 1], events[|events| - 1];
      FatesAreCalls(config, front, s);
      RunLater(config, NEW_MODULE, front);
      StepTimesOut(config, Run(config, NEW_MODULE, front), e, s);
      StepAcknowledges(config, Run(config, NEW_MODULE, front), e, s);
      TimedOutInSnoc(config, events, s, |front|);
      AcknowledgedInSnoc(config, events, s, |front|);
    }
  }

  /**
   In every run from a new module each issued sequence, and no other, is held unacknowledged, or
   was acknowledged by an accepted call, or timed out by an accepted call, and only one of these.
   */
  lemma EveryFate(config: Config, events: seq<Event>, s: U64)
    ensures var m := Run(config, NEW_MODULE, events);
            && (1 <= s < m.nextSend <==>
                  Outstanding(m, s) || AcknowledgedIn(config, events, s) || TimedOutIn(config, events, s))
            && !(Outstanding(m, s) && AcknowledgedIn(config, events, s))
            && !(Outstanding(m, s) && TimedOutIn(config, events, s))
            && !(AcknowledgedIn(config, events, s) && TimedOutIn(config, events, s))
  {
    RunLater(config, NEW_MODULE, events);
    OneFate(Run(config, NEW_MODULE, events), s);
    FatesAreCalls(config, events, s);
  }

  // ---------------------------------------------------------------- a receipt left by an error

  lemma OneOpenChannel(config: Config, port: string, counterpartyPort: string, counterpartyChannel: string)
    requires config.enabled && !Blank(port) && !Blank(counterpartyPort) && !Blank(counterpartyChannel)
    ensures var id := ChannelId(0);
            Run(config, NEW_MODULE, [Opening(port, counterpartyPort, counterpartyChannel, Unordered), Moving(id, Open)])
            == NEW_MODULE.(channels := map[id := Channel(id, port, Open, Unordered, counterpartyChannel, counterpartyPort)])
  {
    var id := ChannelId(0);
    var opening, moving := Opening(port, counterpartyPort, counterpartyChannel, Unordered), Moving(id, Open);
    assert [opening, moving][..1] == [opening] && [opening][..0] == [];
    assert Run(config, NEW_MODULE, [opening])
        == NEW_MODULE.(channels := map[id := Channel(id, port, Init, Unordered, counterpartyChannel, counterpartyPort)]);
  }

  /**
   Reachable: on a freshly opened unordered channel, any packet that is in order itself and carries
   the last sequence is refused for overflow and still leaves its receipt behind.
   */
  lemma OverflowLeavesReceipt(config: Config, now: U64, p: Packet)
    requires config.enabled && p.sequence == U64_MAX && p.destinationChannel == ChannelId(0)
    requires !Blank(p.destinationPort) && !Blank(p.sourcePort) && !Blank(p.sourceChannel)
    requires EnvelopeRejection(p).None? && PayloadRejection(p).None? && TimeoutRejection(NEW_MODULE, now, p).None?
    ensures var opening := Opening(p.destinationPort, p.sourcePort, p.sourceChannel, Unordered);
            var m := Run(config, NEW_MODULE, [opening, Moving(ChannelId(0), Open)]);
            var (after, r) := ReceivePacket(config, m, now, p);
            r == Err(SequenceOverflow) && after != m && (p.sourceChannel, p.sequence) in after.received
  {
    OneOpenChannel(config, p.destinationPort, p.sourcePort, p.sourceChannel);
    var opening := Opening(p.destinationPort, p.sourcePort, p.sourceChannel, Unordered);
    var m := Run(config, NEW_MODULE, [opening, Moving(ChannelId(0), Open)]);
    assert (p.sourceChannel, p.sequence) in ReceivePacket(config, m, now, p).0.received;
  }

  // ---------------------------------------------------------------- what a call accepts and does

  /** Exactly which transfers are queued. */
  lemma SendsIff(config: Config, m: Module, now: U64, t: Transfer)
    ensures SendTransfer(config, m, now, t).1.Ok? <==>
              && config.enabled && t.amount > 0 && !Blank(t.receiver) && !Blank(t.token)
              && t.sourceChannel in m.channels && m.channels[t.sourceChannel].state == Open
              && config.jsonSize(t) <= 131_072 && m.nextSend < U64_MAX
    ensures SendTransfer(config, m, now, t).1.Err? ==> SendTransfer(config, m, now, t).0 == m
  {
  }

  /**
   What is queued: the transfer that was asked for, under the next sequence, addressed to the
   counterparty of its channel, void a thousand blocks or ten minutes on; nothing else changes.
   */
  lemma SendCarries(config: Config, m: Module, now: U64, t: Transfer)
    requires SendTransfer(config, m, now, t).1.Ok?
    ensures var (after, r) := SendTransfer(config, m, now, t);
            && r.value == m.nextSend && after.nextSend == m.nextSend + 1
            && after == m.(sent := after.sent, nextSend := after.nextSend)
            && after.sent.Keys == m.sent.Keys + {r.value}
            && (forall s | s in m.sent && s != r.value :: after.sent[s] == m.sent[s])
            && var p, channel := after.sent[r.value], m.channels[t.sourceChannel];
            && p.data.decoded == Some(t) && p.sequence == r.value
            && p.sourceChannel == t.sourceChannel && p.sourcePort == channel.portId
            && p.destinationChannel == channel.counterpartyChannelId && p.destinationPort == channel.counterpartyPortId
            && p.timeoutHeight == (if m.height + 1000 <= U64_MAX then m.height + 1000 else U64_MAX)
            && p.timeoutTimestamp == (if now + 600 <= U64_MAX then now + 600 else U64_MAX)
  {
  }

  /** Exactly which packets are accepted. */
  lemma ReceivesIff(config: Config, m: Module, now: U64, p: Packet)
    ensures ReceivePacket(config, m, now, p).1.Ok? <==>
              && config.enabled && p.sequence >= 1 && 1 <= p.data.size <= 131_072
              && p.destinationChannel in m.channels
              && var channel := m.channels[p.destinationChannel];
              && channel.state in {Open, TryOpen}
              && channel.counterpartyChannelId == p.sourceChannel && channel.counterpartyPortId == p.sourcePort
              && channel.portId == p.destinationPort
              && (p.timeoutHeight != 0 || p.timeoutTimestamp != 0)
              && (p.timeoutHeight != 0 ==> m.height < p.timeoutHeight)
              && (p.timeoutTimestamp != 0 ==> now < p.timeoutTimestamp)
              && (p.sourceChannel, p.sequence) !in m.received
              && (channel.ordering == Ordered ==> p.sequence == ExpectedRecv(m, p.destinationChannel))
              && p.data.decoded.Some?
              && p.data.decoded.value.amount > 0
              && !Blank(p.data.decoded.value.receiver) && !Blank(p.data.decoded.value.token)
              && p.data.decoded.value.sourceChannel == p.sourceChannel
              && p.sequence < U64_MAX && ExpectedRecv(m, p.destinationChannel) < U64_MAX
  {
  }

  /** What acceptance returns and records: the packet's own transfer, its receipt, and the next sequence expected. */
  lemma ReceiveReturns(config: Config, m: Module, now: U64, p: Packet)
    requires ReceivePacket(config, m, now, p).1.Ok?
    ensures var (after, r) := ReceivePacket(config, m, now, p);
            && p.data.decoded == Some(r.value)
            && after.received == m.received + {(p.sourceChannel, p.sequence)}
            && ExpectedRecv(after, p.destinationChannel) > p.sequence
            && ExpectedRecv(after, p.destinationChannel) > ExpectedRecv(m, p.destinationChannel)
            && (ExpectedRecv(after, p.destinationChannel) == p.sequence + 1
                || ExpectedRecv(after, p.destinationChannel) == ExpectedRecv(m, p.destinationChannel) + 1)
            && (forall id | id != p.destinationChannel :: ExpectedRecv(after, id) == ExpectedRecv(m, id))
            && after == m.(received := after.received, nextRecv := after.nextRecv)
  {
  }

  /** Exactly when a channel opens, and what it is then bound to. */
  lemma OpensIff(
    config: Config, m: Module, port: string, counterpartyPort: string, counterpartyChannel: string, ordering: ChannelOrdering)
    ensures var (after, r) := OpenChannel(config, m, port, counterpartyPort, counterpartyChannel, ordering);
            && (r.Ok? <==> config.enabled && !Blank(port) && !Blank(counterpartyPort) && !Blank(counterpartyChannel))
            && (r.Err? ==> after == m)
            && (r.Ok? ==>
                  && r.value in after.channels && after == m.(channels := m.channels[r.value := after.channels[r.value]])
                  && var channel := after.channels[r.value];
                  && channel.state == Init && channel.ordering == ordering && channel.portId == port
                  && channel.counterpartyPortId == counterpartyPort && channel.counterpartyChannelId == counterpartyChannel)
  {
  }

  /** Exactly when a channel moves, and that only its state does. */
  lemma MovesIff(config: Config, m: Module, id: string, state: ChannelState)
    ensures var (after, r) := SetChannelState(config, m, id, state);
            && (r.Ok? <==> config.enabled && id in m.channels && Rank(m.channels[id].state) < Rank(state))
            && (r.Err? ==> after == m)
            && (r.Ok? ==> after == m.(channels := m.channels[id := m.channels[id].(state := state)]))
  {
    if id in m.channels {
      AllowedIffForward(m.channels[id].state, state);
    }
  }
}
