/** The packet state machine as an object whose methods update its tables in place. */
module IbcState {
  import opened Prelude
  import opened Core
  import opened Ibc

  class IbcModule {
    const config: Config
    var channels: map<string, Channel>
    var sent: map<U64, Packet>
    var nextSend: U64
    var nextRecv: map<string, U64>
    var height: U64
    var received: set<(string, U64)>
    var acknowledged: set<U64>

    function View(): Module
      reads this
    {
      Module(channels, sent, nextSend, nextRecv, height, received, acknowledged)
    }

    constructor (config: Config)
      ensures this.config == config && View() == NEW_MODULE
    {
      this.config := config;
      channels, sent, nextSend, nextRecv := map[], map[], 1, map[];
      height, received, acknowledged := 0, {}, {};
    }

    method SetCurrentHeight(height: U64)
      modifies this`height
      ensures View() == Step(config, old(View()), Height(height)) == old(View()).(height := height)
    {
      this.height := height;
    }

    /** Opens a channel in its first state under an id no channel holds yet. */
    method OpenChannel(port: string, counterpartyPort: string, counterpartyChannel: string, ordering: ChannelOrdering)
      returns (r: Result<string, IbcError>)
      modifies this`channels
      ensures (View(), r) == Ibc.OpenChannel(config, old(View()), port, counterpartyPort, counterpartyChannel, ordering)
      ensures r.Ok? && ChannelsOk(old(channels)) ==> r.value !in old(channels) && |channels| == |old(channels)| + 1
    {
      if !config.enabled {
        return Err(Disabled);
      }
      if Blank(port) || Blank(counterpartyPort) {
        return Err(InvalidChannel);
      }
      if Blank(counterpartyChannel) {
        return Err(InvalidChannel);
      }
      var id := ChannelId(|channels|);
      assert ChannelsOk(channels) ==> id !in channels by {
        if ChannelsOk(channels) {
          FreshId(channels);
        }
      }
      channels := channels[id := Channel(id, port, Init, ordering, counterpartyChannel, counterpartyPort)];
      return Ok(id);
    }

    method SetChannelState(id: string, state: ChannelState) returns (r: Result<(), IbcError>)
      modifies this`channels
      ensures (View(), r) == Ibc.SetChannelState(config, old(View()), id, state)
    {
      if !config.enabled {
        return Err(Disabled);
      }
      if id !in channels {
        return Err(ChannelNotFound(id));
      }
      var channel := channels[id];
      if !TransitionAllowed(channel.state, state) {
        return Err(InvalidChannelTransition(channel.state, state));
      }
      channels := channels[id := channel.(state := state)];
      return Ok(());
    }

    /** Queues a transfer on an open channel under the next sequence. */
    method SendTransfer(now: U64, t: Transfer) returns (r: Result<U64, IbcError>)
      modifies this`nextSend, this`sent
      ensures (View(), r) == Ibc.SendTransfer(config, old(View()), now, t)
    {
      if !config.enabled {
        return Err(Disabled);
      }
      if t.amount == 0 || Blank(t.receiver) || Blank(t.token) {
        return Err(InvalidTransfer);
      }
      if t.sourceChannel !in channels {
        return Err(ChannelNotFound(t.sourceChannel));
      }
      var channel := channels[t.sourceChannel];
      if !channel.state.Open? {
        return Err(ChannelNotOpen(t.sourceChannel, channel.state));
      }
      var data := Data(Some(t), config.jsonSize(t));
      if data.size > MAX_PACKET_BYTES {
        return Err(PacketTooLarge(data.size));
      }
      var sequence := nextSend;
      var packet := Packet(
        sequence, channel.portId, t.sourceChannel, channel.counterpartyPortId, channel.counterpartyChannelId, data,
        SaturatingAdd(height, DEFAULT_TIMEOUT_BLOCKS), SaturatingAdd(now, DEFAULT_TIMEOUT_SECONDS));
      if sequence == U64_MAX {
        return Err(SequenceOverflow);
      }
      nextSend := sequence + 1;
      sent := sent[sequence := packet];
      return Ok(sequence);
    }

    function ExpectedRecvSequence(id: string): U64
      reads this
    {
      if id in nextRecv then nextRecv[id] else 1
    }

    /** The checks a packet passes before anything is recorded. */
    method CheckPacket(now: U64, p: Packet) returns (rejection: Option<IbcError>)
      ensures rejection == ReceiveRejection(config, View(), now, p)
    {
      if !config.enabled {
        return Some(Disabled);
      }
      if p.sequence == 0 {
        return Some(InvalidPacket);
      }
      if p.data.size == 0 {
        return Some(InvalidPacket);
      }
      if p.data.size > MAX_PACKET_BYTES {
        return Some(PacketTooLarge(p.data.size));
      }
      if p.destinationChannel !in channels {
        return Some(ChannelNotFound(p.destinationChannel));
      }
      var channel := channels[p.destinationChannel];
      if !channel.state.Open? && !channel.state.TryOpen? {
        return Some(ChannelNotOpen(p.destinationChannel, channel.state));
      }
      if || channel.counterpartyChannelId != p.sourceChannel
         || channel.counterpartyPortId != p.sourcePort
         || channel.portId != p.destinationPort {
        return Some(InvalidPacket);
      }
      if p.timeoutHeight == 0 && p.timeoutTimestamp == 0 {
        return Some(InvalidPacket);
      }
      if p.timeoutHeight != 0 && p.timeoutHeight <= height {
        return Some(PacketTimedOut);
      }
      if p.timeoutTimestamp != 0 && p.timeoutTimestamp <= now {
        return Some(PacketTimedOut);
      }
      if (p.sourceChannel, p.sequence) in received {
        return Some(Replay);
      }
      var expected := ExpectedRecvSequence(p.destinationChannel);
      if channel.ordering.Ordered? && p.sequence != expected {
        return Some(InvalidSequence(expected, p.sequence));
      }
      if p.data.decoded.None? {
        return Some(Serialization);
      }
      var t := p.data.decoded.value;
      if !TransferOk(t) {
        return Some(InvalidTransfer);
      }
      if t.sourceChannel != p.sourceChannel {
        return Some(InvalidPacket);
      }
      return None;
    }

    /** Accepts a packet at most once; only a sequence overflow fails after the receipt is recorded. */
    method ReceivePacket(now: U64, p: Packet) returns (r: Result<Transfer, IbcError>)
      modifies this`received, this`nextRecv
      ensures (View(), r) == Ibc.ReceivePacket(config, old(View()), now, p)
      ensures r.Ok? ==> (p.sourceChannel, p.sequence) in received - old(received)
    {
      var rejection := CheckPacket(now, p);
      if rejection.Some? {
        return Err(rejection.value);
      }
      received := received + {(p.sourceChannel, p.sequence)};
      var next := ExpectedRecvSequence(p.destinationChannel);
      nextRecv := nextRecv[p.destinationChannel := next];
      var highest := if next < p.sequence then p.sequence else next;
      if highest == U64_MAX {
        return Err(SequenceOverflow);
      }
      nextRecv := nextRecv[p.destinationChannel := highest + 1];
      assert nextRecv == old(nextRecv)[p.destinationChannel := highest + 1];
      return Ok(p.data.decoded.value);
    }

    /** Acknowledges a packet that is still held, once. */
    method AcknowledgePacket(sequence: U64) returns (r: Result<(), IbcError>)
      modifies this`acknowledged
      ensures (View(), r) == Ibc.AcknowledgePacket(config, old(View()), sequence)
      ensures r.Ok? <==> config.enabled && Outstanding(old(View()), sequence)
    {
      if !config.enabled {
        return Err(Disabled);
      }
      if sequence !in sent {
        return Err(UnknownPacket(sequence));
      }
      if sequence in acknowledged {
        return Err(Replay);
      }
      acknowledged := acknowledged + {sequence};
      return Ok(());
    }

    /** Drops a packet that has expired without being acknowledged. */
    method TimeoutPacket(now: U64, sequence: U64) returns (r: Result<Packet, IbcError>)
      modifies this`sent
      ensures (View(), r) == Ibc.TimeoutPacket(config, old(View()), now, sequence)
      ensures r.Ok? <==>
        config.enabled && Outstanding(old(View()), sequence) && Expired(old(sent)[sequence], height, now)
    {
      if !config.enabled {
        return Err(Disabled);
      }
      if sequence !in sent {
        return Err(UnknownPacket(sequence));
      }
      var packet := sent[sequence];
      if sequence in acknowledged {
        return Err(InvalidPacket);
      }
      var heightExpired := packet.timeoutHeight != 0 && packet.timeoutHeight <= height;
      var timeExpired := packet.timeoutTimestamp != 0 && packet.timeoutTimestamp <= now;
      if !heightExpired && !timeExpired {
        return Err(PacketNotExpired);
      }
      sent := sent - {sequence};
      return Ok(packet);
    }
  }
}
