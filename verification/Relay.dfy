/**
 Two chains and a relayer. Each chain does anything it likes on its own; the relayer hands a chain
 any packet the other one ever sent, in any order and any number of times.
 */
module Relay {
  import opened Prelude
  import opened Ibc
  import opened Sums

  /** A chain with all it has sent and all it has accepted, in order. */
  datatype End = End(config: Config, state: Module, log: seq<Packet>, accepted: seq<Packet>)

  datatype System = System(a: End, b: End)

  datatype Move =
    | ActA(e: Event)
    | ActB(e: Event)
    | DeliverToA(i: nat, now: U64)
    | DeliverToB(i: nat, now: U64)

  predicate Sends(end: End, e: Event) {
    e.Sending? && SendRejection(end.config, end.state, e.transfer).None?
  }

  /** A step of the chain on its own; packets arrive only through the relayer. */
  function Act(end: End, e: Event): End {
    if e.Receiving? then end
    else if Sends(end, e) then
      end.(state := Step(end.config, end.state, e), log := end.log + [OutboundPacket(end.config, end.state, e.now, e.transfer)])
    else end.(state := Step(end.config, end.state, e))
  }

  predicate Accepts(end: End, now: U64, p: Packet) {
    ReceiveRejection(end.config, end.state, now, p).None? && HighestRecv(end.state, p) != U64_MAX
  }

  function Take(end: End, now: U64, p: Packet): End {
    end.(state := ReceivePacket(end.config, end.state, now, p).0,
         accepted := if Accepts(end, now, p) then end.accepted + [p] else end.accepted)
  }

  function Next(s: System, move: Move): System {
    match move
    case ActA(e) => s.(a := Act(s.a, e))
    case ActB(e) => s.(b := Act(s.b, e))
    case DeliverToA(i, now) => if i < |s.b.log| then s.(a := Take(s.a, now, s.b.log[i])) else s
    case DeliverToB(i, now) => if i < |s.a.log| then s.(b := Take(s.b, now, s.a.log[i])) else s
  }

  function Run(s: System, moves: seq<Move>): System {
    if moves == [] then s else Next(Run(s, moves[..|moves| - 1]), moves[|moves| - 1])
  }

  function Start(a: Config, b: Config): System {
    System(End(a, NEW_MODULE, [], []), End(b, NEW_MODULE, [], []))
  }

  // ---------------------------------------------------------------- what a chain has sent

  /** The packet went out on a channel of this chain, to that channel's counterparty. */
  ghost predicate SentOn(channels: map<string, Channel>, p: Packet) {
    && p.sourceChannel in channels
    && channels[p.sourceChannel].portId == p.sourcePort
    && channels[p.sourceChannel].counterpartyPortId == p.destinationPort
    && channels[p.sourceChannel].counterpartyChannelId == p.destinationChannel
    && p.data.decoded.Some? && p.data.decoded.value.sourceChannel == p.sourceChannel
  }

  /** The sequences issued are exactly 1, 2, 3, ... in sending order. */
  ghost predicate Numbered(log: seq<Packet>, nextSend: nat) {
    |log| == nextSend - 1 && forall i | 0 <= i < |log| :: log[i].sequence == i + 1
  }

  ghost predicate AllSentOn(channels: map<string, Channel>, log: seq<Packet>) {
    forall i | 0 <= i < |log| :: SentOn(channels, log[i])
  }

  /** What is still held is what was sent. */
  ghost predicate Held(m: Module, log: seq<Packet>) {
    forall s | s in m.sent :: 1 <= s <= |log| && m.sent[s] == log[s - 1]
  }

  ghost predicate SendingOk(end: End) {
    Numbered(end.log, end.state.nextSend) && AllSentOn(end.state.channels, end.log) && Held(end.state, end.log)
  }

  lemma BindingKept(m: Module, n: Module, log: seq<Packet>)
    requires AllSentOn(m.channels, log) && ChannelsForward(m, n)
    ensures AllSentOn(n.channels, log)
  {
    forall i | 0 <= i < |log| ensures SentOn(n.channels, log[i]) {
      assert SentOn(m.channels, log[i]);
      assert SameBinding(m.channels[log[i].sourceChannel], n.channels[log[i].sourceChannel]);
    }
  }

  lemma SendKeeps(end: End, now: U64, t: Transfer)
    requires SendingOk(end) && Sends(end, Sending(now, t))
    ensures SendingOk(Act(end, Sending(now, t)))
  {
    var p := OutboundPacket(end.config, end.state, now, t);
    assert SentOn(end.state.channels, p);
  }

  lemma QuietStep(config: Config, m: Module, e: Event)
    requires !(e.Sending? && SendRejection(config, m, e.transfer).None?)
    ensures Step(config, m, e).nextSend == m.nextSend
    ensures forall s | s in Step(config, m, e).sent :: s in m.sent && Step(config, m, e).sent[s] == m.sent[s]
  {
  }

  lemma ActKeepsSending(end: End, e: Event)
    requires ModuleOk(end.state) && SendingOk(end)
    ensures SendingOk(Act(end, e))
  {
    if e.Receiving? {
    } else if Sends(end, e) {
      SendKeeps(end, e.now, e.transfer);
    } else {
      StepChannelsForward(end.config, end.state, e);
      BindingKept(end.state, Step(end.config, end.state, e), end.log);
      QuietStep(end.config, end.state, e);
    }
  }

  // ---------------------------------------------------------------- what a chain has accepted

  function OnChannel(ps: seq<Packet>, id: string): (r: seq<Packet>)
    ensures forall p | p in r :: p in ps && p.destinationChannel == id
  {
    if ps == [] then [] else
      OnChannel(ps[..|ps| - 1], id) + if ps[|ps| - 1].destinationChannel == id then [ps[|ps| - 1]] else []
  }

  ghost predicate Receipted(m: Module, p: Packet) {
    && p.destinationChannel in m.channels
    && Bound(m.channels[p.destinationChannel], p)
    && (p.sourceChannel, p.sequence) in m.received
  }

  ghost predicate AllReceipted(m: Module, ps: seq<Packet>) {
    forall i | 0 <= i < |ps| :: Receipted(m, ps[i])
  }

  ghost predicate NoRepeats(ps: seq<Packet>) {
    forall i, j | 0 <= i < j < |ps| :: (ps[i].sourceChannel, ps[i].sequence) != (ps[j].sourceChannel, ps[j].sequence)
  }

  /** Sequences 1, 2, ..., up to just before `next`, in this order. */
  ghost predicate Counts(ps: seq<Packet>, next: nat) {
    |ps| == next - 1 && forall i | 0 <= i < |ps| :: ps[i].sequence == i + 1
  }

  ghost predicate InOrder(m: Module, ps: seq<Packet>, id: string) {
    && (id !in m.channels ==> id !in m.nextRecv && OnChannel(ps, id) == [])
    && (id in m.channels && m.channels[id].ordering.Ordered? ==> Counts(OnChannel(ps, id), ExpectedRecv(m, id)))
  }

  ghost predicate AllInOrder(m: Module, ps: seq<Packet>) {
    forall id :: InOrder(m, ps, id)
  }

  ghost predicate ReceivingOk(end: End) {
    AllReceipted(end.state, end.accepted) && NoRepeats(end.accepted) && AllInOrder(end.state, end.accepted)
  }

  lemma ActLeavesReceipts(config: Config, m: Module, e: Event)
    requires !e.Receiving?
    ensures Step(config, m, e).received == m.received && Step(config, m, e).nextRecv == m.nextRecv
  {
  }

  lemma ReceiptsKept(m: Module, n: Module, ps: seq<Packet>)
    requires AllReceipted(m, ps) && ChannelsForward(m, n) && m.received <= n.received
    ensures AllReceipted(n, ps)
  {
    forall i | 0 <= i < |ps| ensures Receipted(n, ps[i]) {
      assert Receipted(m, ps[i]);
      assert SameBinding(m.channels[ps[i].destinationChannel], n.channels[ps[i].destinationChannel]);
    }
  }

  lemma OrderKept(m: Module, n: Module, ps: seq<Packet>, id: string)
    requires InOrder(m, ps, id) && ChannelsForward(m, n) && n.nextRecv == m.nextRecv
    ensures InOrder(n, ps, id)
  {
    if id in m.channels {
      assert SameBinding(m.channels[id], n.channels[id]);
    }
  }

  lemma ActKeepsReceiving(end: End, e: Event)
    requires ModuleOk(end.state) && ReceivingOk(end)
    ensures ReceivingOk(Act(end, e))
  {
    if !e.Receiving? {
      var n := Step(end.config, end.state, e);
      StepChannelsForward(end.config, end.state, e);
      ActLeavesReceipts(end.config, end.state, e);
      ReceiptsKept(end.state, n, end.accepted);
      forall id ensures InOrder(n, end.accepted, id) {
        OrderKept(end.state, n, end.accepted, id);
      }
    }
  }

  lemma OnChannelAppend(ps: seq<Packet>, p: Packet, id: string)
    ensures OnChannel(ps + [p], id) == OnChannel(ps, id) + if p.destinationChannel == id then [p] else []
  {
    assert (ps + [p])[..|ps|] == ps;
  }

  lemma CountsAppend(ps: seq<Packet>, p: Packet)
    requires Counts(ps, p.sequence)
    ensures Counts(ps + [p], p.sequence + 1)
  {
  }

  /** On an ordered channel the accepted packet is the one that was expected. */
  lemma AcceptedIsExpected(end: End, now: U64, p: Packet)
    requires Accepts(end, now, p)
    ensures p.destinationChannel in end.state.channels
    ensures end.state.channels[p.destinationChannel].ordering.Ordered? ==> p.sequence == ExpectedRecv(end.state, p.destinationChannel)
    ensures Take(end, now, p).state == Recorded(end.state, p, HighestRecv(end.state, p) + 1)
  {
  }

  lemma RecordKeepsOrder(m: Module, ps: seq<Packet>, p: Packet, id: string)
    requires InOrder(m, ps, id) && p.destinationChannel in m.channels && HighestRecv(m, p) < U64_MAX
    requires m.channels[p.destinationChannel].ordering.Ordered? ==> p.sequence == ExpectedRecv(m, p.destinationChannel)
    ensures InOrder(Recorded(m, p, HighestRecv(m, p) + 1), ps + [p], id)
  {
    OnChannelAppend(ps, p, id);
    if id == p.destinationChannel {
      if m.channels[id].ordering.Ordered? {
        CountsAppend(OnChannel(ps, id), p);
      }
    } else {
      assert OnChannel(ps + [p], id) == OnChannel(ps, id);
    }
  }

  lemma TakeKeepsOrder(end: End, now: U64, p: Packet, id: string)
    requires InOrder(end.state, end.accepted, id) && Accepts(end, now, p)
    ensures InOrder(Take(end, now, p).state, end.accepted + [p], id)
  {
    AcceptedIsExpected(end, now, p);
    RecordKeepsOrder(end.state, end.accepted, p, id);
  }

  lemma OverflowKeepsOrder(end: End, now: U64, p: Packet, id: string)
    requires InOrder(end.state, end.accepted, id) && !Accepts(end, now, p)
    ensures InOrder(Take(end, now, p).state, end.accepted, id)
  {
  }

  lemma TakeAddsReceipt(end: End, now: U64, p: Packet)
    requires AllReceipted(end.state, end.accepted) && NoRepeats(end.accepted) && Accepts(end, now, p)
    ensures AllReceipted(Take(end, now, p).state, end.accepted + [p]) && NoRepeats(end.accepted + [p])
  {
    var m, n := end.state, Take(end, now, p).state;
    forall i | 0 <= i < |end.accepted| ensures Receipted(n, end.accepted[i]) {
      assert Receipted(m, end.accepted[i]);
    }
    assert Receipted(n, p);
    forall i | 0 <= i < |end.accepted|
      ensures (end.accepted[i].sourceChannel, end.accepted[i].sequence) != (p.sourceChannel, p.sequence)
    {
      assert Receipted(m, end.accepted[i]);
    }
  }

  lemma TakeKeepsReceiving(end: End, now: U64, p: Packet)
    requires ReceivingOk(end)
    ensures ReceivingOk(Take(end, now, p))
  {
    var n := Take(end, now, p).state;
    if Accepts(end, now, p) {
      TakeAddsReceipt(end, now, p);
      forall id ensures InOrder(n, end.accepted + [p], id) {
        TakeKeepsOrder(end, now, p, id);
      }
    } else {
      assert AllReceipted(n, end.accepted) by {
        forall i | 0 <= i < |end.accepted| ensures Receipted(n, end.accepted[i]) {
          assert Receipted(end.state, end.accepted[i]);
        }
      }
      forall id ensures InOrder(n, end.accepted, id) {
        OverflowKeepsOrder(end, now, p, id);
      }
    }
  }

  lemma TakeKeepsSending(end: End, now: U64, p: Packet)
    requires SendingOk(end)
    ensures SendingOk(Take(end, now, p))
  {
    var n := Take(end, now, p).state;
    assert n.channels == end.state.channels && n.sent == end.state.sent && n.nextSend == end.state.nextSend;
  }

  // ---------------------------------------------------------------- both chains

  ghost predicate EndOk(end: End) {
    ModuleOk(end.state) && SendingOk(end) && ReceivingOk(end)
  }

  ghost predicate Linked(sender: End, receiver: End) {
    forall p | p in receiver.accepted :: p in sender.log
  }

  ghost predicate Inv(s: System) {
    EndOk(s.a) && EndOk(s.b) && Linked(s.a, s.b) && Linked(s.b, s.a)
  }

  lemma ActKeeps(end: End, e: Event)
    requires EndOk(end)
    ensures EndOk(Act(end, e))
  {
    if !e.Receiving? {
      StepKeepsChannels(end.config, end.state, e);
      StepKeepsOutbound(end.config, end.state, e);
    }
    ActKeepsSending(end, e);
    ActKeepsReceiving(end, e);
  }

  lemma TakeKeeps(end: End, now: U64, p: Packet)
    requires EndOk(end)
    ensures EndOk(Take(end, now, p))
  {
    StepKeepsChannels(end.config, end.state, Receiving(now, p));
    StepKeepsOutbound(end.config, end.state, Receiving(now, p));
    TakeKeepsSending(end, now, p);
    TakeKeepsReceiving(end, now, p);
  }

  lemma ActGrows(end: End, e: Event)
    ensures Act(end, e).accepted == end.accepted && forall p | p in end.log :: p in Act(end, e).log
  {
  }

  lemma TakeGrows(end: End, now: U64, p: Packet)
    ensures Take(end, now, p).log == end.log && forall q | q in Take(end, now, p).accepted :: q == p || q in end.accepted
  {
  }

  lemma NextKeeps(s: System, move: Move)
    requires Inv(s)
    ensures Inv(Next(s, move))
  {
    match move {
      case ActA(e) =>
        ActKeeps(s.a, e);
        ActGrows(s.a, e);
      case ActB(e) =>
        ActKeeps(s.b, e);
        ActGrows(s.b, e);
      case DeliverToA(i, now) =>
        if i < |s.b.log| {
          TakeKeeps(s.a, now, s.b.log[i]);
          TakeGrows(s.a, now, s.b.log[i]);
        }
      case DeliverToB(i, now) =>
        if i < |s.a.log| {
          TakeKeeps(s.b, now, s.a.log[i]);
          TakeGrows(s.b, now, s.a.log[i]);
        }
    }
  }

  lemma {:induction false} RunKeeps(a: Config, b: Config, moves: seq<Move>)
    ensures Inv(Run(Start(a, b), moves))
  {
    if moves != [] {
      RunKeeps(a, b, moves[..|moves| - 1]);
      NextKeeps(Run(Start(a, b), moves[..|moves| - 1]), moves[|moves| - 1]);
    }
  }

  // ---------------------------------------------------------------- what a run guarantees

  /** The two channels named by the packet name each other, and the packet carries its own transfer. */
  ghost predicate Mirrored(sender: End, receiver: End, p: Packet) {
    && p in sender.log
    && SentOn(sender.state.channels, p)
    && p.destinationChannel in receiver.state.channels
    && receiver.state.channels[p.destinationChannel].counterpartyChannelId == p.sourceChannel
    && sender.state.channels[p.sourceChannel].counterpartyChannelId == p.destinationChannel
    && receiver.state.channels[p.destinationChannel].portId == sender.state.channels[p.sourceChannel].counterpartyPortId
    && sender.state.channels[p.sourceChannel].portId == receiver.state.channels[p.destinationChannel].counterpartyPortId
  }

  ghost predicate AcceptedOnce(receiver: End) {
    forall i, j | 0 <= i < j < |receiver.accepted| :: receiver.accepted[i].sequence != receiver.accepted[j].sequence
  }

  /** What an ordered channel accepted is a prefix of everything the other chain sent. */
  ghost predicate OrderedIsPrefix(sender: End, receiver: End) {
    forall id | id in receiver.state.channels && receiver.state.channels[id].ordering.Ordered? ::
      OnChannel(receiver.accepted, id) <= sender.log
  }

  ghost predicate Delivers(sender: End, receiver: End) {
    && (forall p | p in receiver.accepted :: Mirrored(sender, receiver, p))
    && AcceptedOnce(receiver)
    && OrderedIsPrefix(sender, receiver)
    && (forall token :: Total(receiver.accepted, token) <= Total(sender.log, token))
  }

  lemma SequenceNames(end: End, p: Packet)
    requires SendingOk(end) && p in end.log
    ensures 1 <= p.sequence <= |end.log| && end.log[p.sequence - 1] == p
  {
    var i :| 0 <= i < |end.log| && end.log[i] == p;
  }

  lemma AcceptedMirrored(sender: End, receiver: End, p: Packet)
    requires SendingOk(sender) && ReceivingOk(receiver) && Linked(sender, receiver) && p in receiver.accepted
    ensures Mirrored(sender, receiver, p)
  {
    SequenceNames(sender, p);
    assert SentOn(sender.state.channels, sender.log[p.sequence - 1]);
    var j :| 0 <= j < |receiver.accepted| && receiver.accepted[j] == p;
    assert Receipted(receiver.state, receiver.accepted[j]);
  }

  lemma AcceptedAtMostOnce(sender: End, receiver: End)
    requires SendingOk(sender) && ReceivingOk(receiver) && Linked(sender, receiver)
    ensures AcceptedOnce(receiver)
  {
    var ps := receiver.accepted;
    forall i, j | 0 <= i < j < |ps| ensures ps[i].sequence != ps[j].sequence {
      assert ps[i] in ps && ps[j] in ps;
      SequenceNames(sender, ps[i]);
      SequenceNames(sender, ps[j]);
    }
  }

  lemma OrderedAt(sender: End, receiver: End, id: string, i: nat)
    requires SendingOk(sender) && Linked(sender, receiver)
    requires i < |OnChannel(receiver.accepted, id)| && OnChannel(receiver.accepted, id)[i].sequence == i + 1
    ensures i < |sender.log| && OnChannel(receiver.accepted, id)[i] == sender.log[i]
  {
    var p := OnChannel(receiver.accepted, id)[i];
    assert p in OnChannel(receiver.accepted, id);
    SequenceNames(sender, p);
  }

  lemma OrderedPrefix(sender: End, receiver: End, id: string)
    requires SendingOk(sender) && ReceivingOk(receiver) && Linked(sender, receiver)
    requires id in receiver.state.channels && receiver.state.channels[id].ordering.Ordered?
    ensures OnChannel(receiver.accepted, id) <= sender.log
  {
    var ps := OnChannel(receiver.accepted, id);
    assert Counts(ps, ExpectedRecv(receiver.state, id)) by {
      assert InOrder(receiver.state, receiver.accepted, id);
    }
    if ps != [] {
      OrderedAt(sender, receiver, id, |ps| - 1);
    }
    forall i | 0 <= i < |ps| ensures ps[i] == sender.log[i] {
      OrderedAt(sender, receiver, id, i);
    }
  }

  // ---------------------------------------------------------------- conservation

  function Amount(p: Packet, token: string): nat {
    if p.data.decoded.Some? && p.data.decoded.value.token == token then p.data.decoded.value.amount else 0
  }

  /** The amount of a token carried by the packets. */
  function Total(ps: seq<Packet>, token: string): nat {
    if ps == [] then 0 else Total(ps[..|ps| - 1], token) + Amount(ps[|ps| - 1], token)
  }

  ghost predicate DistinctSequences(ps: seq<Packet>) {
    forall i, j | 0 <= i < j < |ps| :: ps[i].sequence != ps[j].sequence
  }

  function BySequence(ps: seq<Packet>, token: string): map<U64, nat> {
    if ps == [] then map[] else
      BySequence(ps[..|ps| - 1], token)[ps[|ps| - 1].sequence := Amount(ps[|ps| - 1], token)]
  }

  lemma {:induction false} BySequenceAt(ps: seq<Packet>, token: string)
    requires DistinctSequences(ps)
    ensures forall s | s in BySequence(ps, token) :: exists p :: p in ps && p.sequence == s && BySequence(ps, token)[s] == Amount(p, token)
    ensures forall p | p in ps :: p.sequence in BySequence(ps, token) && BySequence(ps, token)[p.sequence] == Amount(p, token)
  {
    if ps != [] {
      var front, last := ps[..|ps| - 1], ps[|ps| - 1];
      BySequenceAt(front, token);
      assert forall p | p in ps :: p in front || p == last;
      assert forall p | p in front :: p in ps && p.sequence != last.sequence;
    }
  }

  lemma {:induction false} TotalIsSum(ps: seq<Packet>, token: string)
    requires DistinctSequences(ps)
    ensures Total(ps, token) == Sum(BySequence(ps, token))
  {
    if ps != [] {
      var front, last := ps[..|ps| - 1], ps[|ps| - 1];
      TotalIsSum(front, token);
      BySequenceAt(front, token);
      assert forall p | p in front :: p.sequence != last.sequence;
      assert last.sequence !in BySequence(front, token);
      SumUpdate(BySequence(front, token), last.sequence, Amount(last, token));
    }
  }

  lemma {:induction false} SubmapSum(m: map<U64, nat>, n: map<U64, nat>)
    requires forall s | s in m :: s in n && n[s] == m[s]
    ensures Sum(m) <= Sum(n)
    decreases |m|
  {
    if m != map[] {
      var s :| s in m;
      SumRemove(m, s);
      SumRemove(n, s);
      SubmapSum(m - {s}, n - {s});
    }
  }

  /** No more of a token is accepted on one chain than the other chain sent. */
  lemma Conserved(sender: End, receiver: End, token: string)
    requires SendingOk(sender) && ReceivingOk(receiver) && Linked(sender, receiver)
    ensures Total(receiver.accepted, token) <= Total(sender.log, token)
  {
    AcceptedAtMostOnce(sender, receiver);
    TotalIsSum(receiver.accepted, token);
    TotalIsSum(sender.log, token);
    BySequenceAt(receiver.accepted, token);
    BySequenceAt(sender.log, token);
    SubmapSum(BySequence(receiver.accepted, token), BySequence(sender.log, token));
  }

  // ---------------------------------------------------------------- the theorem

  lemma LinkedDelivers(sender: End, receiver: End)
    requires SendingOk(sender) && ReceivingOk(receiver) && Linked(sender, receiver)
    ensures Delivers(sender, receiver)
  {
    forall p | p in receiver.accepted ensures Mirrored(sender, receiver, p) {
      AcceptedMirrored(sender, receiver, p);
    }
    AcceptedAtMostOnce(sender, receiver);
    forall id | id in receiver.state.channels && receiver.state.channels[id].ordering.Ordered?
      ensures OnChannel(receiver.accepted, id) <= sender.log
    {
      OrderedPrefix(sender, receiver, id);
    }
    forall token ensures Total(receiver.accepted, token) <= Total(sender.log, token) {
      Conserved(sender, receiver, token);
    }
  }

  /** In every run, in both directions. */
  lemma EveryRunDelivers(a: Config, b: Config, moves: seq<Move>)
    ensures var s := Run(Start(a, b), moves); Delivers(s.a, s.b) && Delivers(s.b, s.a)
  {
    RunKeeps(a, b, moves);
    var s := Run(Start(a, b), moves);
    LinkedDelivers(s.a, s.b);
    LinkedDelivers(s.b, s.a);
  }

  /** The sequences a chain has issued are exactly 1, ..., nextSend - 1, in sending order. */
  lemma IssuedSequences(a: Config, b: Config, moves: seq<Move>)
    ensures var s := Run(Start(a, b), moves);
            Numbered(s.a.log, s.a.state.nextSend) && Numbered(s.b.log, s.b.state.nextSend)
  {
    RunKeeps(a, b, moves);
  }

  /**
   Sequences are shared by all channels of a chain, so an ordered channel accepts nothing past
   the first packet the other chain sends anywhere else.
   */
  lemma OrderedStalls(a: Config, b: Config, moves: seq<Move>, id: string, i: nat)
    requires var s := Run(Start(a, b), moves);
             && id in s.b.state.channels && s.b.state.channels[id].ordering.Ordered?
             && i < |s.a.log| && s.a.log[i].destinationChannel != id
    ensures |OnChannel(Run(Start(a, b), moves).b.accepted, id)| <= i
  {
    EveryRunDelivers(a, b, moves);
    var s := Run(Start(a, b), moves);
    var ps := OnChannel(s.b.accepted, id);
    assert ps <= s.a.log;
    assert forall j | 0 <= j < |ps| :: ps[j] in ps && ps[j] == s.a.log[j];
  }

  // ---------------------------------------------------------------- from the asking to the returning call

  datatype Side = SideA | SideB

  function EndOf(s: System, side: Side): End {
    match side case SideA => s.a case SideB => s.b
  }

  function OtherEnd(s: System, side: Side): End {
    match side case SideA => s.b case SideB => s.a
  }

  /** The chain's own event in this move, if any. */
  function OwnEvent(move: Move, side: Side): Option<Event> {
    match (move, side)
    case (ActA(e), SideA) => Some(e)
    case (ActB(e), SideB) => Some(e)
    case _ => None
  }

  /** The packet number and time of a delivery to this chain. */
  function Delivery(move: Move, side: Side): Option<(nat, U64)> {
    match (move, side)
    case (DeliverToA(i, now), SideA) => Some((i, now))
    case (DeliverToB(i, now), SideB) => Some((i, now))
    case _ => None
  }

  /** The transfer that a send call of the chain in this move was asked for and accepted. */
  function AskedIn(s: System, move: Move, side: Side): seq<Transfer> {
    var e := OwnEvent(move, side);
    if e.Some? && e.value.Sending?
       && SendTransfer(EndOf(s, side).config, EndOf(s, side).state, e.value.now, e.value.transfer).1.Ok?
    then [e.value.transfer] else []
  }

  /** The transfer that a receive call of the chain in this move returned. */
  function ReturnedIn(s: System, move: Move, side: Side): seq<Transfer> {
    var d := Delivery(move, side);
    if d.None? || d.value.0 >= |OtherEnd(s, side).log| then [] else
      var r := ReceivePacket(EndOf(s, side).config, EndOf(s, side).state, d.value.1, OtherEnd(s, side).log[d.value.0]).1;
      if r.Ok? then [r.value] else []
  }

  /** All transfers the chain accepted for sending, in order. */
  function Asked(s: System, moves: seq<Move>, side: Side): seq<Transfer> {
    if moves == [] then [] else
      var front, last := moves[..|moves| - 1], moves[|moves| - 1];
      Asked(s, front, side) + AskedIn(Run(s, front), last, side)
  }

  /** All transfers the chain's receive calls returned, in order. */
  function Returned(s: System, moves: seq<Move>, side: Side): seq<Transfer> {
    if moves == [] then [] else
      var front, last := moves[..|moves| - 1], moves[|moves| - 1];
      Returned(s, front, side) + ReturnedIn(Run(s, front), last, side)
  }

  /** The packets carry these transfers, one each. */
  ghost predicate Carry(ps: seq<Packet>, ts: seq<Transfer>) {
    |ps| == |ts| && forall i | 0 <= i < |ps| :: ps[i].data.decoded == Some(ts[i])
  }

  lemma CarryAppend(ps: seq<Packet>, ts: seq<Transfer>, p: Packet, t: Transfer)
    requires Carry(ps, ts) && p.data.decoded == Some(t)
    ensures Carry(ps + [p], ts + [t])
  {
  }

  lemma ActCarries(end: End, e: Event, ts: seq<Transfer>)
    requires Carry(end.log, ts)
    ensures Carry(Act(end, e).log,
                  ts + if e.Sending? && SendTransfer(end.config, end.state, e.now, e.transfer).1.Ok? then [e.transfer] else [])
  {
    if Sends(end, e) {
      var p := OutboundPacket(end.config, end.state, e.now, e.transfer);
      SendCarries(end.config, end.state, e.now, e.transfer);
      assert SendTransfer(end.config, end.state, e.now, e.transfer).0.sent[end.state.nextSend] == p;
      CarryAppend(end.log, ts, p, e.transfer);
    } else {
      assert ts + [] == ts;
    }
  }

  lemma TakeCarries(end: End, now: U64, p: Packet, ts: seq<Transfer>)
    requires Carry(end.accepted, ts)
    ensures var r := ReceivePacket(end.config, end.state, now, p).1;
            Carry(Take(end, now, p).accepted, ts + if r.Ok? then [r.value] else [])
  {
    if Accepts(end, now, p) {
      ReceiveReturns(end.config, end.state, now, p);
      CarryAppend(end.accepted, ts, p, ReceivePacket(end.config, end.state, now, p).1.value);
    } else {
      assert ts + [] == ts;
    }
  }

  lemma NextAsks(s: System, move: Move, side: Side, ts: seq<Transfer>)
    requires Carry(EndOf(s, side).log, ts)
    ensures Carry(EndOf(Next(s, move), side).log, ts + AskedIn(s, move, side))
  {
    if OwnEvent(move, side).Some? {
      ActCarries(EndOf(s, side), OwnEvent(move, side).value, ts);
    } else {
      assert ts + [] == ts;
    }
  }

  lemma NextReturns(s: System, move: Move, side: Side, ts: seq<Transfer>)
    requires Carry(EndOf(s, side).accepted, ts)
    ensures Carry(EndOf(Next(s, move), side).accepted, ts + ReturnedIn(s, move, side))
  {
    var d := Delivery(move, side);
    if d.Some? && d.value.0 < |OtherEnd(s, side).log| {
      TakeCarries(EndOf(s, side), d.value.1, OtherEnd(s, side).log[d.value.0], ts);
    } else {
      assert ts + [] == ts;
    }
  }

  /** In every run the log carries what was asked for and the accepted packets carry what was returned, in order. */
  lemma {:induction false} RunCarries(a: Config, b: Config, moves: seq<Move>, side: Side)
    ensures Carry(EndOf(Run(Start(a, b), moves), side).log, Asked(Start(a, b), moves, side))
    ensures Carry(EndOf(Run(Start(a, b), moves), side).accepted, Returned(Start(a, b), moves, side))
  {
    if moves != [] {
      var front, last := moves[..|moves| - 1], moves[|moves| - 1];
      RunCarries(a, b, front, side);
      NextAsks(Run(Start(a, b), front), last, side, Asked(Start(a, b), front, side));
      NextReturns(Run(Start(a, b), front), last, side, Returned(Start(a, b), front, side));
    }
  }

  function Opposite(side: Side): Side {
    match side case SideA => SideB case SideB => SideA
  }

  /** The j-th accepted packet is the one of the send call its sequence names, and of no other delivery. */
  ghost predicate Answers(sender: End, receiver: End, asked: seq<Transfer>, returned: seq<Transfer>, j: nat, i: nat) {
    && j < |returned| == |receiver.accepted| && i < |asked| == |sender.log|
    && receiver.accepted[j] == sender.log[i] && returned[j] == asked[i]
    && forall k | 0 <= k < |receiver.accepted| && k != j :: receiver.accepted[k].sequence != receiver.accepted[j].sequence
  }

  lemma MatchedSend(sender: End, receiver: End, asked: seq<Transfer>, returned: seq<Transfer>, j: nat)
    requires SendingOk(sender) && ReceivingOk(receiver) && Linked(sender, receiver)
    requires Carry(sender.log, asked) && Carry(receiver.accepted, returned) && j < |returned|
    ensures 1 <= receiver.accepted[j].sequence
    ensures Answers(sender, receiver, asked, returned, j, receiver.accepted[j].sequence - 1)
  {
    var p := receiver.accepted[j];
    assert p in receiver.accepted;
    SequenceNames(sender, p);
    AcceptedAtMostOnce(sender, receiver);
  }

  lemma SidesFit(s: System, side: Side)
    requires Inv(s)
    ensures SendingOk(EndOf(s, Opposite(side))) && ReceivingOk(EndOf(s, side))
    ensures Linked(EndOf(s, Opposite(side)), EndOf(s, side))
  {
  }

  ghost predicate SomeAsked(s: System, side: Side, asked: seq<Transfer>, returned: seq<Transfer>, j: nat) {
    exists i: nat :: Answers(EndOf(s, Opposite(side)), EndOf(s, side), asked, returned, j, i)
  }

  lemma SideMatched(s: System, side: Side, asked: seq<Transfer>, returned: seq<Transfer>, j: nat)
    requires Inv(s) && Carry(EndOf(s, Opposite(side)).log, asked) && Carry(EndOf(s, side).accepted, returned) && j < |returned|
    ensures SomeAsked(s, side, asked, returned, j)
  {
    SidesFit(s, side);
    MatchedSend(EndOf(s, Opposite(side)), EndOf(s, side), asked, returned, j);
  }

  /**
   End to end: whatever a receive call returned as its j-th transfer is the transfer of one send
   call of the other chain, and different receive calls answer different send calls.
   */
  lemma ReturnedWasAsked(a: Config, b: Config, moves: seq<Move>, side: Side, j: nat)
    requires j < |Returned(Start(a, b), moves, side)|
    ensures SomeAsked(Run(Start(a, b), moves), side,
                      Asked(Start(a, b), moves, Opposite(side)), Returned(Start(a, b), moves, side), j)
  {
    RunKeeps(a, b, moves);
    RunCarries(a, b, moves, side);
    RunCarries(a, b, moves, Opposite(side));
    SideMatched(Run(Start(a, b), moves), side,
                Asked(Start(a, b), moves, Opposite(side)), Returned(Start(a, b), moves, side), j);
  }

  function AmountOf(ts: seq<Transfer>, token: string): nat {
    if ts == [] then 0 else
      var last := ts[|ts| - 1];
      AmountOf(ts[..|ts| - 1], token) + if last.token == token then last.amount else 0
  }

  lemma {:induction false} CarriedTotal(ps: seq<Packet>, ts: seq<Transfer>, token: string)
    requires Carry(ps, ts)
    ensures Total(ps, token) == AmountOf(ts, token)
  {
    if ps != [] {
      CarriedTotal(ps[..|ps| - 1], ts[..|ts| - 1], token);
    }
  }

  /** No token is returned beyond what was asked for on the other chain. */
  lemma ReturnedWithinAsked(a: Config, b: Config, moves: seq<Move>, side: Side, token: string)
    ensures AmountOf(Returned(Start(a, b), moves, side), token) <= AmountOf(Asked(Start(a, b), moves, Opposite(side)), token)
  {
    RunKeeps(a, b, moves);
    RunCarries(a, b, moves, side);
    RunCarries(a, b, moves, Opposite(side));
    var s := Run(Start(a, b), moves);
    SidesFit(s, side);
    Conserved(EndOf(s, Opposite(side)), EndOf(s, side), token);
    CarriedTotal(EndOf(s, side).accepted, Returned(Start(a, b), moves, side), token);
    CarriedTotal(EndOf(s, Opposite(side)).log, Asked(Start(a, b), moves, Opposite(side)), token);
  }
}
