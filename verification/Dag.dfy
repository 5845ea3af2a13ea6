/**
 The dissemination DAG: a round store, a hash index and an edge table over the same vertices.
 Vertex hashing is any function of the vertex; nothing here depends on how it is computed.
 */
module Dag {
  import opened Prelude
  import opened Core
  import opened Quorum

  type VertexHash = nat

  datatype Vertex = Vertex(author: Address, round: U64, block: Block, parents: seq<VertexHash>, signature: seq<Byte>)

  type Hasher = Vertex -> VertexHash

  datatype DagError =
    | RoundZero
    | NoParents
    | MissingParent(hash: VertexHash)
    | UnknownVertex(hash: VertexHash)
    | TooFewSupporters(have: nat, need: nat)

  /** What the three tables describe: the stored vertices by hash, and which of them are committed. */
  datatype Store = Store(live: map<VertexHash, Vertex>, committed: set<VertexHash>)

  const EMPTY := Store(map[], {})

  // ---------------------------------------------------------------- the operations on values

  function FirstMissing(known: set<VertexHash>, parents: seq<VertexHash>): (r: Option<VertexHash>)
    ensures r.None? <==> forall p | p in parents :: p in known
  {
    if parents == [] then None
    else if parents[0] !in known then Some(parents[0])
    else assert forall p | p in parents :: p == parents[0] || p in parents[1..]; FirstMissing(known, parents[1..])
  }

  function Admission(hash: Hasher, s: Store, v: Vertex): Result<VertexHash, DagError> {
    if v.round == 0 then Err(RoundZero)
    else if hash(v) in s.live then Ok(hash(v))
    else if v.round > 1 && v.parents == [] then Err(NoParents)
    else if v.round > 1 && FirstMissing(s.live.Keys, v.parents).Some? then
      Err(MissingParent(FirstMissing(s.live.Keys, v.parents).value))
    else Ok(hash(v))
  }

  /** The vertex is accepted and was not stored before. */
  predicate Admits(hash: Hasher, s: Store, v: Vertex) {
    Admission(hash, s, v).Ok? && hash(v) !in s.live
  }

  function Add(hash: Hasher, s: Store, v: Vertex): Store {
    if Admits(hash, s, v) then s.(live := s.live[hash(v) := v]) else s
  }

  predicate Supports(v: Vertex, h: VertexHash, round: nat) {
    v.round == round + 1 && h in v.parents
  }

  /** The distinct authors of next-round vertices that name `h` as a parent. */
  function Supporters(live: map<VertexHash, Vertex>, h: VertexHash): set<Address> {
    if h !in live then {} else
      set g | g in live && Supports(live[g], h, live[h].round) :: live[g].author
  }

  predicate HasQuorum(config: ConsensusConfig, live: map<VertexHash, Vertex>, h: VertexHash) {
    |Supporters(live, h)| >= config.quorumThreshold
  }

  function Commit(config: ConsensusConfig, s: Store, h: VertexHash): Store {
    if h in s.live && HasQuorum(config, s.live, h) then s.(committed := s.committed + {h}) else s
  }

  ghost predicate IsLatest(live: map<VertexHash, Vertex>, round: nat) {
    && (live == map[] ==> round == 0)
    && (live != map[] ==> exists h :: h in live && live[h].round == round)
    && (forall h | h in live :: live[h].round <= round)
  }

  lemma {:induction false} LatestExists(live: map<VertexHash, Vertex>)
    ensures exists round: nat :: IsLatest(live, round)
    decreases |live|
  {
    if live == map[] {
      assert IsLatest(live, 0);
    } else {
      var h :| h in live;
      var rest := live - {h};
      LatestExists(rest);
      var round: nat :| IsLatest(rest, round);
      assert forall g | g in live :: g == h || g in rest;
      if rest == map[] || round < live[h].round {
        assert IsLatest(live, live[h].round);
      } else {
        var g :| g in rest && rest[g].round == round;
        assert g in live && live[g].round == round;
        assert IsLatest(live, round);
      }
    }
  }

  ghost function Latest(live: map<VertexHash, Vertex>): (round: nat)
    ensures IsLatest(live, round)
  {
    LatestExists(live);
    var round: nat :| IsLatest(live, round);
    round
  }

  function SaturatingSub(a: nat, b: nat): nat {
    if a < b then 0 else a - b
  }

  /** The committed vertices below the cutoff. */
  function Collected(s: Store, cutoff: nat): set<VertexHash> {
    set h | h in s.live && h in s.committed && s.live[h].round < cutoff
  }

  function Collect(s: Store, cutoff: nat): Store {
    Store(s.live - Collected(s, cutoff), s.committed - Collected(s, cutoff))
  }

  // ---------------------------------------------------------------- whole runs

  datatype Event = AddVertex(v: Vertex) | MarkCommitted(h: VertexHash) | Gc(keepRounds: U64)

  ghost function Step(hash: Hasher, config: ConsensusConfig, s: Store, e: Event): Store {
    match e
    case AddVertex(v) => Add(hash, s, v)
    case MarkCommitted(h) => Commit(config, s, h)
    case Gc(keep) => Collect(s, SaturatingSub(Latest(s.live), keep))
  }

  ghost function Run(hash: Hasher, config: ConsensusConfig, events: seq<Event>): Store {
    if events == [] then EMPTY else
      Step(hash, config, Run(hash, config, events[..|events| - 1]), events[|events| - 1])
  }

  ghost predicate Keyed(hash: Hasher, live: map<VertexHash, Vertex>) {
    forall h | h in live :: hash(live[h]) == h && live[h].round >= 1
  }

  /** Every committed vertex is stored and has a quorum of supporters among the stored vertices. */
  ghost predicate Backed(config: ConsensusConfig, s: Store) {
    forall h | h in s.committed :: h in s.live && HasQuorum(config, s.live, h)
  }

  ghost predicate StoreOk(hash: Hasher, config: ConsensusConfig, s: Store) {
    Keyed(hash, s.live) && Backed(config, s)
  }

  /** Support only depends on the vertex and on the vertices of the next round. */
  lemma SupportKept(config: ConsensusConfig, live: map<VertexHash, Vertex>, after: map<VertexHash, Vertex>, h: VertexHash)
    requires h in live && h in after && after[h] == live[h]
    requires forall g | g in live && live[g].round == live[h].round + 1 :: g in after && after[g] == live[g]
    ensures HasQuorum(config, live, h) ==> HasQuorum(config, after, h)
  {
    assert Supporters(live, h) <= Supporters(after, h) by {
      forall a | a in Supporters(live, h) ensures a in Supporters(after, h) {
        var g :| g in live && Supports(live[g], h, live[h].round) && live[g].author == a;
        assert g in after && Supports(after[g], h, after[h].round);
      }
    }
    SubsetSize(Supporters(live, h), Supporters(after, h));
  }

  lemma AddKeepsOk(hash: Hasher, config: ConsensusConfig, s: Store, v: Vertex)
    requires StoreOk(hash, config, s)
    ensures StoreOk(hash, config, Add(hash, s, v))
  {
    var after := Add(hash, s, v);
    forall h | h in s.committed ensures h in after.live && HasQuorum(config, after.live, h) {
      SupportKept(config, s.live, after.live, h);
    }
  }

  lemma CollectKeepsOk(hash: Hasher, config: ConsensusConfig, s: Store, cutoff: nat)
    requires StoreOk(hash, config, s)
    ensures StoreOk(hash, config, Collect(s, cutoff))
  {
    var after := Collect(s, cutoff);
    forall h | h in after.committed ensures h in after.live && HasQuorum(config, after.live, h) {
      assert s.live[h].round >= cutoff;
      SupportKept(config, s.live, after.live, h);
    }
  }

  /** In every run each stored committed vertex still has quorum support, whatever gc removed. */
  lemma {:induction false} RunKeepsSupport(hash: Hasher, config: ConsensusConfig, events: seq<Event>)
    ensures StoreOk(hash, config, Run(hash, config, events))
  {
    if events != [] {
      var before := Run(hash, config, events[..|events| - 1]);
      RunKeepsSupport(hash, config, events[..|events| - 1]);
      match events[|events| - 1]
      case AddVertex(v) => AddKeepsOk(hash, config, before, v);
      case MarkCommitted(h) =>
      case Gc(keep) => CollectKeepsOk(hash, config, before, SaturatingSub(Latest(before.live), keep));
    }
  }

  /** The vertices in the order they were admitted. */
  ghost function Admitted(hash: Hasher, config: ConsensusConfig, events: seq<Event>): seq<Vertex> {
    if events == [] then [] else
      var earlier, e := events[..|events| - 1], events[|events| - 1];
      Admitted(hash, config, earlier) +
      if e.AddVertex? && Admits(hash, Run(hash, config, earlier), e.v) then [e.v] else []
  }

  ghost predicate Named(hash: Hasher, log: seq<Vertex>, n: nat, h: VertexHash)
    requires n <= |log|
  {
    exists j :: 0 <= j < n && hash(log[j]) == h
  }

  /** The parents of a vertex past round 1 were all admitted before it, and it has some. */
  ghost predicate ParentsPrecede(hash: Hasher, log: seq<Vertex>, i: nat)
    requires i < |log|
  {
    log[i].round > 1 ==> log[i].parents != [] && forall p | p in log[i].parents :: Named(hash, log, i, p)
  }

  lemma NamedExtends(hash: Hasher, log: seq<Vertex>, v: Vertex, n: nat, h: VertexHash)
    requires n <= |log| && Named(hash, log, n, h)
    ensures Named(hash, log + [v], n, h)
  {
    var j :| 0 <= j < n && hash(log[j]) == h;
    assert (log + [v])[j] == log[j];
  }

  lemma PrecedeExtends(hash: Hasher, log: seq<Vertex>, v: Vertex, i: nat)
    requires i < |log| && ParentsPrecede(hash, log, i)
    ensures ParentsPrecede(hash, log + [v], i)
  {
    assert (log + [v])[i] == log[i];
    if log[i].round > 1 {
      forall p | p in log[i].parents ensures Named(hash, log + [v], i, p) {
        NamedExtends(hash, log, v, i, p);
      }
    }
  }

  /** Every stored vertex was admitted. */
  ghost predicate Covers(hash: Hasher, log: seq<Vertex>, live: map<VertexHash, Vertex>) {
    forall h | h in live :: Named(hash, log, |log|, h)
  }

  ghost predicate Topological(hash: Hasher, log: seq<Vertex>) {
    forall i | 0 <= i < |log| :: ParentsPrecede(hash, log, i)
  }

  lemma NewestPrecedes(hash: Hasher, s: Store, log: seq<Vertex>, v: Vertex)
    requires Admits(hash, s, v) && Covers(hash, log, s.live)
    ensures ParentsPrecede(hash, log + [v], |log|)
  {
    if v.round > 1 {
      forall p | p in v.parents ensures Named(hash, log + [v], |log|, p) {
        NamedExtends(hash, log, v, |log|, p);
      }
    }
  }

  lemma AdmitExtends(hash: Hasher, s: Store, log: seq<Vertex>, v: Vertex)
    requires Admits(hash, s, v) && Covers(hash, log, s.live) && Topological(hash, log)
    ensures Covers(hash, log + [v], Add(hash, s, v).live) && Topological(hash, log + [v])
  {
    var grown := log + [v];
    forall h | h in Add(hash, s, v).live ensures Named(hash, grown, |grown|, h) {
      if h == hash(v) {
        assert hash(grown[|log|]) == h;
      } else {
        NamedExtends(hash, log, v, |log|, h);
      }
    }
    forall i | 0 <= i < |grown| ensures ParentsPrecede(hash, grown, i) {
      if i < |log| {
        PrecedeExtends(hash, log, v, i);
      } else {
        NewestPrecedes(hash, s, log, v);
      }
    }
  }

  lemma StepAddsNothing(hash: Hasher, config: ConsensusConfig, s: Store, e: Event)
    requires !(e.AddVertex? && Admits(hash, s, e.v))
    ensures forall h | h in Step(hash, config, s, e).live :: h in s.live
  {
  }

  /**
   Admission order is topological in every run, even across garbage collection: every stored
   vertex was admitted, and the parents of each admitted vertex past round 1 came earlier.
   */
  lemma {:induction false} AdmissionIsTopological(hash: Hasher, config: ConsensusConfig, events: seq<Event>)
    ensures Covers(hash, Admitted(hash, config, events), Run(hash, config, events).live)
    ensures Topological(hash, Admitted(hash, config, events))
  {
    if events != [] {
      var earlier, e := events[..|events| - 1], events[|events| - 1];
      AdmissionIsTopological(hash, config, earlier);
      var before, log := Run(hash, config, earlier), Admitted(hash, config, earlier);
      if e.AddVertex? && Admits(hash, before, e.v) {
        AdmitExtends(hash, before, log, e.v);
      } else {
        assert Admitted(hash, config, events) == log + [] == log;
        StepAddsNothing(hash, config, before, e);
      }
    }
  }

  /** Every parent of a stored vertex past round 1 is stored too. */
  ghost predicate Connected(live: map<VertexHash, Vertex>) {
    forall h, p | h in live && live[h].round > 1 && p in live[h].parents :: p in live
  }

  /** Without garbage collection the stored DAG stays closed under parents. */
  lemma {:induction false} ConnectedWithoutGc(hash: Hasher, config: ConsensusConfig, events: seq<Event>)
    requires forall i | 0 <= i < |events| :: !events[i].Gc?
    ensures Connected(Run(hash, config, events).live)
  {
    if events != [] {
      ConnectedWithoutGc(hash, config, events[..|events| - 1]);
      assert !events[|events| - 1].Gc?;
    }
  }

  lemma SupporterExists(config: ConsensusConfig, live: map<VertexHash, Vertex>, h: VertexHash) returns (g: VertexHash)
    requires h in live && HasQuorum(config, live, h) && config.quorumThreshold > 0
    ensures g in live && Supports(live[g], h, live[h].round)
  {
    var a :| a in Supporters(live, h);
    g :| g in live && Supports(live[g], h, live[h].round) && live[g].author == a;
  }

  /** A collected vertex of the highest collected round leaves a supporter without its parent. */
  lemma CollectedLeavesOrphan(hash: Hasher, config: ConsensusConfig, s: Store, cutoff: nat)
    requires StoreOk(hash, config, s) && config.quorumThreshold > 0 && Collected(s, cutoff) != {}
    ensures !Connected(Collect(s, cutoff).live)
  {
    var gone := map h | h in Collected(s, cutoff) :: s.live[h];
    var some :| some in Collected(s, cutoff);
    assert some in gone;
    var top := Latest(gone);
    var h :| h in gone && gone[h].round == top;
    var g := SupporterExists(config, s.live, h);
    assert g !in gone;
    var after := Collect(s, cutoff).live;
    assert g in after && after[g].round > 1 && h in after[g].parents && h !in after;
  }

  /**
   The stored DAG stays closed under parents exactly when garbage collection removes nothing:
   every committed vertex has supporters, and those of the last collected round stay behind.
   */
  lemma ConnectedAfterGcIff(hash: Hasher, config: ConsensusConfig, s: Store, cutoff: nat)
    requires StoreOk(hash, config, s) && config.quorumThreshold > 0 && Connected(s.live)
    ensures Connected(Collect(s, cutoff).live) <==> Collected(s, cutoff) == {}
  {
    if Collected(s, cutoff) == {} {
      assert Collect(s, cutoff).live == s.live;
    } else {
      CollectedLeavesOrphan(hash, config, s, cutoff);
    }
  }

  lemma LatestIs(live: map<VertexHash, Vertex>, round: nat)
    requires IsLatest(live, round)
    ensures Latest(live) == round
  {
  }

  lemma FamilyRun(hash: Hasher, config: ConsensusConfig, p: Vertex, c: Vertex)
    requires p.round == 1 && c.round == 2 && c.parents == [hash(p)] && hash(p) != hash(c) && config.quorumThreshold == 1
    ensures Run(hash, config, [AddVertex(p), AddVertex(c), MarkCommitted(hash(p))])
         == Store(map[hash(p) := p, hash(c) := c], {hash(p)})
  {
    var e1, e2, e3 := AddVertex(p), AddVertex(c), MarkCommitted(hash(p));
    assert [e1][..0] == [] && [e1, e2][..1] == [e1] && [e1, e2, e3][..2] == [e1, e2];
    var both := map[hash(p) := p, hash(c) := c];
    assert Run(hash, config, [e1]) == Store(map[hash(p) := p], {});
    assert c.parents[1..] == [];
    assert Run(hash, config, [e1, e2]) == Store(both, {});
    assert Supports(both[hash(c)], hash(p), both[hash(p)].round);
    assert c.author in Supporters(both, hash(p));
    assert HasQuorum(config, both, hash(p));
  }

  /** The smallest run that loses the connection: one validator, a parent, its child, a collection. */
  lemma GcOrphansChild(hash: Hasher, p: Vertex, c: Vertex)
    requires p.round == 1 && c.round == 2 && c.parents == [hash(p)] && hash(p) != hash(c)
    ensures var config := NewConfig(1).value;
            var family := [AddVertex(p), AddVertex(c), MarkCommitted(hash(p))];
            Connected(Run(hash, config, family).live) && !Connected(Run(hash, config, family + [Gc(0)]).live)
  {
    var config, family := NewConfig(1).value, [AddVertex(p), AddVertex(c), MarkCommitted(hash(p))];
    FamilyRun(hash, config, p, c);
    RunKeepsSupport(hash, config, family);
    var s := Run(hash, config, family);
    assert (family + [Gc(0)])[..3] == family;
    assert s.live[hash(c)].round == 2 && IsLatest(s.live, 2);
    LatestIs(s.live, 2);
    assert hash(p) in Collected(s, 2);
    CollectedLeavesOrphan(hash, config, s, 2);
  }

  /** Exactly the committed vertices more than `keep` rounds behind some stored vertex are collected. */
  lemma GcRemovesIff(hash: Hasher, config: ConsensusConfig, s: Store, keep: U64, h: VertexHash)
    requires h in s.live
    ensures h !in Step(hash, config, s, Gc(keep)).live <==>
              h in s.committed && exists g :: g in s.live && s.live[g].round > s.live[h].round + keep
  {
    assert IsLatest(s.live, Latest(s.live));
  }

  /** Exactly when a vertex is admitted, in terms of its round and parents. */
  lemma AdmitsIff(hash: Hasher, s: Store, v: Vertex)
    ensures Admits(hash, s, v) <==>
              && v.round >= 1 && hash(v) !in s.live
              && (v.round > 1 ==> v.parents != [] && forall p | p in v.parents :: p in s.live)
    ensures Add(hash, s, v).live == if Admits(hash, s, v) then s.live[hash(v) := v] else s.live
    ensures Add(hash, s, v).committed == s.committed
  {
  }

  /** A vertex is committed exactly when it is stored and enough different authors of the next round name it. */
  lemma CommitsIff(config: ConsensusConfig, s: Store, h: VertexHash)
    requires h !in s.committed
    ensures h in Commit(config, s, h).committed <==>
              && h in s.live
              && |set g | g in s.live && s.live[g].round == s.live[h].round + 1 && h in s.live[g].parents :: s.live[g].author|
                 >= config.quorumThreshold
    ensures Commit(config, s, h).live == s.live && s.committed <= Commit(config, s, h).committed <= s.committed + {h}
  {
    if h in s.live {
      assert Supporters(s.live, h)
          == set g | g in s.live && s.live[g].round == s.live[h].round + 1 && h in s.live[g].parents :: s.live[g].author;
    }
  }

  /** In every run a committed vertex has its quorum among the authors of the next round. */
  lemma CommittedHaveQuorum(hash: Hasher, config: ConsensusConfig, events: seq<Event>, h: VertexHash)
    requires h in Run(hash, config, events).committed
    ensures var live := Run(hash, config, events).live;
            && h in live
            && |set g | g in live && live[g].round == live[h].round + 1 && h in live[g].parents :: live[g].author|
               >= config.quorumThreshold
  {
    RunKeepsSupport(hash, config, events);
    var live := Run(hash, config, events).live;
    assert Supporters(live, h)
        == set g | g in live && live[g].round == live[h].round + 1 && h in live[g].parents :: live[g].author;
  }

  /** The parent a refusal names is the first one that is not stored. */
  lemma {:induction false} MissingIsFirst(known: set<VertexHash>, parents: seq<VertexHash>) returns (i: nat)
    requires FirstMissing(known, parents).Some?
    ensures i < |parents| && FirstMissing(known, parents) == Some(parents[i]) && parents[i] !in known
    ensures forall j | 0 <= j < i :: parents[j] in known
  {
    if parents[0] !in known {
      i := 0;
    } else {
      i := MissingIsFirst(known, parents[1..]);
      i := i + 1;
    }
  }
}
