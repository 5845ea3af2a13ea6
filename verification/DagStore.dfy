/** The DAG object: its round store, hash index and edge table are kept as views of one vertex set. */
module DagStore {
  import opened Prelude
  import opened Core
  import opened Quorum
  import opened Dag

  type Rounds = map<U64, seq<Vertex>>

  ghost predicate DistinctHashes(hash: Hasher, list: seq<Vertex>) {
    forall i, j | 0 <= i < j < |list| :: hash(list[i]) != hash(list[j])
  }

  /** A round's list holds live vertices of that round, each once. */
  ghost predicate RoundOk(hash: Hasher, live: map<VertexHash, Vertex>, round: U64, list: seq<Vertex>) {
    && list != []
    && DistinctHashes(hash, list)
    && (forall v | v in list :: v.round == round && hash(v) in live && live[hash(v)] == v)
  }

  ghost predicate Listed(rounds: Rounds, v: Vertex) {
    v.round in rounds && v in rounds[v.round]
  }

  /** The round store lists exactly the live vertices, with no empty round. */
  ghost predicate RoundsView(hash: Hasher, live: map<VertexHash, Vertex>, rounds: Rounds) {
    && (forall r | r in rounds :: RoundOk(hash, live, r, rounds[r]))
    && (forall h | h in live :: Listed(rounds, live[h]))
  }

  function IndexView(live: map<VertexHash, Vertex>): map<VertexHash, U64> {
    map h | h in live :: live[h].round
  }

  function EdgesView(live: map<VertexHash, Vertex>): map<VertexHash, seq<VertexHash>> {
    map h | h in live :: live[h].parents
  }

  // ---------------------------------------------------------------- admission

  function Push(rounds: Rounds, v: Vertex): Rounds {
    rounds[v.round := (if v.round in rounds then rounds[v.round] else []) + [v]]
  }

  lemma PushedRound(hash: Hasher, live: map<VertexHash, Vertex>, list: seq<Vertex>, v: Vertex)
    requires list == [] || RoundOk(hash, live, v.round, list)
    requires hash(v) !in live
    ensures RoundOk(hash, live[hash(v) := v], v.round, list + [v])
  {
    var grown := list + [v];
    forall i, j | 0 <= i < j < |grown| ensures hash(grown[i]) != hash(grown[j]) {
      assert grown[i] == list[i] && grown[i] in list;
    }
  }

  lemma PushKeepsView(hash: Hasher, live: map<VertexHash, Vertex>, rounds: Rounds, v: Vertex)
    requires RoundsView(hash, live, rounds) && hash(v) !in live
    ensures RoundsView(hash, live[hash(v) := v], Push(rounds, v))
  {
    var grown, more := live[hash(v) := v], Push(rounds, v);
    PushedRound(hash, live, if v.round in rounds then rounds[v.round] else [], v);
    forall r | r in more ensures RoundOk(hash, grown, r, more[r]) {
      if r != v.round {
        assert RoundOk(hash, live, r, rounds[r]);
      }
    }
    forall h | h in grown ensures Listed(more, grown[h]) {
      if h != hash(v) {
        assert Listed(rounds, live[h]);
      }
    }
  }

  // ---------------------------------------------------------------- garbage collection

  /** The vertices of a list that are not committed, in their order. */
  function Uncommitted(hash: Hasher, committed: set<VertexHash>, list: seq<Vertex>): (r: seq<Vertex>)
    ensures forall v :: v in r <==> v in list && hash(v) !in committed
  {
    if list == [] then [] else
      var last := list[|list| - 1];
      assert forall v :: v in list <==> v in list[..|list| - 1] || v == last;
      Uncommitted(hash, committed, list[..|list| - 1]) + if hash(last) in committed then [] else [last]
  }

  lemma {:induction false} UncommittedDistinct(hash: Hasher, committed: set<VertexHash>, list: seq<Vertex>)
    requires DistinctHashes(hash, list)
    ensures DistinctHashes(hash, Uncommitted(hash, committed, list))
  {
    if list != [] {
      var front, last := list[..|list| - 1], list[|list| - 1];
      UncommittedDistinct(hash, committed, front);
      var kept := Uncommitted(hash, committed, front);
      forall i | 0 <= i < |kept| ensures hash(kept[i]) != hash(last) {
        assert kept[i] in front;
        var j :| 0 <= j < |front| && front[j] == kept[i];
        assert list[j] == kept[i];
      }
    }
  }

  function RetainRound(hash: Hasher, committed: set<VertexHash>, cutoff: nat, round: U64, list: seq<Vertex>): seq<Vertex> {
    if round >= cutoff then list else Uncommitted(hash, committed, list)
  }

  function RetainRounds(hash: Hasher, committed: set<VertexHash>, cutoff: nat, rounds: Rounds): Rounds {
    map r | r in rounds && RetainRound(hash, committed, cutoff, r, rounds[r]) != [] ::
      RetainRound(hash, committed, cutoff, r, rounds[r])
  }

  lemma RetainedRound(hash: Hasher, s: Store, cutoff: nat, round: U64, list: seq<Vertex>)
    requires RoundOk(hash, s.live, round, list)
    requires RetainRound(hash, s.committed, cutoff, round, list) != []
    ensures RoundOk(hash, Collect(s, cutoff).live, round, RetainRound(hash, s.committed, cutoff, round, list))
  {
    var kept := RetainRound(hash, s.committed, cutoff, round, list);
    if round < cutoff {
      UncommittedDistinct(hash, s.committed, list);
    }
    forall v | v in kept ensures v.round == round && hash(v) !in Collected(s, cutoff) {
      assert v in list;
    }
  }

  lemma RetainKeepsView(hash: Hasher, s: Store, rounds: Rounds, cutoff: nat)
    requires RoundsView(hash, s.live, rounds) && Keyed(hash, s.live)
    ensures RoundsView(hash, Collect(s, cutoff).live, RetainRounds(hash, s.committed, cutoff, rounds))
  {
    var after, less := Collect(s, cutoff).live, RetainRounds(hash, s.committed, cutoff, rounds);
    forall r | r in less ensures RoundOk(hash, after, r, less[r]) {
      RetainedRound(hash, s, cutoff, r, rounds[r]);
    }
    forall h | h in after ensures Listed(less, after[h]) {
      var v := s.live[h];
      assert Listed(rounds, v);
      assert v in RetainRound(hash, s.committed, cutoff, v.round, rounds[v.round]);
    }
  }

  /** The hashes that survive are read back from the round store. */
  lemma SurvivorsAreLive(hash: Hasher, live: map<VertexHash, Vertex>, rounds: Rounds)
    requires RoundsView(hash, live, rounds) && Keyed(hash, live)
    ensures Survivors(hash, rounds) == live.Keys
  {
    forall h | h in live ensures exists r, v :: r in rounds && v in rounds[r] && hash(v) == h {
      assert Listed(rounds, live[h]);
    }
    forall r, v | r in rounds && v in rounds[r] ensures hash(v) in live {
      assert RoundOk(hash, live, r, rounds[r]);
    }
  }

  /** The entries of a table whose key survives. */
  ghost predicate Restricted<V>(kept: map<VertexHash, V>, table: map<VertexHash, V>, survivors: set<VertexHash>) {
    kept.Keys == table.Keys * survivors && forall h | h in kept :: kept[h] == table[h]
  }

  lemma DropStep<V>(
    kept: map<VertexHash, V>, table: map<VertexHash, V>, left: set<VertexHash>, survivors: set<VertexHash>, h: VertexHash)
    requires h in left && h !in survivors && Restricted(kept, table, survivors - left)
    ensures Restricted(kept, table, survivors - (left - {h}))
  {
    assert survivors - (left - {h}) == survivors - left;
  }

  lemma KeepStep<V>(
    kept: map<VertexHash, V>, table: map<VertexHash, V>, left: set<VertexHash>, survivors: set<VertexHash>, h: VertexHash)
    requires left <= table.Keys && h in left && h in survivors && Restricted(kept, table, survivors - left)
    ensures Restricted(kept[h := table[h]], table, survivors - (left - {h}))
    ensures |kept[h := table[h]].Keys| == |kept.Keys| + 1
  {
    assert survivors - (left - {h}) == (survivors - left) + {h};
    assert kept[h := table[h]].Keys == kept.Keys + {h};
  }

  lemma RestrictedSize<V>(kept: map<VertexHash, V>, table: map<VertexHash, V>, survivors: set<VertexHash>)
    requires Restricted(kept, table, survivors)
    ensures |table.Keys| == |kept.Keys| + |table.Keys - survivors|
  {
    assert table.Keys == table.Keys * survivors + (table.Keys - survivors);
  }

  /** Keep the entries of a table whose key survives, counting the others. */
  method Retain<V>(table: map<VertexHash, V>, survivors: set<VertexHash>) returns (kept: map<VertexHash, V>, removed: nat)
    ensures Restricted(kept, table, survivors)
    ensures removed == |table.Keys - survivors|
  {
    kept, removed := map[], 0;
    var left := table.Keys;
    while left != {}
      invariant left <= table.Keys
      invariant Restricted(kept, table, survivors - left)
      invariant removed + |kept.Keys| + |left| == |table.Keys|
      decreases |left|
    {
      var h :| h in left;
      if h in survivors {
        KeepStep(kept, table, left, survivors, h);
        kept := kept[h := table[h]];
      } else {
        DropStep(kept, table, left, survivors, h);
        removed := removed + 1;
      }
      left := left - {h};
    }
    assert survivors - left == survivors;
    RestrictedSize(kept, table, survivors);
  }

  // ---------------------------------------------------------------- the tables

  datatype Tables = Tables(vertices: Rounds, index: map<VertexHash, U64>, edges: map<VertexHash, seq<VertexHash>>)

  /** The three tables describe the same vertices, and committed vertices keep their quorum. */
  ghost predicate Describes(hash: Hasher, config: ConsensusConfig, t: Tables, s: Store) {
    && t.index == IndexView(s.live)
    && t.edges == EdgesView(s.live)
    && RoundsView(hash, s.live, t.vertices)
    && StoreOk(hash, config, s)
  }

  function Inserted(hash: Hasher, t: Tables, v: Vertex): Tables {
    Tables(Push(t.vertices, v), t.index[hash(v) := v.round], t.edges[hash(v) := v.parents])
  }

  lemma InsertViews(live: map<VertexHash, Vertex>, h: VertexHash, v: Vertex)
    ensures IndexView(live[h := v]) == IndexView(live)[h := v.round]
    ensures EdgesView(live[h := v]) == EdgesView(live)[h := v.parents]
  {
  }

  lemma InsertDescribes(hash: Hasher, config: ConsensusConfig, t: Tables, s: Store, v: Vertex)
    requires Describes(hash, config, t, s) && Admits(hash, s, v)
    ensures Describes(hash, config, Inserted(hash, t, v), Add(hash, s, v))
  {
    InsertViews(s.live, hash(v), v);
    PushKeepsView(hash, s.live, t.vertices, v);
    AddKeepsOk(hash, config, s, v);
  }

  lemma RestrictedViews(s: Store, cutoff: nat, index: map<VertexHash, U64>, edges: map<VertexHash, seq<VertexHash>>)
    requires Restricted(index, IndexView(s.live), Collect(s, cutoff).live.Keys)
    requires Restricted(edges, EdgesView(s.live), Collect(s, cutoff).live.Keys)
    ensures index == IndexView(Collect(s, cutoff).live) && edges == EdgesView(Collect(s, cutoff).live)
  {
    var after := Collect(s, cutoff).live;
    assert index.Keys == after.Keys && edges.Keys == after.Keys;
    forall h | h in after ensures index[h] == after[h].round && edges[h] == after[h].parents {
      assert IndexView(s.live)[h] == s.live[h].round && EdgesView(s.live)[h] == s.live[h].parents;
    }
  }

  lemma RemovedKeys(s: Store, cutoff: nat)
    ensures IndexView(s.live).Keys - Collect(s, cutoff).live.Keys == Collected(s, cutoff)
    ensures Collect(s, cutoff).committed == set h | h in s.committed && h !in Collected(s, cutoff)
  {
  }

  lemma CommittedSurvivors(hash: Hasher, config: ConsensusConfig, s: Store, cutoff: nat)
    requires StoreOk(hash, config, s)
    ensures s.committed * Collect(s, cutoff).live.Keys == Collect(s, cutoff).committed
  {
    forall h | h in s.committed ensures h in s.live {
    }
  }

  lemma CollectDescribes(hash: Hasher, config: ConsensusConfig, t: Tables, s: Store, cutoff: nat, after: Tables)
    requires Describes(hash, config, t, s)
    requires after.vertices == RetainRounds(hash, s.committed, cutoff, t.vertices)
    requires Restricted(after.index, t.index, Collect(s, cutoff).live.Keys)
    requires Restricted(after.edges, t.edges, Collect(s, cutoff).live.Keys)
    ensures Describes(hash, config, after, Collect(s, cutoff))
  {
    RetainKeepsView(hash, s, t.vertices, cutoff);
    CollectKeepsOk(hash, config, s, cutoff);
    RestrictedViews(s, cutoff, after.index, after.edges);
  }

  lemma CommitDescribes(hash: Hasher, config: ConsensusConfig, t: Tables, s: Store, h: VertexHash)
    requires Describes(hash, config, t, s)
    ensures Describes(hash, config, t, Commit(config, s, h))
  {
  }

  // ---------------------------------------------------------------- queries

  method FindMissing(index: map<VertexHash, U64>, parents: seq<VertexHash>) returns (missing: Option<VertexHash>)
    ensures missing == FirstMissing(index.Keys, parents)
  {
    for i := 0 to |parents|
      invariant FirstMissing(index.Keys, parents) == FirstMissing(index.Keys, parents[i..])
    {
      if parents[i] !in index {
        return Some(parents[i]);
      }
      assert parents[i..][1..] == parents[i + 1..];
    }
    return None;
  }

  method CheckVertex(hash: Hasher, index: map<VertexHash, U64>, v: Vertex, ghost s: Store)
    returns (r: Result<VertexHash, DagError>)
    requires index.Keys == s.live.Keys
    ensures r == Admission(hash, s, v)
  {
    if v.round == 0 {
      return Err(RoundZero);
    }
    if hash(v) in index {
      return Ok(hash(v));
    }
    if v.round > 1 {
      if v.parents == [] {
        return Err(NoParents);
      }
      var missing := FindMissing(index, v.parents);
      if missing.Some? {
        return Err(MissingParent(missing.value));
      }
    }
    return Ok(hash(v));
  }

  function Insertion(hash: Hasher, t: Tables, s: Store, v: Vertex): Tables {
    if Admits(hash, s, v) then Inserted(hash, t, v) else t
  }

  method AddToTables(hash: Hasher, ghost config: ConsensusConfig, t: Tables, v: Vertex, ghost s: Store)
    returns (after: Tables, r: Result<VertexHash, DagError>)
    requires Describes(hash, config, t, s)
    ensures after == Insertion(hash, t, s, v) && r == Admission(hash, s, v)
    ensures Describes(hash, config, after, Add(hash, s, v))
  {
    r := CheckVertex(hash, t.index, v, s);
    if r.Err? || hash(v) in t.index {
      return t, r;
    }
    InsertDescribes(hash, config, t, s, v);
    after := Tables(Push(t.vertices, v), t.index[hash(v) := v.round], t.edges[hash(v) := v.parents]);
  }

  ghost function Naming(list: seq<Vertex>, h: VertexHash): set<Address> {
    set v | v in list && h in v.parents :: v.author
  }

  method AuthorsNaming(list: seq<Vertex>, h: VertexHash) returns (authors: set<Address>)
    ensures authors == Naming(list, h)
  {
    authors := {};
    for i := 0 to |list|
      invariant authors == Naming(list[..i], h)
    {
      assert list[..i + 1] == list[..i] + [list[i]];
      if h in list[i].parents {
        authors := authors + {list[i].author};
      }
    }
    assert list[..|list|] == list;
  }

  lemma NoSupport(hash: Hasher, live: map<VertexHash, Vertex>, rounds: Rounds, h: VertexHash)
    requires RoundsView(hash, live, rounds)
    requires h !in live || live[h].round == U64_MAX || live[h].round + 1 !in rounds
    ensures Supporters(live, h) == {}
  {
    if h in live {
      forall g | g in live ensures !Supports(live[g], h, live[h].round) {
        assert Listed(rounds, live[g]);
      }
    }
  }

  lemma ListedSupport(hash: Hasher, live: map<VertexHash, Vertex>, rounds: Rounds, h: VertexHash)
    requires RoundsView(hash, live, rounds)
    requires h in live && live[h].round < U64_MAX && live[h].round + 1 in rounds
    ensures Supporters(live, h) == Naming(rounds[live[h].round + 1], h)
  {
    var list := rounds[live[h].round + 1];
    assert RoundOk(hash, live, live[h].round + 1, list);
    forall g | g in live && Supports(live[g], h, live[h].round) ensures live[g].author in Naming(list, h) {
      assert Listed(rounds, live[g]);
    }
    forall v | v in list && h in v.parents ensures v.author in Supporters(live, h) {
      assert Supports(live[hash(v)], h, live[h].round);
    }
  }

  method CountSupport(hash: Hasher, vertices: Rounds, index: map<VertexHash, U64>, h: VertexHash, ghost live: map<VertexHash, Vertex>)
    returns (support: nat)
    requires index == IndexView(live) && RoundsView(hash, live, vertices)
    ensures support == |Supporters(live, h)|
  {
    if h !in index || index[h] == U64_MAX || index[h] + 1 !in vertices {
      NoSupport(hash, live, vertices, h);
      return 0;
    }
    ListedSupport(hash, live, vertices, h);
    var authors := AuthorsNaming(vertices[index[h] + 1], h);
    return |authors|;
  }

  lemma LatestListed(hash: Hasher, live: map<VertexHash, Vertex>, rounds: Rounds, round: U64)
    requires RoundsView(hash, live, rounds) && Keyed(hash, live)
    requires forall r | r in rounds :: r <= round
    requires round == 0 || round in rounds
    ensures round == Latest(live)
  {
    forall h | h in live ensures 1 <= live[h].round <= round {
      assert Listed(rounds, live[h]);
    }
    if round in rounds {
      assert RoundOk(hash, live, round, rounds[round]);
      var v := rounds[round][0];
      assert v in rounds[round] && hash(v) in live;
    }
    assert IsLatest(live, round);
  }

  /** The largest key is the newest round because no round is empty. */
  method LatestRound(hash: Hasher, vertices: Rounds, ghost live: map<VertexHash, Vertex>) returns (round: U64)
    requires RoundsView(hash, live, vertices) && Keyed(hash, live)
    ensures round == Latest(live)
  {
    round := 0;
    var left := vertices.Keys;
    while left != {}
      invariant left <= vertices.Keys
      invariant forall r | r in vertices && r !in left :: r <= round
      invariant round == 0 || round in vertices
      decreases |left|
    {
      var r :| r in left;
      if r > round {
        round := r;
      }
      left := left - {r};
    }
    LatestListed(hash, live, vertices, round);
  }

  function Survivors(hash: Hasher, rounds: Rounds): set<VertexHash> {
    set r, v | r in rounds && v in rounds[r] :: hash(v)
  }

  lemma SweepSurvivors(hash: Hasher, config: ConsensusConfig, t: Tables, s: Store, cutoff: nat)
    requires Describes(hash, config, t, s)
    ensures Survivors(hash, RetainRounds(hash, s.committed, cutoff, t.vertices)) == Collect(s, cutoff).live.Keys
  {
    RetainKeepsView(hash, s, t.vertices, cutoff);
    CollectKeepsOk(hash, config, s, cutoff);
    SurvivorsAreLive(hash, Collect(s, cutoff).live, RetainRounds(hash, s.committed, cutoff, t.vertices));
  }

  lemma SweepCorrect(
    hash: Hasher, config: ConsensusConfig, t: Tables, s: Store, cutoff: nat,
    kept: Rounds, index: map<VertexHash, U64>, edges: map<VertexHash, seq<VertexHash>>)
    requires Describes(hash, config, t, s)
    requires kept == RetainRounds(hash, s.committed, cutoff, t.vertices)
    requires Restricted(index, t.index, Survivors(hash, kept))
    requires Restricted(edges, t.edges, Survivors(hash, kept))
    ensures Describes(hash, config, Tables(kept, index, edges), Collect(s, cutoff))
  {
    SweepSurvivors(hash, config, t, s, cutoff);
    CollectDescribes(hash, config, t, s, cutoff, Tables(kept, index, edges));
  }

  lemma SweepCounts(hash: Hasher, config: ConsensusConfig, t: Tables, s: Store, cutoff: nat)
    requires Describes(hash, config, t, s)
    ensures var survivors := Survivors(hash, RetainRounds(hash, s.committed, cutoff, t.vertices));
            && t.index.Keys - survivors == Collected(s, cutoff)
            && s.committed * survivors == Collect(s, cutoff).committed
  {
    SweepSurvivors(hash, config, t, s, cutoff);
    RemovedKeys(s, cutoff);
    CommittedSurvivors(hash, config, s, cutoff);
  }

  /** Drop what garbage collection removes from the round store, then from the other tables. */
  method Sweep(hash: Hasher, ghost config: ConsensusConfig, t: Tables, committed: set<VertexHash>, cutoff: nat, ghost s: Store)
    returns (after: Tables, less: set<VertexHash>, removed: nat)
    requires Describes(hash, config, t, s) && committed == s.committed
    ensures Describes(hash, config, after, Collect(s, cutoff))
    ensures after.vertices == RetainRounds(hash, committed, cutoff, t.vertices)
    ensures less == Collect(s, cutoff).committed
    ensures removed == |Collected(s, cutoff)|
  {
    SweepCounts(hash, config, t, s, cutoff);
    var kept := RetainRounds(hash, committed, cutoff, t.vertices);
    var survivors := Survivors(hash, kept);
    var index, count := Retain(t.index, survivors);
    var edges, unused := Retain(t.edges, survivors);
    SweepCorrect(hash, config, t, s, cutoff, kept, index, edges);
    after, less, removed := Tables(kept, index, edges), committed * survivors, count;
  }

  // ---------------------------------------------------------------- the object

  class DAG {
    const config: ConsensusConfig
    const hash: Hasher
    var vertices: Rounds
    var index: map<VertexHash, U64>
    var edges: map<VertexHash, seq<VertexHash>>
    var committed: set<VertexHash>
    ghost var live: map<VertexHash, Vertex>

    ghost function View(): Store
      reads this
    {
      Store(live, committed)
    }

    ghost function Fields(): Tables
      reads this
    {
      Tables(vertices, index, edges)
    }

    ghost predicate Valid()
      reads this
    {
      Describes(hash, config, Fields(), View())
    }

    constructor (config: ConsensusConfig, hash: Hasher)
      ensures Valid() && View() == EMPTY && this.config == config && this.hash == hash
    {
      this.config := config;
      this.hash := hash;
      vertices, index, edges, committed, live := map[], map[], map[], {}, map[];
    }

    /** Admits a vertex past round 1 only with parents it already holds; a repeat changes nothing. */
    method AddVertex(v: Vertex) returns (r: Result<VertexHash, DagError>)
      requires Valid()
      modifies this
      ensures Valid()
      ensures View() == Add(hash, old(View()), v) && r == Admission(hash, old(View()), v)
      ensures Fields() == Insertion(hash, old(Fields()), old(View()), v)
    {
      var tables;
      ghost var after := Add(hash, View(), v);
      tables, r := AddToTables(hash, config, Tables(vertices, index, edges), v, View());
      vertices, index, edges := tables.vertices, tables.index, tables.edges;
      live := after.live;
    }

    /** Counts the distinct next-round authors that name the vertex as a parent. */
    method SupportFor(h: VertexHash) returns (support: nat)
      requires Valid()
      ensures support == |Supporters(live, h)|
    {
      support := CountSupport(hash, vertices, index, h, live);
    }

    /** Commits a known vertex with quorum support, and nothing else. */
    method MarkCommitted(h: VertexHash) returns (r: Result<(), DagError>)
      requires Valid()
      modifies this`committed
      ensures Valid() && View() == Commit(config, old(View()), h)
      ensures r == if h !in live then Err(UnknownVertex(h))
                   else if !HasQuorum(config, live, h) then Err(TooFewSupporters(|Supporters(live, h)|, config.quorumThreshold))
                   else Ok(())
    {
      if h !in index {
        return Err(UnknownVertex(h));
      }
      var support := SupportFor(h);
      if support < config.quorumThreshold {
        return Err(TooFewSupporters(support, config.quorumThreshold));
      }
      CommitDescribes(hash, config, Fields(), View(), h);
      committed := committed + {h};
      return Ok(());
    }

    /** Removes exactly the committed vertices below the cutoff and returns their number. */
    method Gc(keepRounds: U64) returns (removed: nat)
      requires Valid()
      modifies this
      ensures Valid()
      ensures View() == Collect(old(View()), SaturatingSub(Latest(old(live)), keepRounds))
      ensures removed == |Collected(old(View()), SaturatingSub(Latest(old(live)), keepRounds))|
      ensures vertices == RetainRounds(hash, old(committed), SaturatingSub(Latest(old(live)), keepRounds), old(vertices))
    {
      var latest := LatestRound(hash, vertices, live);
      var cutoff := SaturatingSub(latest, keepRounds);
      ghost var after := Collect(View(), cutoff);
      var tables, less, count := Sweep(hash, config, Tables(vertices, index, edges), committed, cutoff, View());
      vertices, index, edges := tables.vertices, tables.index, tables.edges;
      committed := less;
      live := after.live;
      removed := count;
    }
  }
}
