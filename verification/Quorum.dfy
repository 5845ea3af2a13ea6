/** Quorum sizing, quorum certificates and the HotStuff lock. */
module Quorum {
  import opened Prelude
  import opened Core

  // ---------------------------------------------------------------- sizing

  datatype ConsensusConfig = ConsensusConfig(validatorCount: nat, quorumThreshold: nat, maxFaulty: nat)

  function NewConfig(validatorCount: nat): Option<ConsensusConfig> {
    if validatorCount == 0 then None else
      var maxFaulty := (validatorCount - 1) / 3;
      Some(ConsensusConfig(validatorCount, 2 * maxFaulty + 1, maxFaulty))
  }

  function Interval(lo: nat, hi: nat): (r: set<nat>)
    ensures forall i :: i in r <==> lo <= i < hi
    ensures |r| == if lo <= hi then hi - lo else 0
    decreases hi
  {
    if lo < hi then Interval(lo, hi - 1) + {hi - 1} else {}
  }

  /** Two sets drawn from `universe` share at least as many members as their sizes exceed it. */
  lemma OverlapBound<T>(a: set<T>, b: set<T>, universe: set<T>)
    requires a <= universe && b <= universe
    ensures |a * b| >= |a| + |b| - |universe|
  {
    SubsetSize(a + b, universe);
  }

  predicate IsQuorum(n: nat, members: set<nat>)
    requires n > 0
  {
    members <= Interval(0, n) && |members| >= NewConfig(n).value.quorumThreshold
  }

  /** Any two quorums share more members than may be faulty, so at least one honest one. */
  ghost predicate QuorumsOverlap(n: nat)
    requires n > 0
  {
    forall a, b | IsQuorum(n, a) && IsQuorum(n, b) :: |a * b| > NewConfig(n).value.maxFaulty
  }

  lemma ExactCountOverlaps(n: nat, a: set<nat>, b: set<nat>)
    requires n % 3 == 1 && IsQuorum(n, a) && IsQuorum(n, b)
    ensures |a * b| > NewConfig(n).value.maxFaulty
  {
    OverlapBound(a, b, Interval(0, n));
  }

  /** The lowest and the highest `q` of `n` members share only the middle. */
  lemma EndsMeet(n: nat, q: nat)
    requires q <= n
    ensures |Interval(0, q) * Interval(n - q, n)| == if n <= 2 * q then 2 * q - n else 0
  {
    assert Interval(0, q) * Interval(n - q, n) == Interval(n - q, q);
  }

  lemma ThresholdArithmetic(n: nat)
    requires n > 0
    ensures NewConfig(n).value.quorumThreshold <= n
    ensures n % 3 != 1 ==> 2 * NewConfig(n).value.quorumThreshold - n <= NewConfig(n).value.maxFaulty
  {
    var f := NewConfig(n).value.maxFaulty;
    assert 3 * f + 1 <= n <= 3 * f + 3;
  }

  lemma EndsAreQuorums(n: nat, q: nat)
    requires n > 0 && q == NewConfig(n).value.quorumThreshold <= n
    ensures IsQuorum(n, Interval(0, q)) && IsQuorum(n, Interval(n - q, n))
  {
    assert Interval(0, q) <= Interval(0, n);
    assert Interval(n - q, n) <= Interval(0, n);
  }

  lemma OtherCountsFail(n: nat) returns (a: set<nat>, b: set<nat>)
    requires n > 0 && n % 3 != 1
    ensures IsQuorum(n, a) && IsQuorum(n, b) && |a * b| <= NewConfig(n).value.maxFaulty
  {
    var q := NewConfig(n).value.quorumThreshold;
    ThresholdArithmetic(n);
    EndsAreQuorums(n, q);
    EndsMeet(n, q);
    a, b := Interval(0, q), Interval(n - q, n);
  }

  /** The quorum rule gives that overlap exactly for validator counts of the form 3f + 1. */
  lemma OverlapIffExactCount(n: nat)
    requires n > 0
    ensures QuorumsOverlap(n) <==> n % 3 == 1
  {
    if n % 3 == 1 {
      forall a, b | IsQuorum(n, a) && IsQuorum(n, b) ensures |a * b| > NewConfig(n).value.maxFaulty {
        ExactCountOverlaps(n, a, b);
      }
    } else {
      var a, b := OtherCountsFail(n);
    }
  }

  // ---------------------------------------------------------------- the signed payload

  type Digest = s: seq<Byte> | |s| == 32 witness seq(32, _ => 0)

  const QC_TAG: seq<Byte> := [0x73, 0x75, 0x62, 0x68, 0x6F, 0x73, 0x74, 0x2D, 0x71, 0x63, 0x2D, 0x76, 0x31]

  function BigEndian(v: nat, width: nat): (bytes: seq<Byte>)
    ensures |bytes| == width
  {
    if width == 0 then [] else BigEndian(v / 256, width - 1) + [v % 256]
  }

  function Pow256(n: nat): nat {
    if n == 0 then 1 else 256 * Pow256(n - 1)
  }

  lemma {:induction false} BigEndianInjective(v: nat, w: nat, width: nat)
    requires v < Pow256(width) && w < Pow256(width)
    requires BigEndian(v, width) == BigEndian(w, width)
    ensures v == w
  {
    if width > 0 {
      var a, b := BigEndian(v, width), BigEndian(w, width);
      assert a[..width - 1] == BigEndian(v / 256, width - 1);
      assert b[..width - 1] == BigEndian(w / 256, width - 1);
      assert a[width - 1] == v % 256 && b[width - 1] == w % 256;
      BigEndianInjective(v / 256, w / 256, width - 1);
    }
  }

  function PayloadFor(view: U64, blockHash: Digest): seq<Byte> {
    QC_TAG + BigEndian(view, 8) + blockHash
  }

  /** A signature over one view and block cannot stand for another. */
  lemma PayloadInjective(v: U64, g: Digest, w: U64, h: Digest)
    requires PayloadFor(v, g) == PayloadFor(w, h)
    ensures v == w && g == h
  {
    var a, b := PayloadFor(v, g), PayloadFor(w, h);
    assert a[|QC_TAG|..|QC_TAG| + 8] == BigEndian(v, 8) && b[|QC_TAG|..|QC_TAG| + 8] == BigEndian(w, 8);
    assert a[|QC_TAG| + 8..] == g && b[|QC_TAG| + 8..] == h;
    assert Pow256(8) == U64_MAX + 1 by {
      assert Pow256(4) == 0x1_0000_0000;
      assert Pow256(8) == 256 * (256 * (256 * (256 * Pow256(4))));
    }
    BigEndianInjective(v, w, 8);
  }

  // ---------------------------------------------------------------- certificates

  const BLS_SIGNATURE_BYTES: nat := 96

  type PublicKey = nat

  /** Signature verification, which this model leaves abstract. */
  datatype Scheme = Scheme(
    decodes: seq<Byte> -> bool,
    verifies: (PublicKey, seq<Byte>, seq<Byte>) -> bool,
    possesses: (PublicKey, seq<Byte>) -> bool)

  datatype QuorumCertificate = QuorumCertificate(view: U64, blockHash: Digest, signatures: seq<(Address, seq<Byte>)>)
  {
    function Payload(): seq<Byte> {
      PayloadFor(view, blockHash)
    }
  }

  datatype ConsensusError =
    | InvalidProofOfPossession(address: Address)
    | DuplicateValidator(address: Address)
    | EmptyValidatorRegistry
    | MalformedSignature(address: Address)
    | UnknownValidator(address: Address)
    | InvalidSignature(address: Address)
    | DuplicateSigner(address: Address)
    | InsufficientSupport(have: nat, need: nat)
    | ViewOverflow

  function Signers(qc: QuorumCertificate): set<Address> {
    set i | 0 <= i < |qc.signatures| :: qc.signatures[i].0
  }

  /** The pair at position `i` is a decodable signature by a registered validator over the payload. */
  predicate SignatureOk(keys: map<Address, PublicKey>, scheme: Scheme, qc: QuorumCertificate, i: nat)
    requires i < |qc.signatures|
  {
    var (address, bytes) := qc.signatures[i];
    && |bytes| == BLS_SIGNATURE_BYTES
    && address in keys
    && scheme.decodes(bytes)
    && scheme.verifies(keys[address], qc.Payload(), bytes)
  }

  ghost predicate DistinctSigners(signatures: seq<(Address, seq<Byte>)>) {
    forall i, j | 0 <= i < j < |signatures| :: signatures[i].0 != signatures[j].0
  }

  ghost predicate QcValid(config: ConsensusConfig, keys: map<Address, PublicKey>, scheme: Scheme, qc: QuorumCertificate) {
    && keys != map[]
    && (forall i | 0 <= i < |qc.signatures| :: SignatureOk(keys, scheme, qc, i))
    && DistinctSigners(qc.signatures)
    && config.quorumThreshold <= |qc.signatures|
  }

  /** What is wrong with the pair at position `i`, in the order the checks are made. */
  ghost function Fault(keys: map<Address, PublicKey>, scheme: Scheme, qc: QuorumCertificate, i: nat): Option<ConsensusError>
    requires i < |qc.signatures|
  {
    var (address, bytes) := qc.signatures[i];
    if |bytes| != BLS_SIGNATURE_BYTES then Some(MalformedSignature(address))
    else if address !in keys then Some(UnknownValidator(address))
    else if !scheme.decodes(bytes) then Some(MalformedSignature(address))
    else if !scheme.verifies(keys[address], qc.Payload(), bytes) then Some(InvalidSignature(address))
    else if exists j :: 0 <= j < i && qc.signatures[j].0 == address then Some(DuplicateSigner(address))
    else None
  }

  ghost predicate FaultFree(keys: map<Address, PublicKey>, scheme: Scheme, qc: QuorumCertificate, n: nat)
    requires n <= |qc.signatures|
  {
    forall j | 0 <= j < n :: Fault(keys, scheme, qc, j).None?
  }

  lemma ValidIffFaultFree(config: ConsensusConfig, keys: map<Address, PublicKey>, scheme: Scheme, qc: QuorumCertificate)
    ensures QcValid(config, keys, scheme, qc) <==>
              keys != map[] && FaultFree(keys, scheme, qc, |qc.signatures|) && config.quorumThreshold <= |qc.signatures|
  {
    var n := |qc.signatures|;
    if FaultFree(keys, scheme, qc, n) {
      forall i | 0 <= i < n ensures SignatureOk(keys, scheme, qc, i) {
        assert Fault(keys, scheme, qc, i).None?;
      }
      forall i, j | 0 <= i < j < n ensures qc.signatures[i].0 != qc.signatures[j].0 {
        assert Fault(keys, scheme, qc, j).None?;
      }
    }
    if QcValid(config, keys, scheme, qc) {
      forall j | 0 <= j < n ensures Fault(keys, scheme, qc, j).None? {
        assert SignatureOk(keys, scheme, qc, j);
      }
    }
  }

  /**
   Accepts a certificate exactly when enough distinct registered validators signed its payload;
   otherwise reports the first fault in signature order, a short count only when there is none.
   */
  method ValidateQc(config: ConsensusConfig, keys: map<Address, PublicKey>, scheme: Scheme, qc: QuorumCertificate)
    returns (r: Result<(), ConsensusError>)
    ensures r.Ok? <==> QcValid(config, keys, scheme, qc)
    ensures r.Err? ==>
      || (keys == map[] && r.error == EmptyValidatorRegistry)
      || (exists i :: 0 <= i < |qc.signatures| && Fault(keys, scheme, qc, i) == Some(r.error) && FaultFree(keys, scheme, qc, i))
      || (FaultFree(keys, scheme, qc, |qc.signatures|)
          && r.error == InsufficientSupport(|qc.signatures|, config.quorumThreshold))
  {
    ValidIffFaultFree(config, keys, scheme, qc);
    if keys == map[] {
      return Err(EmptyValidatorRegistry);
    }
    var payload := qc.Payload();
    var verified: set<Address> := {};
    for i := 0 to |qc.signatures|
      invariant FaultFree(keys, scheme, qc, i)
      invariant forall a :: a in verified <==> exists j :: 0 <= j < i && qc.signatures[j].0 == a
      invariant |verified| == i
    {
      var (address, bytes) := qc.signatures[i];
      ghost var fault := Fault(keys, scheme, qc, i);
      if |bytes| != BLS_SIGNATURE_BYTES {
        return Err(MalformedSignature(address));
      }
      if address !in keys {
        return Err(UnknownValidator(address));
      }
      if !scheme.decodes(bytes) {
        return Err(MalformedSignature(address));
      }
      if !scheme.verifies(keys[address], payload, bytes) {
        return Err(InvalidSignature(address));
      }
      if address in verified {
        return Err(DuplicateSigner(address));
      }
      verified := verified + {address};
    }
    if |verified| < config.quorumThreshold {
      return Err(InsufficientSupport(|verified|, config.quorumThreshold));
    }
    return Ok(());
  }

  lemma SignerCount(qc: QuorumCertificate)
    requires DistinctSigners(qc.signatures)
    ensures |Signers(qc)| == |qc.signatures|
  {
    CountPrefix(qc, |qc.signatures|);
    assert Signers(qc) == set i | 0 <= i < |qc.signatures| :: qc.signatures[i].0;
  }

  lemma {:induction false} CountPrefix(qc: QuorumCertificate, n: nat)
    requires n <= |qc.signatures| && DistinctSigners(qc.signatures)
    ensures |set i | 0 <= i < n :: qc.signatures[i].0| == n
  {
    var s := set i | 0 <= i < n :: qc.signatures[i].0;
    if n > 0 {
      CountPrefix(qc, n - 1);
      var t := set i | 0 <= i < n - 1 :: qc.signatures[i].0;
      assert s == t + {qc.signatures[n - 1].0};
    }
  }

  /** `a` is registered and has a valid signature in the certificate. */
  ghost predicate Signed(keys: map<Address, PublicKey>, scheme: Scheme, qc: QuorumCertificate, a: Address) {
    a in keys && exists bytes :: scheme.verifies(keys[a], qc.Payload(), bytes)
  }

  lemma SignersSigned(config: ConsensusConfig, keys: map<Address, PublicKey>, scheme: Scheme, qc: QuorumCertificate, a: Address)
    requires QcValid(config, keys, scheme, qc) && a in Signers(qc)
    ensures Signed(keys, scheme, qc, a)
  {
    var i :| 0 <= i < |qc.signatures| && qc.signatures[i].0 == a;
    assert SignatureOk(keys, scheme, qc, i);
    assert scheme.verifies(keys[a], qc.Payload(), qc.signatures[i].1);
  }

  /**
   Two accepted certificates for different blocks of one view share at least twice the threshold
   less the registry size in signers, each of whom signed two different payloads; with 3f + 1
   registered validators that is more than can be faulty.
   */
  lemma ConflictExposesSigners(
    config: ConsensusConfig, keys: map<Address, PublicKey>, scheme: Scheme, p: QuorumCertificate, q: QuorumCertificate)
    requires QcValid(config, keys, scheme, p) && QcValid(config, keys, scheme, q)
    requires p.view == q.view && p.blockHash != q.blockHash
    ensures p.Payload() != q.Payload()
    ensures |Signers(p) * Signers(q)| >= 2 * config.quorumThreshold - |keys|
    ensures forall a | a in Signers(p) * Signers(q) :: Signed(keys, scheme, p, a) && Signed(keys, scheme, q, a)
    ensures NewConfig(|keys|) == Some(config) && |keys| == 3 * config.maxFaulty + 1 ==>
              |Signers(p) * Signers(q)| >= config.maxFaulty + 1
  {
    if p.Payload() == q.Payload() {
      PayloadInjective(p.view, p.blockHash, q.view, q.blockHash);
    }
    forall a | a in Signers(p) ensures Signed(keys, scheme, p, a) {
      SignersSigned(config, keys, scheme, p, a);
    }
    forall a | a in Signers(q) ensures Signed(keys, scheme, q, a) {
      SignersSigned(config, keys, scheme, q, a);
    }
    SignerCount(p);
    SignerCount(q);
    OverlapBound(Signers(p), Signers(q), keys.Keys);
  }

  /** No validator outside `faulty` signed both certificates when they sign different payloads. */
  ghost predicate HonestSignOnce(
    keys: map<Address, PublicKey>, scheme: Scheme, faulty: set<Address>, p: QuorumCertificate, q: QuorumCertificate)
  {
    forall a | a in keys && a !in faulty && Signed(keys, scheme, p, a) && Signed(keys, scheme, q, a) ::
      p.Payload() == q.Payload()
  }

  /** Conflicting certificates share a signer that is not faulty. */
  lemma CommonHonestSigner(
    config: ConsensusConfig, keys: map<Address, PublicKey>, scheme: Scheme, faulty: set<Address>,
    p: QuorumCertificate, q: QuorumCertificate) returns (a: Address)
    requires NewConfig(|keys|) == Some(config) && |keys| % 3 == 1 && |faulty| <= config.maxFaulty
    requires QcValid(config, keys, scheme, p) && QcValid(config, keys, scheme, q)
    requires p.view == q.view && p.blockHash != q.blockHash
    ensures a in keys && a !in faulty && Signed(keys, scheme, p, a) && Signed(keys, scheme, q, a)
    ensures p.Payload() != q.Payload()
  {
    ConflictExposesSigners(config, keys, scheme, p, q);
    var both := Signers(p) * Signers(q);
    assert !(both <= faulty) by {
      if both <= faulty {
        SubsetSize(both, faulty);
      }
    }
    a :| a in both && a !in faulty;
  }

  /** With 3f + 1 registered validators of which at most f misbehave, a view certifies one block. */
  lemma OneBlockPerView(
    config: ConsensusConfig, keys: map<Address, PublicKey>, scheme: Scheme, faulty: set<Address>,
    p: QuorumCertificate, q: QuorumCertificate)
    requires NewConfig(|keys|) == Some(config) && |keys| % 3 == 1
    requires |faulty| <= config.maxFaulty && HonestSignOnce(keys, scheme, faulty, p, q)
    requires QcValid(config, keys, scheme, p) && QcValid(config, keys, scheme, q)
    requires p.view == q.view
    ensures p.blockHash == q.blockHash
  {
    if p.blockHash != q.blockHash {
      var a := CommonHonestSigner(config, keys, scheme, faulty, p, q);
    }
  }

  // ---------------------------------------------------------------- the registry

  class ValidatorRegistry {
    var keys: map<Address, PublicKey>

    constructor ()
      ensures keys == map[]
    {
      keys := map[];
    }

    /**
     Registers a key with a proof of possession. The key is stored before the duplicate is
     reported, so an error leaves the registry as it was unless it names a duplicate under a
     different key.
     */
    method Register(address: Address, publicKey: PublicKey, proof: seq<Byte>, scheme: Scheme)
      returns (r: Result<(), ConsensusError>)
      modifies this
      ensures !scheme.possesses(publicKey, proof) ==> r == Err(InvalidProofOfPossession(address)) && keys == old(keys)
      ensures scheme.possesses(publicKey, proof) ==>
        && keys == old(keys)[address := publicKey]
        && r == if address in old(keys) then Err(DuplicateValidator(address)) else Ok(())
      ensures r.Err? ==>
        (keys == old(keys) <==> !(r.error.DuplicateValidator? && old(keys)[address] != publicKey))
    {
      if !scheme.possesses(publicKey, proof) {
        return Err(InvalidProofOfPossession(address));
      }
      var present := address in keys;
      keys := keys[address := publicKey];
      if present {
        assert keys[address] == publicKey;
        return Err(DuplicateValidator(address));
      }
      return Ok(());
    }
  }

  // ---------------------------------------------------------------- the lock

  datatype Replica = Replica(view: U64, highQc: Option<QuorumCertificate>, lockedView: U64)

  const NEW_REPLICA := Replica(0, None, 0)

  datatype Event = NextView | Certificate(qc: QuorumCertificate)

  ghost function Adopt(config: ConsensusConfig, keys: map<Address, PublicKey>, scheme: Scheme, r: Replica, qc: QuorumCertificate)
    : Replica
  {
    if !QcValid(config, keys, scheme, qc) || (r.highQc.Some? && qc.view <= r.highQc.value.view) then r
    else Replica(if r.view < qc.view then qc.view else r.view, Some(qc), qc.view)
  }

  ghost function React(config: ConsensusConfig, keys: map<Address, PublicKey>, scheme: Scheme, r: Replica, e: Event): Replica {
    match e
    case NextView => if r.view == U64_MAX then r else r.(view := r.view + 1)
    case Certificate(qc) => Adopt(config, keys, scheme, r, qc)
  }

  ghost function Reacted(config: ConsensusConfig, keys: map<Address, PublicKey>, scheme: Scheme, r: Replica, events: seq<Event>): Replica {
    if events == [] then r else
      React(config, keys, scheme, Reacted(config, keys, scheme, r, events[..|events| - 1]), events[|events| - 1])
  }

  predicate IsSafeProposal(r: Replica, view: U64) {
    view > r.lockedView || r.highQc.None?
  }

  ghost predicate ReplicaOk(config: ConsensusConfig, keys: map<Address, PublicKey>, scheme: Scheme, r: Replica) {
    && (r.highQc.None? ==> r.lockedView == 0)
    && (r.highQc.Some? ==> r.lockedView == r.highQc.value.view && QcValid(config, keys, scheme, r.highQc.value))
    && r.lockedView <= r.view
  }

  /** What later states may differ in: views, lock and the certificate only move forward. */
  ghost predicate Forward(a: Replica, b: Replica) {
    && a.view <= b.view && a.lockedView <= b.lockedView
    && (a.highQc.Some? ==> b.highQc.Some? && a.highQc.value.view <= b.highQc.value.view)
  }

  lemma {:induction false} ReactedForward(config: ConsensusConfig, keys: map<Address, PublicKey>, scheme: Scheme, r: Replica, events: seq<Event>)
    requires ReplicaOk(config, keys, scheme, r)
    ensures ReplicaOk(config, keys, scheme, Reacted(config, keys, scheme, r, events))
    ensures Forward(r, Reacted(config, keys, scheme, r, events))
  {
    if events != [] {
      ReactedForward(config, keys, scheme, r, events[..|events| - 1]);
    }
  }

  /** Once a valid certificate has been seen, no later state accepts a proposal at or below its view. */
  lemma LockIsFinal(
    config: ConsensusConfig, keys: map<Address, PublicKey>, scheme: Scheme,
    before: seq<Event>, qc: QuorumCertificate, after: seq<Event>, view: U64)
    requires QcValid(config, keys, scheme, qc) && view <= qc.view
    ensures var seen := React(config, keys, scheme, Reacted(config, keys, scheme, NEW_REPLICA, before), Certificate(qc));
            !IsSafeProposal(Reacted(config, keys, scheme, seen, after), view)
  {
    ReactedForward(config, keys, scheme, NEW_REPLICA, before);
    var seen := React(config, keys, scheme, Reacted(config, keys, scheme, NEW_REPLICA, before), Certificate(qc));
    ReactedForward(config, keys, scheme, seen, after);
  }

  class HotStuff {
    const config: ConsensusConfig
    const keys: map<Address, PublicKey>
    const scheme: Scheme
    var view: U64
    var highQc: Option<QuorumCertificate>
    var lockedView: U64

    function View(): Replica
      reads this
    {
      Replica(view, highQc, lockedView)
    }

    constructor (config: ConsensusConfig, keys: map<Address, PublicKey>, scheme: Scheme)
      ensures View() == NEW_REPLICA && this.config == config && this.keys == keys
    {
      this.config := config;
      this.keys := keys;
      this.scheme := scheme;
      view := 0;
      highQc := None;
      lockedView := 0;
    }

    method EnterNextView() returns (r: Result<U64, ConsensusError>)
      modifies this`view
      ensures View() == React(config, keys, scheme, old(View()), NextView)
      ensures r == if old(view) == U64_MAX then Err(ViewOverflow) else Ok(view)
      ensures r.Ok? ==> view == old(view) + 1
    {
      if view == U64_MAX {
        return Err(ViewOverflow);
      }
      view := view + 1;
      return Ok(view);
    }

    /** Adopts a certificate if it is valid and newer, and locks its view. */
    method UpdateHighQc(qc: QuorumCertificate) returns (r: Result<bool, ConsensusError>)
      modifies this
      ensures View() == React(config, keys, scheme, old(View()), Certificate(qc))
      ensures r.Err? <==> !QcValid(config, keys, scheme, qc)
      ensures r.Ok? ==> (r.value <==> old(highQc).None? || old(highQc).value.view < qc.view)
      ensures r.Ok? && r.value ==>
        highQc == Some(qc) && lockedView == qc.view && view == (if old(view) < qc.view then qc.view else old(view))
      ensures r.Err? || !r.value ==> View() == old(View())
    {
      var valid := ValidateQc(config, keys, scheme, qc);
      if valid.Err? {
        return Err(valid.error);
      }
      if highQc.Some? && qc.view <= highQc.value.view {
        return Ok(false);
      }
      lockedView := qc.view;
      view := if view < qc.view then qc.view else view;
      highQc := Some(qc);
      return Ok(true);
    }
  }

  // ---------------------------------------------------------------- exactly which proposals are safe

  /** A valid certificate among the events has this view or a higher one. */
  ghost predicate Certified(config: ConsensusConfig, keys: map<Address, PublicKey>, scheme: Scheme, events: seq<Event>, view: U64) {
    exists i | 0 <= i < |events| ::
      events[i].Certificate? && QcValid(config, keys, scheme, events[i].qc) && events[i].qc.view >= view
  }

  lemma CertifiedSnoc(
    config: ConsensusConfig, keys: map<Address, PublicKey>, scheme: Scheme, events: seq<Event>, view: U64)
    requires events != []
    ensures var front, last := events[..|events| - 1], events[|events| - 1];
            Certified(config, keys, scheme, events, view) <==>
              || Certified(config, keys, scheme, front, view)
              || (last.Certificate? && QcValid(config, keys, scheme, last.qc) && last.qc.view >= view)
  {
    var front := events[..|events| - 1];
    assert forall i | 0 <= i < |front| :: front[i] == events[i];
  }

  /** In every run a proposal is safe exactly when its view is above every valid certificate seen. */
  lemma {:induction false} SafeIffAboveAll(
    config: ConsensusConfig, keys: map<Address, PublicKey>, scheme: Scheme, events: seq<Event>, view: U64)
    ensures IsSafeProposal(Reacted(config, keys, scheme, NEW_REPLICA, events), view) <==>
              !Certified(config, keys, scheme, events, view)
  {
    if events != [] {
      var front := events[..|events| - 1];
      SafeIffAboveAll(config, keys, scheme, front, view);
      CertifiedSnoc(config, keys, scheme, events, view);
      ReactedForward(config, keys, scheme, NEW_REPLICA, front);
    }
  }
}
