/** Validators, delegations and slashing, and the balance law they keep. */
module Staking {
  import opened Prelude
  import opened Core
  import opened Sums

  const MIN_VALIDATOR_STAKE: nat := 10_000_000
  const MAX_COMMISSION_BPS: nat := 10_000

  datatype Uptime = Finite(fraction: real) | NotFinite

  datatype Validator = Validator(address: Address, publicKey: seq<Byte>, stake: U128, commissionBps: U64, uptime: Uptime)

  datatype Delegation = Delegation(delegator: Address, validator: Address, amount: U128, rewards: U128)

  datatype SlashingType = DoubleSign | Downtime | MaliciousBehavior

  datatype Evidence = Evidence(validator: Address, evidenceType: SlashingType, height: U64, proof: seq<Byte>)

  datatype StakingError =
    | StakeTooLow(provided: U128)
    | MissingPublicKey(address: Address)
    | InvalidCommission(bps: U64)
    | InvalidUptime(uptime: Uptime)
    | DuplicateValidator(address: Address)
    | UnknownValidator(address: Address)
    | UnknownDelegation(delegator: Address, validator: Address)
    | InsufficientDelegation(have: U128, want: U128)
    | ZeroAmount
    | StakeOverflow(address: Address)
    | MissingProof(address: Address)

  type Key = (Address, Address)

  datatype Book = Book(
    validators: map<Address, Validator>, delegations: map<Key, Delegation>, slashings: seq<Evidence>)

  const EMPTY := Book(map[], map[], [])

  // ---------------------------------------------------------------- the operations on values

  function Fault(v: Validator): Option<StakingError> {
    if v.stake < MIN_VALIDATOR_STAKE then Some(StakeTooLow(v.stake))
    else if v.publicKey == [] then Some(MissingPublicKey(v.address))
    else if v.commissionBps > MAX_COMMISSION_BPS then Some(InvalidCommission(v.commissionBps))
    else if v.uptime.NotFinite? || v.uptime.fraction < 0.0 || v.uptime.fraction > 1.0 then Some(InvalidUptime(v.uptime))
    else None
  }

  function AddValidator(book: Book, v: Validator): (Book, Result<(), StakingError>) {
    if Fault(v).Some? then (book, Err(Fault(v).value))
    else if v.address in book.validators then (book, Err(DuplicateValidator(v.address)))
    else (book.(validators := book.validators[v.address := v]), Ok(()))
  }

  function AmountAt(book: Book, k: Key): U128 {
    if k in book.delegations then book.delegations[k].amount else 0
  }

  function WithStake(book: Book, a: Address, stake: U128): Book
    requires a in book.validators
  {
    book.(validators := book.validators[a := book.validators[a].(stake := stake)])
  }

  function DelegateFault(book: Book, delegator: Address, a: Address, amount: U128): Option<StakingError> {
    if amount == 0 then Some(ZeroAmount)
    else if a !in book.validators then Some(UnknownValidator(a))
    else if book.validators[a].stake + amount > U128_MAX then Some(StakeOverflow(a))
    else if AmountAt(book, (delegator, a)) + amount > U128_MAX then Some(StakeOverflow(a))
    else None
  }

  function Delegated(book: Book, delegator: Address, a: Address, amount: U128): Book
    requires DelegateFault(book, delegator, a, amount).None?
  {
    var k := (delegator, a);
    var entry := if k in book.delegations then book.delegations[k] else Delegation(delegator, a, 0, 0);
    WithStake(book, a, book.validators[a].stake + amount)
    .(delegations := book.delegations[k := entry.(amount := entry.amount + amount)])
  }

  function Delegate(book: Book, delegator: Address, a: Address, amount: U128): (Book, Result<U128, StakingError>) {
    var fault := DelegateFault(book, delegator, a, amount);
    if fault.Some? then (book, Err(fault.value))
    else (Delegated(book, delegator, a, amount), Ok(AmountAt(book, (delegator, a)) + amount))
  }

  function SaturatingSub(a: U128, b: U128): U128 {
    if a < b then 0 else a - b
  }

  function UndelegateFault(book: Book, delegator: Address, a: Address, amount: U128): Option<StakingError> {
    var k := (delegator, a);
    if amount == 0 then Some(ZeroAmount)
    else if k !in book.delegations then Some(UnknownDelegation(delegator, a))
    else if book.delegations[k].amount < amount then Some(InsufficientDelegation(book.delegations[k].amount, amount))
    else None
  }

  function LessDelegated(book: Book, k: Key, amount: U128): map<Key, Delegation>
    requires k in book.delegations && amount <= book.delegations[k].amount
  {
    var entry := book.delegations[k];
    if entry.amount == amount && entry.rewards == 0 then book.delegations - {k}
    else book.delegations[k := entry.(amount := entry.amount - amount)]
  }

  function Undelegated(book: Book, delegator: Address, a: Address, amount: U128): Book
    requires UndelegateFault(book, delegator, a, amount).None?
  {
    var less := book.(delegations := LessDelegated(book, (delegator, a), amount));
    if a in book.validators then WithStake(less, a, SaturatingSub(book.validators[a].stake, amount)) else less
  }

  function Undelegate(book: Book, delegator: Address, a: Address, amount: U128): (Book, Result<U128, StakingError>) {
    var fault := UndelegateFault(book, delegator, a, amount);
    if fault.Some? then (book, Err(fault.value))
    else (Undelegated(book, delegator, a, amount), Ok(book.delegations[(delegator, a)].amount - amount))
  }

  function Penalty(offence: SlashingType, stake: U128): U128 {
    match offence
    case DoubleSign => stake
    case Downtime => stake / 100
    case MaliciousBehavior => stake / 2
  }

  function Without(book: Book, a: Address): Book {
    book.(validators := book.validators - {a},
          delegations := map k | k in book.delegations && k.1 != a :: book.delegations[k])
  }

  function Punished(book: Book, a: Address, penalty: U128): Book
    requires a in book.validators
  {
    if penalty == 0 then book
    else if book.validators[a].stake <= penalty then Without(book, a)
    else WithStake(book, a, book.validators[a].stake - penalty)
  }

  function Slash(book: Book, e: Evidence): (Book, Result<U128, StakingError>) {
    if e.validator !in book.validators then (book, Err(UnknownValidator(e.validator)))
    else if e.proof == [] then (book, Err(MissingProof(e.validator)))
    else
      var penalty := Penalty(e.evidenceType, book.validators[e.validator].stake);
      (Punished(book, e.validator, penalty).(slashings := book.slashings + [e]), Ok(penalty))
  }

  // ---------------------------------------------------------------- runs, with what was paid in and taken out

  datatype Event =
    | Registering(v: Validator)
    | Delegating(delegator: Address, a: Address, amount: U128)
    | Undelegating(delegator: Address, a: Address, amount: U128)
    | Slashing(e: Evidence)

  function Step(book: Book, e: Event): Book {
    match e
    case Registering(v) => AddValidator(book, v).0
    case Delegating(delegator, a, amount) => Delegate(book, delegator, a, amount).0
    case Undelegating(delegator, a, amount) => Undelegate(book, delegator, a, amount).0
    case Slashing(evidence) => Slash(book, evidence).0
  }

  function Run(book: Book, events: seq<Event>): Book {
    if events == [] then book else Step(Run(book, events[..|events| - 1]), events[|events| - 1])
  }

  /**
   What happened to a validator since it registered: its own stake, the penalties taken, and how
   far undelegations went beyond the stake that was left.
   */
  datatype Tally = Tally(own: nat, burned: nat, shortfall: nat)

  function Tallied(book: Book, tallies: map<Address, Tally>, e: Event): map<Address, Tally> {
    match e
    case Registering(v) =>
      if AddValidator(book, v).1.Ok? then tallies[v.address := Tally(v.stake, 0, 0)] else tallies
    case Delegating(_, _, _) => tallies
    case Undelegating(delegator, a, amount) =>
      if UndelegateFault(book, delegator, a, amount).None? && a in book.validators && a in tallies then
        var over := if book.validators[a].stake < amount then amount - book.validators[a].stake else 0;
        tallies[a := tallies[a].(shortfall := tallies[a].shortfall + over)]
      else tallies
    case Slashing(evidence) =>
      var a := evidence.validator;
      if Slash(book, evidence).1.Ok? && a in tallies then
        tallies[a := tallies[a].(burned := tallies[a].burned + Slash(book, evidence).1.value)]
      else tallies
  }

  function Tallies(events: seq<Event>): map<Address, Tally> {
    if events == [] then map[] else
      var earlier, e := events[..|events| - 1], events[|events| - 1];
      Tallied(Run(EMPTY, earlier), Tallies(earlier), e)
  }

  // ---------------------------------------------------------------- the book stays well formed

  ghost predicate DelegationOk(book: Book, k: Key)
    requires k in book.delegations
  {
    var d := book.delegations[k];
    d.delegator == k.0 && d.validator == k.1 && d.amount > 0 && d.rewards == 0 && k.1 in book.validators
  }

  /** Every delegation is positive and points to a registered validator. */
  ghost predicate BookOk(book: Book) {
    && (forall a | a in book.validators :: book.validators[a].address == a)
    && (forall k | k in book.delegations :: DelegationOk(book, k))
  }

  lemma StepKeepsBook(book: Book, e: Event)
    requires BookOk(book)
    ensures BookOk(Step(book, e))
  {
    match e {
      case Registering(v) =>
      case Delegating(delegator, a, amount) =>
      case Undelegating(delegator, a, amount) =>
      case Slashing(evidence) =>
    }
  }

  lemma {:induction false} RunKeepsBook(events: seq<Event>)
    ensures BookOk(Run(EMPTY, events))
  {
    if events != [] {
      RunKeepsBook(events[..|events| - 1]);
      StepKeepsBook(Run(EMPTY, events[..|events| - 1]), events[|events| - 1]);
    }
  }

  // ---------------------------------------------------------------- the balance law

  function AmountsTo(delegations: map<Key, Delegation>, a: Address): map<Key, nat> {
    map k | k in delegations && k.1 == a :: delegations[k].amount
  }

  ghost function TotalTo(delegations: map<Key, Delegation>, a: Address): nat {
    Sum(AmountsTo(delegations, a))
  }

  lemma TotalAfterSet(delegations: map<Key, Delegation>, k: Key, d: Delegation, a: Address)
    ensures TotalTo(delegations[k := d], a) ==
              if k.1 == a then TotalTo(delegations, a) + d.amount - (if k in delegations then delegations[k].amount else 0)
              else TotalTo(delegations, a)
  {
    var before, after := AmountsTo(delegations, a), AmountsTo(delegations[k := d], a);
    if k.1 == a {
      assert after == before[k := d.amount];
      SumUpdate(before, k, d.amount);
    } else {
      assert after == before;
    }
  }

  lemma TotalAfterRemove(delegations: map<Key, Delegation>, k: Key, a: Address)
    requires k in delegations
    ensures TotalTo(delegations - {k}, a) == TotalTo(delegations, a) - if k.1 == a then delegations[k].amount else 0
  {
    var before, after := AmountsTo(delegations, a), AmountsTo(delegations - {k}, a);
    if k.1 == a {
      assert after == before - {k};
      SumRemove(before, k);
    } else {
      assert after == before;
    }
  }

  lemma TotalAfterBurn(delegations: map<Key, Delegation>, gone: Address, a: Address)
    requires a != gone
    ensures TotalTo(map k | k in delegations && k.1 != gone :: delegations[k], a) == TotalTo(delegations, a)
  {
    assert AmountsTo(map k | k in delegations && k.1 != gone :: delegations[k], a) == AmountsTo(delegations, a);
  }

  /** Stake and penalties balance own stake, delegations and shortfall. */
  ghost predicate Balanced(book: Book, tallies: map<Address, Tally>, a: Address) {
    a in book.validators ==>
      && a in tallies
      && tallies[a].own >= MIN_VALIDATOR_STAKE
      && book.validators[a].stake + tallies[a].burned ==
           tallies[a].own + TotalTo(book.delegations, a) + tallies[a].shortfall
  }

  lemma NobodyDelegates(book: Book, a: Address)
    requires BookOk(book) && a !in book.validators
    ensures TotalTo(book.delegations, a) == 0
  {
    forall k | k in book.delegations ensures k.1 != a {
      assert DelegationOk(book, k);
    }
    assert AmountsTo(book.delegations, a) == map[];
  }

  lemma RegisterBalances(book: Book, tallies: map<Address, Tally>, v: Validator, a: Address)
    requires BookOk(book) && Balanced(book, tallies, a)
    ensures Balanced(AddValidator(book, v).0, Tallied(book, tallies, Registering(v)), a)
  {
    if a !in book.validators {
      NobodyDelegates(book, a);
    }
  }

  lemma DelegateBalances(book: Book, tallies: map<Address, Tally>, delegator: Address, b: Address, amount: U128, a: Address)
    requires Balanced(book, tallies, a)
    ensures Balanced(Delegate(book, delegator, b, amount).0, tallies, a)
  {
    var k := (delegator, b);
    if DelegateFault(book, delegator, b, amount).None? {
      var after := Delegated(book, delegator, b, amount).delegations;
      TotalAfterSet(book.delegations, k, after[k], a);
    }
  }

  lemma UndelegateTotal(book: Book, k: Key, amount: U128, a: Address)
    requires k in book.delegations && amount <= book.delegations[k].amount
    ensures TotalTo(LessDelegated(book, k, amount), a) == TotalTo(book.delegations, a) - if k.1 == a then amount else 0
  {
    var entry := book.delegations[k];
    if entry.amount == amount && entry.rewards == 0 {
      TotalAfterRemove(book.delegations, k, a);
    } else {
      TotalAfterSet(book.delegations, k, entry.(amount := entry.amount - amount), a);
    }
  }

  lemma UndelegateBalances(book: Book, tallies: map<Address, Tally>, delegator: Address, b: Address, amount: U128, a: Address)
    requires Balanced(book, tallies, a)
    ensures Balanced(Undelegate(book, delegator, b, amount).0, Tallied(book, tallies, Undelegating(delegator, b, amount)), a)
  {
    if UndelegateFault(book, delegator, b, amount).None? {
      UndelegateTotal(book, (delegator, b), amount, a);
    }
  }

  lemma SlashBalances(book: Book, tallies: map<Address, Tally>, e: Evidence, a: Address)
    requires Balanced(book, tallies, a)
    ensures Balanced(Slash(book, e).0, Tallied(book, tallies, Slashing(e)), a)
  {
    if a != e.validator {
      TotalAfterBurn(book.delegations, e.validator, a);
    }
  }

  /** In every run, for every registered validator. */
  lemma {:induction false} RunBalances(events: seq<Event>, a: Address)
    ensures Balanced(Run(EMPTY, events), Tallies(events), a)
  {
    if events != [] {
      var earlier, e := events[..|events| - 1], events[|events| - 1];
      RunBalances(earlier, a);
      var book, tallies := Run(EMPTY, earlier), Tallies(earlier);
      match e {
        case Registering(v) =>
          RunKeepsBook(earlier);
          RegisterBalances(book, tallies, v, a);
        case Delegating(delegator, b, amount) => DelegateBalances(book, tallies, delegator, b, amount, a);
        case Undelegating(delegator, b, amount) => UndelegateBalances(book, tallies, delegator, b, amount, a);
        case Slashing(evidence) => SlashBalances(book, tallies, evidence, a);
      }
    }
  }

  // ---------------------------------------------------------------- without slashing

  ghost predicate NoSlashing(events: seq<Event>) {
    forall i | 0 <= i < |events| :: !events[i].Slashing?
  }

  ghost predicate Untouched(tallies: map<Address, Tally>) {
    forall a | a in tallies :: tallies[a].burned == 0 && tallies[a].shortfall == 0
  }

  lemma AmountWithinTotal(delegations: map<Key, Delegation>, k: Key)
    requires k in delegations
    ensures delegations[k].amount <= TotalTo(delegations, k.1)
  {
    SumAtLeast(AmountsTo(delegations, k.1), k);
  }

  lemma UndelegationFits(book: Book, tallies: map<Address, Tally>, delegator: Address, a: Address, amount: U128)
    requires Balanced(book, tallies, a) && Untouched(tallies) && a in book.validators
    requires UndelegateFault(book, delegator, a, amount).None?
    ensures amount <= book.validators[a].stake
  {
    AmountWithinTotal(book.delegations, (delegator, a));
  }

  lemma {:induction false} NothingLost(events: seq<Event>)
    requires NoSlashing(events)
    ensures Untouched(Tallies(events))
  {
    if events != [] {
      var earlier, e := events[..|events| - 1], events[|events| - 1];
      NothingLost(earlier);
      assert !e.Slashing?;
      var book, tallies := Run(EMPTY, earlier), Tallies(earlier);
      if e.Undelegating? && UndelegateFault(book, e.delegator, e.a, e.amount).None? && e.a in book.validators {
        RunBalances(earlier, e.a);
        UndelegationFits(book, tallies, e.delegator, e.a, e.amount);
      }
    }
  }

  /** Without slashing, stake is own stake plus delegations and never falls below the minimum. */
  lemma StakeIsWhatWasPaid(events: seq<Event>, a: Address)
    requires NoSlashing(events) && a in Run(EMPTY, events).validators
    ensures var book := Run(EMPTY, events);
            && a in Tallies(events)
            && book.validators[a].stake == Tallies(events)[a].own + TotalTo(book.delegations, a)
            && book.validators[a].stake >= MIN_VALIDATOR_STAKE
  {
    NothingLost(events);
    RunBalances(events, a);
  }

  /** Without slashing, an accepted undelegation is paid in full. */
  lemma UndelegationNeverSaturates(events: seq<Event>, delegator: Address, a: Address, amount: U128)
    requires NoSlashing(events)
    requires UndelegateFault(Run(EMPTY, events), delegator, a, amount).None?
    ensures var book := Run(EMPTY, events);
            a in book.validators && amount <= book.validators[a].stake
  {
    NothingLost(events);
    RunBalances(events, a);
    RunKeepsBook(events);
    assert DelegationOk(Run(EMPTY, events), (delegator, a));
    UndelegationFits(Run(EMPTY, events), Tallies(events), delegator, a, amount);
  }

  // ---------------------------------------------------------------- slashing

  /** Only proven equivocation by a validator that still has stake ejects it. */
  lemma EjectedIff(book: Book, e: Event, a: Address)
    requires a in book.validators
    ensures a !in Step(book, e).validators <==>
              && e.Slashing? && e.e.validator == a && e.e.proof != []
              && e.e.evidenceType.DoubleSign? && book.validators[a].stake > 0
  {
  }

  /** A validator that is gone after a run was proven to have signed twice during it. */
  lemma {:induction false} EjectionNeedsDoubleSign(book: Book, events: seq<Event>, a: Address)
    requires a in book.validators && a !in Run(book, events).validators
    ensures exists i :: 0 <= i < |events| && events[i].Slashing? && events[i].e.validator == a
                        && events[i].e.evidenceType.DoubleSign? && events[i].e.proof != []
  {
    var earlier, e := events[..|events| - 1], events[|events| - 1];
    if a in Run(book, earlier).validators {
      EjectedIff(Run(book, earlier), e, a);
    } else {
      EjectionNeedsDoubleSign(book, earlier, a);
      var i :| 0 <= i < |earlier| && earlier[i].Slashing? && earlier[i].e.validator == a
               && earlier[i].e.evidenceType.DoubleSign? && earlier[i].e.proof != [];
      assert events[i] == earlier[i];
    }
  }

  /** Slashing and withdrawal can leave a registered validator with no stake, and then it stays. */
  lemma ZeroStakeStays(v: Validator, delegator: Address, proof: seq<Byte>)
    requires Fault(v).None? && v.stake == MIN_VALIDATOR_STAKE && proof != []
    ensures var a := v.address;
            var events := [
              Registering(v), Delegating(delegator, a, 30_000_000),
              Slashing(Evidence(a, MaliciousBehavior, 0, proof)), Undelegating(delegator, a, 30_000_000),
              Slashing(Evidence(a, DoubleSign, 0, proof))];
            a in Run(EMPTY, events).validators && Run(EMPTY, events).validators[a].stake == 0
  {
    var a := v.address;
    var e1, e2 := Registering(v), Delegating(delegator, a, 30_000_000);
    var e3, e4 := Slashing(Evidence(a, MaliciousBehavior, 0, proof)), Undelegating(delegator, a, 30_000_000);
    var e5 := Slashing(Evidence(a, DoubleSign, 0, proof));
    assert [e1][..0] == [] && [e1, e2][..1] == [e1] && [e1, e2, e3][..2] == [e1, e2];
    assert [e1, e2, e3, e4][..3] == [e1, e2, e3] && [e1, e2, e3, e4, e5][..4] == [e1, e2, e3, e4];
    assert Run(EMPTY, [e1]) == Book(map[a := v], map[], []);
    assert Run(EMPTY, [e1, e2]).validators[a].stake == 40_000_000;
    assert Run(EMPTY, [e1, e2, e3]).validators[a].stake == 20_000_000;
    assert Run(EMPTY, [e1, e2, e3, e4]).validators[a].stake == 0;
  }

  function Power(b: nat, k: nat): nat {
    if k == 0 then 1 else b * Power(b, k - 1)
  }

  /** Nothing is withdrawn from `a`, and it is slashed for downtime only. */
  predicate Spares(e: Event, a: Address) {
    && (e.Undelegating? ==> e.a != a)
    && (e.Slashing? && e.e.validator == a ==> e.e.evidenceType.Downtime?)
  }

  predicate IsDowntime(e: Event, a: Address) {
    e.Slashing? && e.e.validator == a
  }

  function DowntimeCount(events: seq<Event>, a: Address): nat {
    if events == [] then 0 else
      DowntimeCount(events[..|events| - 1], a) + if IsDowntime(events[|events| - 1], a) then 1 else 0
  }

  lemma SpareStep(book: Book, e: Event, a: Address)
    requires a in book.validators && Spares(e, a)
    ensures a in Step(book, e).validators
    ensures !IsDowntime(e, a) ==> Step(book, e).validators[a].stake >= book.validators[a].stake
    ensures 100 * Step(book, e).validators[a].stake >= 99 * book.validators[a].stake
  {
  }

  lemma ScaleDown(before: nat, after: nat, start: nat, p: nat, q: nat)
    requires 100 * after >= 99 * before && p * before >= q * start
    ensures (100 * p) * after >= (99 * q) * start
  {
    assert p * (100 * after) >= p * (99 * before);
    assert 99 * (p * before) >= 99 * (q * start);
  }

  lemma ScaleKept(before: nat, after: nat, start: nat, p: nat, q: nat)
    requires after >= before && p * before >= q * start
    ensures p * after >= q * start
  {
    assert p * after >= p * before;
  }

  /** After k downtime slashes at least (99/100)^k of the stake is left, unless stake is withdrawn or taken for worse. */
  lemma {:induction false} DowntimeIsGentle(book: Book, events: seq<Event>, a: Address)
    requires a in book.validators && forall i | 0 <= i < |events| :: Spares(events[i], a)
    ensures a in Run(book, events).validators
    ensures var k := DowntimeCount(events, a);
            Power(100, k) * Run(book, events).validators[a].stake >= Power(99, k) * book.validators[a].stake
  {
    if events != [] {
      var earlier, e := events[..|events| - 1], events[|events| - 1];
      assert Spares(e, a);
      DowntimeIsGentle(book, earlier, a);
      var middle := Run(book, earlier);
      SpareStep(middle, e, a);
      var k := DowntimeCount(earlier, a);
      var before, after, start := middle.validators[a].stake, Step(middle, e).validators[a].stake, book.validators[a].stake;
      if IsDowntime(e, a) {
        ScaleDown(before, after, start, Power(100, k), Power(99, k));
      } else {
        ScaleKept(before, after, start, Power(100, k), Power(99, k));
      }
    }
  }

  // ---------------------------------------------------------------- what each call takes and gives

  /** Exactly which validators can register, and that registration adds that one and nothing else. */
  lemma RegistersIff(book: Book, v: Validator)
    ensures AddValidator(book, v).1.Ok? <==>
              && v.stake >= 10_000_000 && v.publicKey != [] && v.commissionBps <= 10_000
              && v.uptime.Finite? && 0.0 <= v.uptime.fraction <= 1.0 && v.address !in book.validators
    ensures AddValidator(book, v).1.Err? ==> AddValidator(book, v).0 == book
    ensures AddValidator(book, v).1.Ok? ==> AddValidator(book, v).0 == book.(validators := book.validators[v.address := v])
  {
  }

  /** No validator but `a`, and no delegation but `k`, differs. */
  ghost predicate OnlyTouches(before: Book, after: Book, a: Address, k: Key) {
    && after.slashings == before.slashings
    && (forall b | b != a :: b in after.validators <==> b in before.validators)
    && (forall b | b != a && b in before.validators :: after.validators[b] == before.validators[b])
    && (forall j | j != k :: j in after.delegations <==> j in before.delegations)
    && (forall j | j != k && j in before.delegations :: after.delegations[j] == before.delegations[j])
  }

  /** Delegating adds the amount to one record and one stake. */
  lemma DelegateMoves(book: Book, delegator: Address, a: Address, amount: U128)
    ensures var (after, r) := Delegate(book, delegator, a, amount);
            && (r.Ok? <==>
                  && amount > 0 && a in book.validators && book.validators[a].stake + amount <= U128_MAX
                  && AmountAt(book, (delegator, a)) + amount <= U128_MAX)
            && (r.Err? ==> after == book)
            && (r.Ok? ==>
                  && a in after.validators && after.validators[a] == book.validators[a].(stake := book.validators[a].stake + amount)
                  && AmountAt(after, (delegator, a)) == AmountAt(book, (delegator, a)) + amount == r.value
                  && OnlyTouches(book, after, a, (delegator, a)))
  {
  }

  /** Undelegating takes the amount from one record and, as far as it goes, from one stake. */
  lemma UndelegateMoves(book: Book, delegator: Address, a: Address, amount: U128)
    requires BookOk(book)
    ensures var (after, r) := Undelegate(book, delegator, a, amount);
            && (r.Ok? <==> 0 < amount <= AmountAt(book, (delegator, a)))
            && (r.Err? ==> after == book)
            && (r.Ok? ==>
                  && a in book.validators && a in after.validators
                  && after.validators[a].stake
                       == (if amount <= book.validators[a].stake then book.validators[a].stake - amount else 0)
                  && AmountAt(after, (delegator, a)) == AmountAt(book, (delegator, a)) - amount == r.value
                  && ((delegator, a) in after.delegations <==> r.value > 0)
                  && OnlyTouches(book, after, a, (delegator, a)))
  {
    if (delegator, a) in book.delegations {
      assert DelegationOk(book, (delegator, a));
    }
  }

  /**
   What each offence costs: the whole stake, one hundredth or one half, rounded down. The evidence
   is kept, and nobody else's stake changes.
   */
  lemma SlashTakes(book: Book, e: Evidence)
    requires Slash(book, e).1.Ok?
    ensures e.validator in book.validators
    ensures var (after, r) := Slash(book, e);
            var stake := book.validators[e.validator].stake;
            && (e.evidenceType.DoubleSign? ==> r.value == stake)
            && (e.evidenceType.Downtime? ==> 100 * r.value <= stake < 100 * (r.value + 1))
            && (e.evidenceType.MaliciousBehavior? ==> 2 * r.value <= stake < 2 * (r.value + 1))
            && (e.validator in after.validators ==> after.validators[e.validator].stake == stake - r.value)
            && (e.validator !in after.validators ==> r.value == stake > 0)
            && after.slashings == book.slashings + [e]
            && (forall b | b != e.validator ::
                  && (b in after.validators <==> b in book.validators)
                  && (b in book.validators ==> after.validators[b] == book.validators[b]))
  {
  }
}
