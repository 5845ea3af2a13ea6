/** The staking registry as an object, and its two reads over all validators. */
module StakingBook {
  import opened Prelude
  import opened Core
  import opened Ordering
  import opened Quorum
  import opened Staking
  import opened Sums

  /** Higher stake first, then lower address. */
  predicate RanksBefore(x: Validator, y: Validator) {
    x.stake > y.stake || (x.stake == y.stake && x.address < y.address)
  }

  /** Stored validators have distinct addresses, so the ranking leaves no ties. */
  lemma RankingTotal(validators: map<Address, Validator>)
    requires forall a | a in validators :: validators[a].address == a
    ensures StrictTotalOn(validators.Values, RanksBefore)
  {
    forall x, y | x in validators.Values && y in validators.Values && x != y ensures RanksBefore(x, y) || RanksBefore(y, x) {
      assert x == validators[x.address] && y == validators[y.address];
    }
  }

  datatype ValidatorSet = ValidatorSet(validators: seq<Validator>, totalStake: U128, quorumThreshold: nat)

  function Stakes(validators: map<Address, Validator>): map<Address, nat> {
    map a | a in validators :: validators[a].stake
  }

  function Capped(n: nat): U128 {
    if n > U128_MAX then U128_MAX else n
  }

  function SaturatingAdd(a: U128, b: U128): U128 {
    Capped(a + b)
  }

  lemma SumSplit(m: map<Address, nat>, left: set<Address>, a: Address)
    requires a in left && left <= m.Keys
    ensures Sum(m - (left - {a})) == Sum(m - left) + m[a]
  {
    SumRemove(m - (left - {a}), a);
    assert m - (left - {a}) - {a} == m - left;
  }

  /** A saturating sum does not depend on the order in which the validators are visited. */
  method SumStakes(validators: map<Address, Validator>) returns (total: U128)
    ensures total == Capped(Sum(Stakes(validators)))
  {
    ghost var stakes := Stakes(validators);
    total := 0;
    var left := validators.Keys;
    assert stakes - left == map[];
    while left != {}
      invariant left <= validators.Keys
      invariant total == Capped(Sum(stakes - left))
      decreases |left|
    {
      var a :| a in left;
      SumSplit(stakes, left, a);
      total := SaturatingAdd(total, validators[a].stake);
      left := left - {a};
    }
    assert stakes - left == stakes;
  }

  class StakingModule {
    var validators: map<Address, Validator>
    var delegations: map<Key, Delegation>
    var slashings: seq<Evidence>

    function View(): Book
      reads this
    {
      Book(validators, delegations, slashings)
    }

    constructor ()
      ensures View() == EMPTY
    {
      validators, delegations, slashings := map[], map[], [];
    }

    method AddValidator(v: Validator) returns (r: Result<(), StakingError>)
      modifies this`validators
      ensures (View(), r) == Staking.AddValidator(old(View()), v)
    {
      if v.stake < MIN_VALIDATOR_STAKE {
        return Err(StakeTooLow(v.stake));
      }
      if v.publicKey == [] {
        return Err(MissingPublicKey(v.address));
      }
      if v.commissionBps > MAX_COMMISSION_BPS {
        return Err(InvalidCommission(v.commissionBps));
      }
      if v.uptime.NotFinite? || v.uptime.fraction < 0.0 || v.uptime.fraction > 1.0 {
        return Err(InvalidUptime(v.uptime));
      }
      if v.address in validators {
        return Err(StakingError.DuplicateValidator(v.address));
      }
      validators := validators[v.address := v];
      return Ok(());
    }

    /** Credits the delegation record and the stake together, or changes nothing. */
    method Delegate(delegator: Address, validator: Address, amount: U128) returns (r: Result<U128, StakingError>)
      modifies this`validators, this`delegations
      ensures (View(), r) == Staking.Delegate(old(View()), delegator, validator, amount)
      ensures r.Err? ==> View() == old(View())
    {
      if amount == 0 {
        return Err(ZeroAmount);
      }
      if validator !in validators {
        return Err(StakingError.UnknownValidator(validator));
      }
      var target := validators[validator];
      if target.stake + amount > U128_MAX {
        return Err(StakeOverflow(validator));
      }
      var newStake: U128 := target.stake + amount;
      var key := (delegator, validator);
      var entry := if key in delegations then delegations[key] else Delegation(delegator, validator, 0, 0);
      if entry.amount + amount > U128_MAX {
        return Err(StakeOverflow(validator));
      }
      var newAmount: U128 := entry.amount + amount;
      delegations := delegations[key := entry.(amount := newAmount)];
      validators := validators[validator := target.(stake := newStake)];
      return Ok(newAmount);
    }

    /** Takes the amount out of the delegation and, as far as it goes, out of the stake. */
    method Undelegate(delegator: Address, validator: Address, amount: U128) returns (r: Result<U128, StakingError>)
      modifies this`validators, this`delegations
      ensures (View(), r) == Staking.Undelegate(old(View()), delegator, validator, amount)
    {
      if amount == 0 {
        return Err(ZeroAmount);
      }
      var key := (delegator, validator);
      if key !in delegations {
        return Err(UnknownDelegation(delegator, validator));
      }
      var entry := delegations[key];
      if entry.amount < amount {
        return Err(InsufficientDelegation(entry.amount, amount));
      }
      var remaining: U128 := entry.amount - amount;
      if remaining == 0 && entry.rewards == 0 {
        delegations := delegations - {key};
      } else {
        delegations := delegations[key := entry.(amount := remaining)];
      }
      if validator in validators {
        var target := validators[validator];
        validators := validators[validator := target.(stake := SaturatingSub(target.stake, amount))];
      }
      return Ok(remaining);
    }

    /** Records the evidence and deducts the penalty; a fully burned validator goes with its delegations. */
    method Slash(evidence: Evidence) returns (r: Result<U128, StakingError>)
      modifies this
      ensures (View(), r) == Staking.Slash(old(View()), evidence)
    {
      var address := evidence.validator;
      if address !in validators {
        return Err(StakingError.UnknownValidator(address));
      }
      var stake := validators[address].stake;
      if evidence.proof == [] {
        return Err(MissingProof(address));
      }
      var penalty := Penalty(evidence.evidenceType, stake);
      slashings := slashings + [evidence];
      if penalty == 0 {
        return Ok(0);
      }
      if stake <= penalty {
        validators := validators - {address};
        delegations := map k | k in delegations && k.1 != address :: delegations[k];
      } else {
        validators := validators[address := validators[address].(stake := stake - penalty)];
      }
      return Ok(penalty);
    }

    /** The active set in its one deterministic order, with total stake and quorum size. */
    method GetValidatorSet() returns (active: ValidatorSet)
      requires BookOk(View())
      ensures active.validators == SortedSeq(validators.Values, RanksBefore)
      ensures Elements(active.validators) == validators.Values
      ensures forall i, j | 0 <= i < j < |active.validators| ::
                && active.validators[i].stake >= active.validators[j].stake
                && (active.validators[i].stake == active.validators[j].stake ==>
                      active.validators[i].address < active.validators[j].address)
      ensures active.totalStake == Capped(Sum(Stakes(validators)))
      ensures |active.validators| == |validators|
      ensures active.quorumThreshold == if validators == map[] then 0 else NewConfig(|validators|).value.quorumThreshold
    {
      RankingTotal(validators);
      var list := Sort(validators.Values, RanksBefore);
      ListedOnce(validators, list);
      var count := |list|;
      var total := SumStakes(validators);
      active := ValidatorSet(list, total, if count == 0 then 0 else 2 * ((count - 1) / 3) + 1);
    }
  }

  lemma ListedOnce(validators: map<Address, Validator>, list: seq<Validator>)
    requires forall a | a in validators :: validators[a].address == a
    requires Sorted(list, RanksBefore) && Elements(list) == validators.Values
    ensures |list| == |validators|
  {
    var addresses := set i | 0 <= i < |list| :: list[i].address;
    assert addresses == validators.Keys by {
      forall a | a in validators ensures a in addresses {
        assert validators[a] in Elements(list);
        var i :| 0 <= i < |list| && list[i] == validators[a];
      }
      forall i | 0 <= i < |list| ensures list[i].address in validators {
        assert list[i] in Elements(list);
      }
    }
    AddressesCounted(validators, list, |list|);
  }

  lemma {:induction false} AddressesCounted(validators: map<Address, Validator>, list: seq<Validator>, n: nat)
    requires forall a | a in validators :: validators[a].address == a
    requires Sorted(list, RanksBefore) && Elements(list) == validators.Values && n <= |list|
    ensures |set i | 0 <= i < n :: list[i].address| == n
  {
    if n > 0 {
      AddressesCounted(validators, list, n - 1);
      var fewer := set i | 0 <= i < n - 1 :: list[i].address;
      var last := list[n - 1];
      assert last in Elements(list);
      forall i | 0 <= i < n - 1 ensures list[i].address != last.address {
        assert list[i] in Elements(list) && RanksBefore(list[i], last);
      }
      assert (set i | 0 <= i < n :: list[i].address) == fewer + {last.address};
    }
  }
}
