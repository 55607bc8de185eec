// Gas of the three transfer functions: what is left and what goes with the
// output transfer is never more than what was provided.
module Gas {
  import opened Bytes

  const MAX64: nat := TWO64 - 1

  // computeDRWAReadGasCost: a multiplication that saturates.
  function ReadCost(perByte: nat, fallback: nat, count: nat): nat {
    var unit := if perByte == 0 then fallback else perByte;
    if count == 0 || unit == 0 then 0
    else if count > MAX64 / unit then MAX64
    else count * unit
  }

  lemma ReadCostSaturates(perByte: nat, fallback: nat, count: nat)
    ensures var product := count * if perByte == 0 then fallback else perByte;
            ReadCost(perByte, fallback, count) == if product > MAX64 then MAX64 else product
  {
    var unit := if perByte == 0 then fallback else perByte;
    if unit > 0 {
      Quotient(count, unit, MAX64 / unit, MAX64 % unit);
    }
  }

  lemma Quotient(count: nat, unit: nat, q: nat, rest: nat)
    requires rest < unit
    ensures count > q <==> count * unit > q * unit + rest
  {
    if count > q {
      assert count * unit == (q + 1) * unit + (count - q - 1) * unit;
    } else {
      assert q * unit == count * unit + (q - count) * unit;
    }
  }

  function SafeSub(a: nat, b: nat): nat {
    if a < b then 0 else a - b
  }

  function GasRemaining(senderHere: bool, provided: nat, used: nat, skip: bool): nat {
    if skip then provided else if provided < used || !senderHere then 0 else provided - used
  }

  datatype Outcome = Outcome(remaining: nat, limit: nat)

  function Total(o: Outcome): nat {
    o.remaining + o.limit
  }

  // An output transfer takes all the gas that is left.
  function Forward(remaining: nat, call: bool): Outcome {
    if call then Outcome(0, remaining) else Outcome(remaining, 0)
  }

  // ---- the sender's charge for the data it copies ----

  function Charges(lengths: seq<nat>, perByte: nat): nat {
    if |lengths| == 0 then 0 else Charges(lengths[..|lengths| - 1], perByte) + lengths[|lengths| - 1] * perByte
  }

  lemma {:induction false} ChargesPrefix(lengths: seq<nat>, k: nat, perByte: nat)
    requires k < |lengths|
    ensures Charges(lengths[..k], perByte) + lengths[k] * perByte == Charges(lengths[..k + 1], perByte) <= Charges(lengths, perByte)
  {
    assert lengths[..k + 1][..k] == lengths[..k];
    if k + 1 < |lengths| {
      ChargesPrefix(lengths[..|lengths| - 1], k, perByte);
      assert lengths[..|lengths| - 1][..k] == lengths[..k] && lengths[..|lengths| - 1][..k + 1] == lengths[..k + 1];
    } else {
      assert lengths[..k + 1] == lengths;
    }
  }

  // Charging item by item never takes more than there is; it succeeds exactly
  // when the whole charge is covered, as long as no product wraps.
  method ChargeAll(lengths: seq<nat>, perByte: nat, gas: nat, skip: bool) returns (r: Option<nat>)
    requires gas < TWO64
    ensures r.Some? ==> r.value <= gas
    ensures skip ==> r == Some(gas)
    ensures !skip && Charges(lengths, perByte) < TWO64 ==>
              r == if Charges(lengths, perByte) <= gas then Some(gas - Charges(lengths, perByte)) else None
  {
    var remaining: nat := gas;
    var i := 0;
    while i < |lengths|
      invariant 0 <= i <= |lengths| && remaining <= gas
      invariant skip ==> remaining == gas
      invariant !skip && Charges(lengths, perByte) < TWO64 ==> remaining == gas - Charges(lengths[..i], perByte)
    {
      ChargesPrefix(lengths, i, perByte);
      if !skip {
        var charge := Low64(lengths[i] * perByte);
        if charge > remaining {
          return None;
        }
        remaining := remaining - charge;
      }
      i := i + 1;
    }
    assert lengths[..i] == lengths;
    r := Some(remaining);
  }

  // ---- multi transfer ----

  // What the reads for the regulated tokens of a list cost.
  function Reads(regulated: seq<bool>, read: nat): nat {
    if |regulated| == 0 then 0
    else Reads(regulated[..|regulated| - 1], read) + if regulated[|regulated| - 1] then read else 0
  }

  lemma ReadsStep(regulated: seq<bool>, i: nat, read: nat)
    requires i < |regulated|
    ensures Reads(regulated[..i + 1], read) == Reads(regulated[..i], read) + if regulated[i] then read else 0
  {
    assert regulated[..i + 1][..i] == regulated[..i];
  }

  lemma {:induction false} ReadsPrefix(regulated: seq<bool>, i: nat, read: nat)
    requires i <= |regulated|
    ensures Reads(regulated[..i], read) <= Reads(regulated, read)
    decreases |regulated|
  {
    if i < |regulated| {
      assert regulated[..|regulated| - 1][..i] == regulated[..i];
      ReadsPrefix(regulated[..|regulated| - 1], i, read);
    } else {
      assert regulated[..i] == regulated;
    }
  }

  method AddReads(regulated: seq<bool>, read: nat, base: nat) returns (cost: nat)
    requires base < TWO64
    ensures cost < TWO64
    ensures base + Reads(regulated, read) < TWO64 ==> cost == base + Reads(regulated, read)
  {
    cost := base;
    var i := 0;
    while i < |regulated|
      invariant 0 <= i <= |regulated| && cost < TWO64
      invariant base + Reads(regulated, read) < TWO64 ==> cost == base + Reads(regulated[..i], read)
    {
      ReadsStep(regulated, i, read);
      ReadsPrefix(regulated, i + 1, read);
      if regulated[i] {
        cost := Low64(cost + read);
      }
      i := i + 1;
    }
    assert regulated[..i] == regulated;
  }

  datatype Costs = Costs(function_: nat, perByte: nat)

  function CountOf(regulated: seq<bool>): nat {
    multiset(regulated)[true]
  }

  // Each regulated token is charged its reads, and no other.
  lemma {:induction false} ReadsOfEach(regulated: seq<bool>, read: nat)
    ensures Reads(regulated, read) == CountOf(regulated) * read
  {
    if |regulated| > 0 {
      var n := |regulated| - 1;
      ReadsOfEach(regulated[..n], read);
      assert regulated == regulated[..n] + [regulated[n]];
      assert (CountOf(regulated[..n]) + 1) * read == CountOf(regulated[..n]) * read + read;
    }
  }

  // Two reads for the sender of each regulated token, policy and record, and
  // two more for a receiver in the shard.
  method MultiTransferOnSenderShard(provided: nat, costs: Costs, regulated: seq<bool>, receiverHere: bool,
                                    lengths: seq<nat>,
                                    callAfter: bool, skip: bool)
    returns (r: Option<Outcome>)
    requires provided < TWO64
    ensures r.Some? ==> Total(r.value) <= provided
    ensures var read := ReadCost(costs.perByte, costs.function_, if receiverHere then 2 + 2 else 2);
            var cost := |regulated| * costs.function_ + CountOf(regulated) * read;
            cost < TWO64 && Charges(lengths, costs.perByte) < TWO64 ==>
              var all := cost + Charges(lengths, costs.perByte);
              && (r.Some? <==> skip || all <= provided)
              && (r.Some? ==> Total(r.value) == if skip then provided else provided - all)
    ensures r.Some? ==> if callAfter then r.value.remaining == 0 else r.value.limit == 0
  {
    hide ReadCost, Charges, CountOf;
    ReadsOfEach(regulated, ReadCost(costs.perByte, costs.function_, if receiverHere then 4 else 2));
    var perToken := if receiverHere then 4 else 2;
    var cost := AddReads(regulated, ReadCost(costs.perByte, costs.function_, perToken), Low64(|regulated| * costs.function_));
    if provided < cost && !skip {
      return None;
    }
    var remaining := GasRemaining(true, provided, cost, skip);
    var charged := ChargeAll(lengths, costs.perByte, remaining, skip);
    if charged.None? {
      return None;
    }
    r := Some(Forward(charged.value, callAfter));
  }

  // The destination is charged for the reads only, and only under enforcement;
  // the pre-charge covers every token, so the subtraction cannot underflow.
  method MultiTransferOnDestinationShard(provided: nat, costs: Costs, regulated: seq<bool>, enforced: bool,
                                         callAfter: bool)
    returns (r: Option<Outcome>)
    requires provided < TWO64 && |regulated| * ReadCost(costs.perByte, costs.function_, 2) < TWO64
    ensures r.Some? <==> (enforced ==> |regulated| * ReadCost(costs.perByte, costs.function_, 2) <= provided)
    ensures r.Some? && enforced ==>
              Total(r.value) == provided - CountOf(regulated) * ReadCost(costs.perByte, costs.function_, 2)
    ensures !enforced ==> Total(r.value) == provided
    ensures r.Some? ==> if callAfter then r.value.remaining == 0 else r.value.limit == 0
  {
    hide ReadCost, CountOf;
    ReadsOfEach(regulated, ReadCost(costs.perByte, costs.function_, 2));
    var remaining: nat := provided;
    if enforced {
      var read := ReadCost(costs.perByte, costs.function_, 2);
      if provided < Low64(|regulated| * read) {
        return None;
      }
      ReadsAtMost(regulated, read);
      var cost := AddReads(regulated, read, 0);
      remaining := provided - cost;
    }
    r := Some(Forward(remaining, callAfter));
  }

  lemma {:induction false} ReadsAtMost(regulated: seq<bool>, read: nat)
    ensures Reads(regulated, read) <= |regulated| * read
  {
    if |regulated| > 0 {
      var n := |regulated| - 1;
      ReadsAtMost(regulated[..n], read);
      assert (n + 1) * read == n * read + read;
    }
  }

  // ---- single NFT ----

  function CheckedCost(costs: Costs, senderRead: bool, receiverRead: bool): nat {
    var read := ReadCost(costs.perByte, costs.function_, 2);
    costs.function_ + (if senderRead then read else 0) + (if receiverRead then read else 0)
  }

  // Costs that stay below 64 bits do not wrap.
  lemma ReadsFit(costs: Costs, senderRead: bool, receiverRead: bool)
    ensures var used := CheckedCost(costs, senderRead, receiverRead);
            used < TWO64 ==> forall n: nat :: n <= used ==> Low64(n) == n
    ensures forall count :: var most := costs.function_ + ReadCost(costs.perByte, costs.function_, count);
                            most < TWO64 ==> Low64(most) == most
  {
    hide ReadCost;
  }

  // The receiver's reads are added after the gas check: when they are not
  // covered nothing is left, and still no gas is made.
  method NftTransferOnSenderShard(provided: nat, costs: Costs, senderRegulated: bool, receiverRegulated: bool,
                                  enforced: bool,
                                  length: nat, callAfter: bool, skip: bool)
    returns (r: Option<Outcome>)
    requires provided < TWO64
    ensures r.Some? ==> Total(r.value) <= provided
    ensures var used := CheckedCost(costs, enforced && senderRegulated, enforced && receiverRegulated);
            var charge := length * costs.perByte;
            r.Some? && !skip && used < TWO64 && charge < TWO64 ==>
              Total(r.value) == if used <= provided then provided - used - charge else 0
    ensures r.Some? ==> if callAfter then r.value.remaining == 0 else r.value.limit == 0
    ensures var read, charge := ReadCost(costs.perByte, costs.function_, 2), length * costs.perByte;
            var sent := costs.function_ + if enforced && senderRegulated then read else 0;
            var used := sent + if enforced && receiverRegulated then read else 0;
            used < TWO64 && costs.function_ + read < TWO64 && charge < TWO64 ==>
              (r.Some? <==> skip || ((enforced ==> costs.function_ + read <= provided) && sent <= provided
                                     && charge <= if used <= provided then provided - used else 0))
  {
    hide ReadCost, Charges, Low64;
    ReadsFit(costs, enforced && senderRegulated, enforced && receiverRegulated);
    var read := ReadCost(costs.perByte, costs.function_, 2);
    var gasToUse := costs.function_;
    if enforced {
      if !skip && provided < Low64(gasToUse + read) {
        return None;
      }
      if senderRegulated {
        gasToUse := Low64(gasToUse + read);
      }
    }
    if provided < gasToUse && !skip {
      return None;
    }
    if enforced && receiverRegulated {
      gasToUse := Low64(gasToUse + read);
    }
    var remaining := GasRemaining(true, provided, gasToUse, skip);
    OneCharge(length, costs.perByte);
    var charged := ChargeAll([length], costs.perByte, remaining, skip);
    if charged.None? {
      return None;
    }
    r := Some(Forward(charged.value, callAfter));
  }

  lemma OneCharge(length: nat, perByte: nat)
    ensures Charges([length], perByte) == length * perByte
  {
    assert [length][..0] == [];
    assert Charges([length], perByte) == Charges([length][..0], perByte) + length * perByte;
  }

  method NftTransferOnDestinationShard(provided: nat, costs: Costs, enforced: bool,
                                       callAfter: bool) returns (r: Option<Outcome>)
    ensures r.Some? ==> Total(r.value) == provided
    ensures r.None? <==> enforced && provided < ReadCost(costs.perByte, costs.function_, 2)
    ensures r.Some? ==> if callAfter then r.value.remaining == 0 else r.value.limit == 0
  {
    if enforced && provided < ReadCost(costs.perByte, costs.function_, 2) {
      return None;
    }
    r := Some(Forward(provided, callAfter));
  }

  // ---- fungible transfer ----

  method EsdtTransfer(provided: nat, costs: Costs, enforced: bool, senderHere: bool, receiverHere: bool,
                      senderRegulated: bool, receiverRegulated: bool, callAfter: bool, callback: bool, callerIsContract: bool,
                      skip: bool)
    returns (r: Option<Outcome>)
    requires provided < TWO64
    ensures r.Some? ==> Total(r.value) <= provided
    ensures r.Some? ==> if (if receiverHere then callAfter else callerIsContract) then r.value.remaining == 0 else r.value.limit == 0
    ensures var used := CheckedCost(costs, enforced && senderHere && senderRegulated,
                                    enforced && receiverHere && receiverRegulated);
            r.Some? && used < TWO64 ==>
              && (senderHere && !skip ==> used <= provided)
              && Total(r.value) == if receiverHere && callAfter then (if used <= provided then provided - used else 0)
                                   else if skip || (receiverHere && callback && !senderHere) then provided
                                   else if senderHere then provided - used else 0
    ensures var used := CheckedCost(costs, enforced && senderHere && senderRegulated,
                                    enforced && receiverHere && receiverRegulated);
            var most := costs.function_ + ReadCost(costs.perByte, costs.function_, 4);
            used < TWO64 && most < TWO64 ==>
              (r.Some? <==> skip || ((enforced ==> most <= provided) && (senderHere ==> used <= provided)))
  {
    hide ReadCost, Low64;
    ReadsFit(costs, enforced && senderHere && senderRegulated, enforced && receiverHere && receiverRegulated);
    var read := ReadCost(costs.perByte, costs.function_, 2);
    var gasToUse := costs.function_;
    if enforced {
      if !skip && provided < Low64(gasToUse + ReadCost(costs.perByte, costs.function_, 4)) {
        return None;
      }
      if senderHere && senderRegulated {
        gasToUse := Low64(gasToUse + read);
      }
      if receiverHere && receiverRegulated {
        gasToUse := Low64(gasToUse + read);
      }
    }
    var remaining := GasRemaining(senderHere, provided, gasToUse, skip);
    if senderHere && provided < gasToUse && !skip {
      return None;
    }
    if receiverHere {
      if callAfter {
        return Some(Forward(SafeSub(provided, gasToUse), true));
      }
      if callback && !senderHere {
        remaining := provided;
      }
      return Some(Outcome(remaining, 0));
    }
    r := Some(Forward(remaining, callerIsContract));
  }
}
