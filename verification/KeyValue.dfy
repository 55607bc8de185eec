// Saving key-value pairs into an account's storage, with gas that depends on
// what earlier pairs of the same call already wrote.
module KeyValue {
  import opened Bytes

  // "ELROND"
  const PROTECTED_PREFIX: bytes := [0x45, 0x4C, 0x52, 0x4F, 0x4E, 0x44]

  predicate Protected(key: bytes) {
    PROTECTED_PREFIX <= key
  }

  type Entries = map<bytes, bytes>

  datatype Pair = Pair(key: bytes, value: bytes)

  datatype Costs = Costs(function_: nat, persistPerByte: nat, storePerByte: nat)

  datatype Error = InvalidArguments | OperationNotPermitted | NotEnoughGas

  datatype Result = Ok(gasRemaining: nat) | Fail(error: Error)

  function ValueAt(m: Entries, key: bytes): bytes {
    if key in m then m[key] else []
  }

  // An unchanged value is not written.
  function Put(m: Entries, p: Pair): Entries {
    if ValueAt(m, p.key) == p.value then m else m[p.key := p.value]
  }

  function PutAll(m: Entries, ps: seq<Pair>): Entries {
    if |ps| == 0 then m else Put(PutAll(m, ps[..|ps| - 1]), ps[|ps| - 1])
  }

  function Growth(old_: bytes, new_: bytes): nat {
    if |old_| < |new_| then |new_| - |old_| else 0
  }

  function PersistCost(p: Pair, costs: Costs): nat {
    (|p.value| + |p.key|) * costs.persistPerByte
  }

  function GrowthCost(old_: bytes, new_: bytes, costs: Costs): nat {
    costs.storePerByte * Growth(old_, new_)
  }

  // Every byte of key and value is paid for; growth too, if the value changes.
  function PairCost(m: Entries, p: Pair, costs: Costs): nat {
    PersistCost(p, costs) + if ValueAt(m, p.key) == p.value then 0 else GrowthCost(ValueAt(m, p.key), p.value, costs)
  }

  // Measured pair by pair against the storage as it stands then.
  function GasUsed(m: Entries, ps: seq<Pair>, costs: Costs): nat {
    if |ps| == 0 then costs.function_
    else
      var front := ps[..|ps| - 1];
      GasUsed(m, front, costs) + PairCost(PutAll(m, front), ps[|ps| - 1], costs)
  }

  function PairsOf(args: seq<bytes>, n: nat): (ps: seq<Pair>)
    requires 2 * n <= |args|
    ensures |ps| == n
    ensures forall i :: 0 <= i < n ==> ps[i] == Pair(args[2 * i], args[2 * i + 1])
  {
    if n == 0 then [] else PairsOf(args, n - 1) + [Pair(args[2 * n - 2], args[2 * n - 1])]
  }

  predicate AllAllowed(ps: seq<Pair>) {
    forall i :: 0 <= i < |ps| ==> !Protected(ps[i].key)
  }

  predicate Paid(m: Entries, ps: seq<Pair>, i: nat, costs: Costs, provided: nat)
    requires i < |ps|
  {
    ValueAt(PutAll(m, ps[..i]), ps[i].key) != ps[i].value ==> GasUsed(m, ps[..i + 1], costs) <= provided
  }

  // At each pair that changes a value the gas used up to it was there.
  predicate PaidWhereChanged(m: Entries, ps: seq<Pair>, costs: Costs, provided: nat) {
    forall i :: 0 <= i < |ps| ==> Paid(m, ps, i, costs, provided)
  }

  // uint64 subtraction
  function Minus64(a: nat, b: nat): nat
    requires a < TWO64 && b < TWO64
  {
    if b <= a then a - b else TWO64 + a - b
  }

  class AccountStorage {
    var entries: Entries

    // One round of the loop: the gas used so far, or none when the gas does not
    // cover a changed value.
    method SavePair(p: Pair, useGas: nat, provided: nat, costs: Costs) returns (r: Option<nat>)
      requires useGas < TWO64
      modifies this
      ensures r.Some? ==> r.value < TWO64 && entries == Put(old(entries), p)
      ensures r.None? ==> entries == old(entries) && ValueAt(entries, p.key) != p.value
      ensures var used := useGas + PairCost(old(entries), p, costs);
              used < TWO64 ==>
                && (r.Some? ==> r.value == used)
                && (r.None? <==> ValueAt(old(entries), p.key) != p.value && provided < used)
    {
      hide PairCost, PersistCost, GrowthCost;
      GasTerms(entries, p, costs);
      GasOf(entries, p, costs);
      var gas := Low64(useGas + Low64((|p.value| + |p.key|) * costs.persistPerByte));
      var oldValue := ValueAt(entries, p.key);
      if oldValue == p.value {
        return Some(gas);
      }
      var lengthChange := if |oldValue| < |p.value| then |p.value| - |oldValue| else 0;
      gas := Low64(gas + Low64(costs.storePerByte * lengthChange));
      if provided < gas {
        return None;
      }
      entries := entries[p.key := p.value];
      r := Some(gas);
    }

    // No protected key changes, whatever the outcome. Under the gas fix, and
    // while the costs stay below 64 bits, the call succeeds exactly when no
    // key is protected and all the gas is there. Without the fix the gas is
    // looked at only where a value changes, and the gas left is not more than
    // was provided exactly when the gas used was there.
    method SaveKeyValue(args: seq<bytes>, provided: nat, costs: Costs, gasFix: bool) returns (r: Result)
      requires provided < TWO64
      modifies this
      ensures forall key :: Protected(key) ==> ValueAt(entries, key) == ValueAt(old(entries), key)
      ensures |args| < 2 || |args| % 2 != 0 ==> r == Fail(InvalidArguments)
      ensures |args| >= 2 && |args| % 2 == 0 ==>
                var ps := PairsOf(args, |args| / 2);
                var used := GasUsed(old(entries), ps, costs);
                && (r.Ok? ==> AllAllowed(ps) && entries == PutAll(old(entries), ps))
                && (used < TWO64 && gasFix ==> (r.Ok? <==> AllAllowed(ps) && used <= provided))
                && (used < TWO64 && !gasFix ==> (r.Ok? <==> AllAllowed(ps) && PaidWhereChanged(old(entries), ps, costs, provided)))
                && (used < TWO64 && r.Ok? ==> r.gasRemaining == Minus64(provided, used))
                && (used < TWO64 && r.Ok? ==> (r.gasRemaining <= provided <==> used <= provided))
    {
      if |args| < 2 {
        return Fail(InvalidArguments);
      }
      if |args| % 2 != 0 {
        return Fail(InvalidArguments);
      }
      r := SavePairs(PairsOf(args, |args| / 2), provided, costs, gasFix);
    }

    method SavePairs(ps: seq<Pair>, provided: nat, costs: Costs, gasFix: bool) returns (r: Result)
      requires provided < TWO64
      modifies this
      ensures forall key :: Protected(key) ==> ValueAt(entries, key) == ValueAt(old(entries), key)
      ensures var used := GasUsed(old(entries), ps, costs);
              && (r.Ok? ==> AllAllowed(ps) && entries == PutAll(old(entries), ps))
              && (used < TWO64 && gasFix ==> (r.Ok? <==> AllAllowed(ps) && used <= provided))
              && (used < TWO64 && !gasFix ==> (r.Ok? <==> AllAllowed(ps) && PaidWhereChanged(old(entries), ps, costs, provided)))
              && (used < TWO64 && r.Ok? ==> r.gasRemaining == Minus64(provided, used))
    {
      hide PairCost, Put, Protected, GasUsed, PutAll, ValueAt;
      ghost var before := entries;
      Start(before, ps, costs);
      var useGas: nat := Low64(costs.function_);
      var i := 0;
      while i < |ps|
        invariant 0 <= i <= |ps|
        invariant entries == PutAll(before, ps[..i]) && AllAllowed(ps[..i])
        invariant forall key :: Protected(key) ==> ValueAt(entries, key) == ValueAt(before, key)
        invariant GasUsed(before, ps, costs) < TWO64 ==> forall j :: 0 <= j < i ==> Paid(before, ps, j, costs, provided)
        invariant useGas < TWO64
        invariant GasUsed(before, ps, costs) < TWO64 ==> useGas == GasUsed(before, ps[..i], costs)
      {
        GasStep(before, ps, i, costs);
        PutStep(before, ps, i);
        PutOther(entries, ps[i]);
        if Protected(ps[i].key) {
          return Fail(OperationNotPermitted);
        }
        var saved := SavePair(ps[i], useGas, provided, costs);
        if saved.None? {
          assert GasUsed(before, ps, costs) < TWO64 ==> !Paid(before, ps, i, costs, provided);
          return Fail(NotEnoughGas);
        }
        useGas := saved.value;
        i := i + 1;
      }
      assert ps[..i] == ps;
      if !gasFix {
        return Ok(Minus64(provided, useGas));
      }
      if provided < useGas {
        return Fail(NotEnoughGas);
      }
      r := Ok(provided - useGas);
    }
  }

  lemma Start(m: Entries, ps: seq<Pair>, costs: Costs)
    ensures ps[..0] == [] && PutAll(m, ps[..0]) == m
    ensures costs.function_ == GasUsed(m, ps[..0], costs) <= GasUsed(m, ps, costs)
  {
    GasGrows(m, ps, 0, costs);
  }

  lemma PutStep(m: Entries, ps: seq<Pair>, i: nat)
    requires i < |ps|
    ensures PutAll(m, ps[..i + 1]) == Put(PutAll(m, ps[..i]), ps[i])
    ensures AllAllowed(ps[..i]) && !Protected(ps[i].key) ==> AllAllowed(ps[..i + 1])
  {
    assert ps[..i + 1][..i] == ps[..i];
  }

  lemma PutOther(m: Entries, p: Pair)
    ensures Put(m, p) == if ValueAt(m, p.key) == p.value then m else m[p.key := p.value]
    ensures forall key :: key != p.key ==> ValueAt(Put(m, p), key) == ValueAt(m, key)
  {
  }

  lemma GasStep(m: Entries, ps: seq<Pair>, i: nat, costs: Costs)
    requires i < |ps|
    ensures GasUsed(m, ps[..i + 1], costs) == GasUsed(m, ps[..i], costs) + PairCost(PutAll(m, ps[..i]), ps[i], costs)
    ensures GasUsed(m, ps[..i + 1], costs) <= GasUsed(m, ps, costs)
  {
    hide PairCost;
    assert ps[..i + 1][..i] == ps[..i];
    GasGrows(m, ps, i + 1, costs);
  }

  lemma {:induction false} GasGrows(m: Entries, ps: seq<Pair>, i: nat, costs: Costs)
    requires i <= |ps|
    ensures GasUsed(m, ps[..i], costs) <= GasUsed(m, ps, costs)
    decreases |ps|
  {
    hide PairCost;
    if i < |ps| {
      GasGrows(m, ps[..|ps| - 1], i, costs);
      assert ps[..|ps| - 1][..i] == ps[..i];
    } else {
      assert ps[..i] == ps;
    }
  }

  lemma GasTerms(m: Entries, p: Pair, costs: Costs)
    ensures (|p.value| + |p.key|) * costs.persistPerByte == PersistCost(p, costs)
    ensures costs.storePerByte * Growth(ValueAt(m, p.key), p.value) == GrowthCost(ValueAt(m, p.key), p.value, costs)
  {
  }

  lemma GasOf(m: Entries, p: Pair, costs: Costs)
    ensures ValueAt(m, p.key) == p.value ==> PairCost(m, p, costs) == PersistCost(p, costs)
    ensures ValueAt(m, p.key) != p.value ==>
              PairCost(m, p, costs) == PersistCost(p, costs) + GrowthCost(ValueAt(m, p.key), p.value, costs)
  {
    hide PersistCost, GrowthCost;
  }

  // ---- what is stored and what it costs, in one sum ----

  // What the key holds after the pairs: the value of its last pair, or what it
  // held before.
  predicate Found(m: Entries, ps: seq<Pair>, key: bytes, v: bytes) {
    || (v == ValueAt(m, key) && forall j :: 0 <= j < |ps| ==> ps[j].key != key)
    || exists j :: 0 <= j < |ps| && ps[j] == Pair(key, v) && forall i :: j < i < |ps| ==> ps[i].key != key
  }

  lemma {:induction false} LastPairIsRead(m: Entries, ps: seq<Pair>, key: bytes, v: bytes)
    ensures ValueAt(PutAll(m, ps), key) == v <==> Found(m, ps, key, v)
  {
    hide Found;
    if |ps| == 0 {
      FoundInNone(m, ps, key, v);
    } else {
      LastPairIsRead(m, ps[..|ps| - 1], key, v);
      FoundStep(m, ps, key, v);
    }
  }

  lemma FoundInNone(m: Entries, ps: seq<Pair>, key: bytes, v: bytes)
    requires |ps| == 0
    ensures Found(m, ps, key, v) <==> v == ValueAt(m, key)
  {
  }

  lemma FoundStep(m: Entries, ps: seq<Pair>, key: bytes, v: bytes)
    requires |ps| > 0
    ensures Found(m, ps, key, v) <==>
            if ps[|ps| - 1].key == key then v == ps[|ps| - 1].value else Found(m, ps[..|ps| - 1], key, v)
  {
    hide Found;
    if ps[|ps| - 1].key == key {
      FoundLast(m, ps, key, v);
    } else {
      if Found(m, ps[..|ps| - 1], key, v) {
        FoundGrows(m, ps, key, v);
      }
      if Found(m, ps, key, v) {
        FoundShrinks(m, ps, key, v);
      }
    }
  }

  lemma FoundLast(m: Entries, ps: seq<Pair>, key: bytes, v: bytes)
    requires |ps| > 0 && ps[|ps| - 1].key == key
    ensures Found(m, ps, key, v) <==> v == ps[|ps| - 1].value
  {
    hide ValueAt;
    if v == ps[|ps| - 1].value {
      assert ps[|ps| - 1] == Pair(key, v);
    }
  }

  lemma FoundGrows(m: Entries, ps: seq<Pair>, key: bytes, v: bytes)
    requires |ps| > 0 && ps[|ps| - 1].key != key && Found(m, ps[..|ps| - 1], key, v)
    ensures Found(m, ps, key, v)
  {
    hide ValueAt;
    var n := |ps| - 1;
    var front := ps[..n];
    assert forall i :: 0 <= i < n ==> front[i] == ps[i];
    if j :| 0 <= j < n && front[j] == Pair(key, v) && forall i :: j < i < n ==> front[i].key != key {
      assert ps[j] == Pair(key, v);
    }
  }

  lemma FoundShrinks(m: Entries, ps: seq<Pair>, key: bytes, v: bytes)
    requires |ps| > 0 && ps[|ps| - 1].key != key && Found(m, ps, key, v)
    ensures Found(m, ps[..|ps| - 1], key, v)
  {
    hide ValueAt;
    var n := |ps| - 1;
    var front := ps[..n];
    assert forall i :: 0 <= i < n ==> front[i] == ps[i];
    if j :| 0 <= j <= n && ps[j] == Pair(key, v) && forall i :: j < i <= n ==> ps[i].key != key {
      assert front[j] == Pair(key, v);
    }
  }

  function TotalLength(ps: seq<Pair>): nat {
    if |ps| == 0 then 0 else TotalLength(ps[..|ps| - 1]) + |ps[|ps| - 1].key| + |ps[|ps| - 1].value|
  }

  // By how much the values outgrow those they replace.
  function TotalGrowth(ps: seq<Pair>, replaced: seq<bytes>): nat
    requires |replaced| == |ps|
  {
    if |ps| == 0 then 0
    else
      var n := |ps| - 1;
      TotalGrowth(ps[..n], replaced[..n]) + if |replaced[n]| < |ps[n].value| then |ps[n].value| - |replaced[n]| else 0
  }

  // The gas is the function's cost, every byte of the pairs at one price, and
  // every byte a value outgrows the one it replaces by at the other.
  lemma {:induction false} GasIsTotal(m: Entries, ps: seq<Pair>, replaced: seq<bytes>, costs: Costs)
    requires |replaced| == |ps| && forall i :: 0 <= i < |ps| ==> Found(m, ps[..i], ps[i].key, replaced[i])
    ensures GasUsed(m, ps, costs)
            == costs.function_ + costs.persistPerByte * TotalLength(ps) + costs.storePerByte * TotalGrowth(ps, replaced)
  {
    hide Found;
    if |ps| > 0 {
      var n := |ps| - 1;
      var front, p := ps[..n], ps[n];
      forall i | 0 <= i < n
        ensures Found(m, front[..i], front[i].key, replaced[..n][i])
      {
        assert front[..i] == ps[..i];
      }
      GasIsTotal(m, front, replaced[..n], costs);
      LastPairIsRead(m, front, p.key, replaced[n]);
      PairCostIs(PutAll(m, front), p, costs);
      var growth := if |replaced[n]| < |p.value| then |p.value| - |replaced[n]| else 0;
      Distributes(costs.persistPerByte, TotalLength(front), |p.key| + |p.value|);
      Distributes(costs.storePerByte, TotalGrowth(front, replaced[..n]), growth);
    }
  }

  lemma PairCostIs(m: Entries, p: Pair, costs: Costs)
    ensures var before := ValueAt(m, p.key);
            PairCost(m, p, costs) == costs.persistPerByte * (|p.key| + |p.value|)
                                     + costs.storePerByte * (if |before| < |p.value| then |p.value| - |before| else 0)
  {
  }

  lemma Distributes(x: nat, y: nat, z: nat)
    ensures x * (y + z) == x * y + x * z
  {
  }

  // Without the fix an unchanged value is saved without any gas check, and the
  // gas left wraps around.
  method UncheckedWithoutFix(storage: AccountStorage, key: bytes, value: bytes, costs: Costs) returns (r: Result)
    requires !Protected(key) && ValueAt(storage.entries, key) == value && |value| + |key| > 0
    requires costs == Costs(1, 0, 0)
    modifies storage
    ensures r == Ok(TWO64 - 1)
  {
    var args := [key, value];
    ghost var ps := PairsOf(args, 1);
    assert ps[..0] == [];
    assert GasUsed(storage.entries, ps[..0], costs) == 1;
    assert PutAll(storage.entries, ps[..0]) == storage.entries;
    assert Paid(storage.entries, ps, 0, costs, 0);
    r := storage.SaveKeyValue(args, 0, costs, false);
  }
}
