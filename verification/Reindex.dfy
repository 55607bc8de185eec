// Renumbering the output transfers of several outputs with one shared counter.
module Reindex {
  import opened Bytes

  datatype Transfer = Transfer(index: nat, data: seq<char>)

  // The output transfers of each account, accounts in the order visited.
  type Output = seq<seq<Transfer>>

  // ---- specification ----

  predicate At(o: Output, a: int, t: int) {
    0 <= a < |o| && 0 <= t < |o[a]|
  }

  function Index(o: Output, a: int, t: int): nat
    requires At(o, a, t)
  {
    o[a][t].index
  }

  ghost predicate Indexed(o: Output) {
    forall a, t :: At(o, a, t) ==> Index(o, a, t) != 0
  }

  ghost predicate HasTransfer(o: Output) {
    exists a, t :: At(o, a, t)
  }

  ghost predicate SameShape(o: Output, p: Output) {
    |p| == |o| && forall a :: 0 <= a < |o| ==> |p[a]| == |o[a]|
  }

  // Only the indices change, all by the same amount modulo 32 bits.
  ghost predicate Shifted(o: Output, p: Output, offset: nat) {
    && SameShape(o, p)
    && forall a, t :: At(o, a, t) ==> p[a][t] == o[a][t].(index := Low32(Index(o, a, t) + offset))
  }

  ghost predicate IsMax(o: Output, m: nat) {
    && (forall a, t :: At(o, a, t) ==> Index(o, a, t) <= m)
    && (m == 0 || exists a, t :: At(o, a, t) && Index(o, a, t) == m)
  }

  // One successful call.
  ghost predicate Call(o: Output, p: Output, counter: nat, next: nat) {
    && counter > 0 && Indexed(o) && Shifted(o, p, counter - 1)
    && (!HasTransfer(o) ==> next == counter)
    && (HasTransfer(o) ==> exists m: nat :: IsMax(p, m) && next == Low32(m + 1))
  }

  // Transfers of accounts before a, and of account a before t.
  ghost predicate Visited(b: int, u: int, a: int, t: int) {
    b < a || (b == a && u < t)
  }

  // ---- as it runs ----

  class VmOutput {
    var transfers: Output

    method NextAvailableIndex() returns (next: nat)
      ensures exists m: nat :: IsMax(transfers, m) && next == Low32(m + 1)
    {
      var max, a := 0, 0;
      while a < |transfers|
        invariant 0 <= a <= |transfers|
        invariant forall b, u :: At(transfers, b, u) && b < a ==> Index(transfers, b, u) <= max
        invariant max == 0 || exists b, u :: At(transfers, b, u) && Index(transfers, b, u) == max
      {
        var t := 0;
        while t < |transfers[a]|
          invariant 0 <= t <= |transfers[a]|
          invariant forall b, u :: At(transfers, b, u) && Visited(b, u, a, t) ==> Index(transfers, b, u) <= max
          invariant max == 0 || exists b, u :: At(transfers, b, u) && Index(transfers, b, u) == max
        {
          assert At(transfers, a, t);
          if Index(transfers, a, t) > max {
            max := Index(transfers, a, t);
          }
          t := t + 1;
        }
        a := a + 1;
      }
      assert IsMax(transfers, max);
      next := Low32(max + 1);
    }

    // Fails on a transfer without an index; the counter moves only when there
    // was a transfer.
    method ReindexTransfers(counter: nat) returns (ok: bool, next: nat)
      requires 0 < counter < TWO32
      modifies this
      ensures ok <==> Indexed(old(transfers))
      ensures ok ==> Call(old(transfers), transfers, counter, next)
      ensures !ok ==> next == counter
    {
      ghost var before := transfers;
      var offset, reindexed, a := counter - 1, false, 0;
      while a < |transfers|
        invariant 0 <= a <= |transfers|
        invariant Progress(before, transfers, offset, a, 0)
        invariant reindexed ==> HasTransfer(before)
        invariant !reindexed ==> forall b, u :: At(before, b, u) ==> !(b < a)
      {
        var t := 0;
        while t < |transfers[a]|
          invariant a < |transfers| && 0 <= t <= |transfers[a]|
          invariant Progress(before, transfers, offset, a, t)
          invariant reindexed ==> HasTransfer(before)
          invariant !reindexed ==> forall b, u :: At(before, b, u) ==> !Visited(b, u, a, t)
        {
          assert At(before, a, t);
          var transfer := transfers[a][t];
          assert transfer == before[a][t];
          if transfer.index == 0 {
            assert Index(before, a, t) == 0;
            return false, counter;
          }
          ghost var was := transfers;
          transfers := transfers[a := transfers[a][t := transfer.(index := Low32(transfer.index + offset))]];
          ProgressStep(before, was, transfers, offset, a, t);
          reindexed := true;
          t := t + 1;
        }
        NextAccount(before, transfers, offset, a);
        a := a + 1;
      }
      AllVisited(before, transfers, offset, a);
      if !reindexed {
        return true, counter;
      }
      ok := true;
      next := NextAvailableIndex();
    }
  }

  // What is visited is shifted and was indexed; the rest is as before.
  ghost predicate Progress(before: Output, now: Output, offset: nat, a: nat, t: nat) {
    && SameShape(before, now)
    && (forall b, u :: At(before, b, u) && Visited(b, u, a, t) ==>
          Index(before, b, u) != 0 && now[b][u] == before[b][u].(index := Low32(Index(before, b, u) + offset)))
    && (forall b, u :: At(before, b, u) && !Visited(b, u, a, t) ==> now[b][u] == before[b][u])
  }

  lemma ProgressStep(before: Output, was: Output, now: Output, offset: nat, a: nat, t: nat)
    requires Progress(before, was, offset, a, t) && At(before, a, t) && Index(before, a, t) != 0
    requires now == was[a := was[a][t := before[a][t].(index := Low32(Index(before, a, t) + offset))]]
    ensures Progress(before, now, offset, a, t + 1)
  {
    forall b, u | At(before, b, u)
      ensures now[b][u] == if (b, u) == (a, t) then before[a][t].(index := Low32(Index(before, a, t) + offset)) else was[b][u]
    {
    }
    forall b, u | At(before, b, u)
      ensures Visited(b, u, a, t + 1) <==> Visited(b, u, a, t) || (b, u) == (a, t)
    {
    }
  }

  lemma NextAccount(before: Output, now: Output, offset: nat, a: nat)
    requires a < |now| && Progress(before, now, offset, a, |now[a]|)
    ensures Progress(before, now, offset, a + 1, 0)
  {
    forall b, u | At(before, b, u)
      ensures Visited(b, u, a + 1, 0) <==> Visited(b, u, a, |now[a]|)
    {
    }
  }

  lemma AllVisited(before: Output, now: Output, offset: nat, a: nat)
    requires |now| <= a && Progress(before, now, offset, a, 0)
    ensures Indexed(before) && Shifted(before, now, offset)
  {
    forall b, u | At(before, b, u)
      ensures Visited(b, u, a, 0)
    {
    }
  }

  // ---- a sequence of outputs ----

  ghost predicate Distinct(o: Output) {
    forall a, t, b, u :: At(o, a, t) && At(o, b, u) && (a, t) != (b, u) ==> Index(o, a, t) != Index(o, b, u)
  }

  // No index, and not the number after it, reaches 32 bits.
  ghost predicate Fits(o: Output, counter: nat) {
    counter < TWO32 && forall a, t :: At(o, a, t) ==> counter + Index(o, a, t) < TWO32
  }

  // A provider serves one output after the other.
  ghost predicate Calls(os: seq<Output>, ps: seq<Output>, counters: seq<nat>) {
    && |ps| == |os| && |counters| == |os| + 1
    && forall k :: 0 <= k < |os| ==> Call(os[k], ps[k], counters[k], counters[k + 1])
  }

  ghost predicate AllFit(os: seq<Output>, counters: seq<nat>) {
    |counters| == |os| + 1 && forall k :: 0 <= k < |os| ==> Distinct(os[k]) && Fits(os[k], counters[k])
  }

  // One call: every index moves by the same amount, into the range from the
  // old counter up to the new one, whose last number is taken.
  lemma CallRange(o: Output, p: Output, counter: nat, next: nat)
    requires Call(o, p, counter, next) && Distinct(o) && Fits(o, counter)
    ensures forall a, t :: At(p, a, t) ==>
              At(o, a, t) && Index(p, a, t) == Index(o, a, t) + counter - 1 && counter <= Index(p, a, t) < next
    ensures Distinct(p) && counter <= next
    ensures HasTransfer(o) ==> exists a, t :: At(p, a, t) && Index(p, a, t) == next - 1
  {
    forall a, t | At(p, a, t)
      ensures At(o, a, t) && Index(p, a, t) == Index(o, a, t) + counter - 1
    {
      assert At(o, a, t);
    }
    if HasTransfer(o) {
      var a, t :| At(o, a, t);
      assert At(p, a, t);
      var m: nat :| IsMax(p, m) && next == Low32(m + 1);
      assert m >= Index(p, a, t) > 0;
      var b, u :| At(p, b, u) && Index(p, b, u) == m;
      assert At(o, b, u);
    }
  }

  lemma {:induction false} CountersGrow(os: seq<Output>, ps: seq<Output>, counters: seq<nat>, j: nat, k: nat)
    requires Calls(os, ps, counters) && AllFit(os, counters) && j <= k <= |os|
    ensures counters[j] <= counters[k]
    decreases k
  {
    if j < k {
      CountersGrow(os, ps, counters, j, k - 1);
      CallRange(os[k - 1], ps[k - 1], counters[k - 1], counters[k]);
    }
  }

  // Across the whole sequence no two transfers share an index.
  lemma AllDistinct(os: seq<Output>, ps: seq<Output>, counters: seq<nat>, j: nat, a: nat, t: nat, k: nat, b: nat,
                    u: nat)
    requires Calls(os, ps, counters) && AllFit(os, counters) && j < |os| && k < |os|
    requires At(ps[j], a, t) && At(ps[k], b, u) && (j, a, t) != (k, b, u)
    ensures Index(ps[j], a, t) != Index(ps[k], b, u)
  {
    CallRange(os[j], ps[j], counters[j], counters[j + 1]);
    CallRange(os[k], ps[k], counters[k], counters[k + 1]);
    if j < k {
      CountersGrow(os, ps, counters, j + 1, k);
    } else if k < j {
      CountersGrow(os, ps, counters, k + 1, j);
    }
  }

  // The last counter is above every index given out, and one above the
  // largest if there is any.
  lemma {:induction false} CounterAboveAll(os: seq<Output>, ps: seq<Output>, counters: seq<nat>, n: nat)
    requires Calls(os, ps, counters) && AllFit(os, counters) && n <= |os|
    ensures forall k, a, t :: 0 <= k < n && At(ps[k], a, t) ==> Index(ps[k], a, t) < counters[n]
    ensures counters[n] == counters[0] || exists k, a, t :: 0 <= k < n && At(ps[k], a, t) && Index(ps[k], a, t) == counters[n] - 1
    decreases n
  {
    if n > 0 {
      CounterAboveAll(os, ps, counters, n - 1);
      CallRange(os[n - 1], ps[n - 1], counters[n - 1], counters[n]);
    }
  }
}
