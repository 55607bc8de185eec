// Several accounts creating items of one token, each from a start nonce of its
// own: the multi-shard create role.
module MultiShard {
  import opened Bytes
  import opened CreateRole
  import Roles

  datatype Item = Item(cell: Cell, nonce: nat)

  // started: the accounts that were given a start nonce.
  datatype Creators = Creators(owners: Owners, started: set<Cell>, items: seq<Item>)

  datatype Call = Change(cell: Cell, set_: bool, names: seq<bytes>) | CreateItem(cell: Cell)

  predicate Starts(call: Call) {
    call.Change? && Roles.NFT_CREATE_MULTI_SHARD in call.names
  }

  function After(s: Creators, call: Call): Creators
    requires |call.cell.holder| > 0
  {
    match call
    case Change(c, set_, names) =>
      Creators(ChangeRoles(s.owners, c, set_, names), if Starts(call) then s.started + {c} else s.started, s.items)
    case CreateItem(c) =>
      var n := CreateNext(s.owners, c);
      if n.None? then s
      else s.(owners := SaveNonce(s.owners, c, n.value), items := s.items + [Item(c, n.value)])
  }

  predicate Addressed(calls: seq<Call>) {
    forall i :: 0 <= i < |calls| ==> |calls[i].cell.holder| > 0
  }

  function RunCalls(s: Creators, calls: seq<Call>): Creators
    requires Addressed(calls)
  {
    if |calls| == 0 then s else After(RunCalls(s, calls[..|calls| - 1]), calls[|calls| - 1])
  }

  function ItemsBy(items: seq<Item>, c: Cell): nat {
    if |items| == 0 then 0 else ItemsBy(items[..|items| - 1], c) + if items[|items| - 1].cell == c then 1 else 0
  }

  function LastByte(c: Cell): byte
    requires |c.holder| > 0
  {
    c.holder[|c.holder| - 1]
  }

  // The environment: an account gets a start nonce once, at most one account
  // of a token for each last byte; only started accounts create, and no more
  // than their range.
  predicate Permitted(s: Creators, call: Call)
    requires |call.cell.holder| > 0
  {
    && (Starts(call) ==>
          && call.cell !in s.started
          && forall d :: d in s.started && d.token == call.cell.token ==> |d.holder| > 0 && LastByte(d) != LastByte(call.cell))
    && (call.CreateItem? && CreateNext(s.owners, call.cell).Some? ==>
          call.cell in s.started && ItemsBy(s.items, call.cell) < RANGE)
  }

  predicate AllPermitted(s: Creators, calls: seq<Call>)
    requires Addressed(calls)
  {
    forall i :: 0 <= i < |calls| ==> Permitted(RunCalls(s, calls[..i]), calls[i])
  }

  // ---- the invariant ----

  predicate CountedFrom(s: Creators, c: Cell) {
    && |c.holder| > 0 && ItemsBy(s.items, c) <= RANGE
    && LatestNonce(s.owners, c) == StartNonce(c.holder) + ItemsBy(s.items, c)
  }

  predicate Placed(items: seq<Item>, started: set<Cell>, i: nat)
    requires i < |items|
  {
    var c := items[i].cell;
    && c in started && |c.holder| > 0
    && items[i].nonce == StartNonce(c.holder) + ItemsBy(items[..i], c) + 1
    && ItemsBy(items[..i], c) < RANGE
  }

  ghost predicate Numbered(s: Creators) {
    && (forall c :: c in s.started ==> CountedFrom(s, c))
    && (forall c, d :: c in s.started && d in s.started && c.token == d.token && c != d ==>
          |c.holder| > 0 && |d.holder| > 0 && LastByte(c) != LastByte(d))
    && (forall i :: 0 <= i < |s.items| ==> Placed(s.items, s.started, i))
  }

  lemma ItemsAppend(items: seq<Item>, item: Item, c: Cell)
    ensures ItemsBy(items + [item], c) == ItemsBy(items, c) + if item.cell == c then 1 else 0
    ensures forall i :: 0 <= i <= |items| ==> (items + [item])[..i] == items[..i]
  {
    var all := items + [item];
    assert all[..|items|] == items;
  }

  lemma StartFits(a: bytes)
    requires |a| > 0
    ensures StartNonce(a) + RANGE < TWO64
  {
  }

  lemma ChangeKeeps(s: Creators, call: Call)
    requires call.Change? && |call.cell.holder| > 0 && Numbered(s) && Permitted(s, call)
    ensures Numbered(After(s, call))
  {
    hide ChangeRoles, StartNonce, ItemsBy;
    var s', c := After(s, call), call.cell;
    if Starts(call) {
      NoItemsYet(s, c);
      StartFits(c.holder);
    }
    forall d | d in s'.started
      ensures CountedFrom(s', d)
    {
      ChangedNonce(s.owners, c, call.set_, call.names, d);
    }
    forall i | 0 <= i < |s'.items|
      ensures Placed(s'.items, s'.started, i)
    {
      assert Placed(s.items, s.started, i);
    }
  }

  lemma ChangedNonce(o: Owners, c: Cell, set_: bool, names: seq<bytes>, d: Cell)
    requires |c.holder| > 0
    ensures LatestNonce(ChangeRoles(o, c, set_, names), d)
            == if d == c && Roles.NFT_CREATE_MULTI_SHARD in names then StartNonce(c.holder) else LatestNonce(o, d)
  {
    hide Roles.RemoveEach, StartNonce;
    StartFits(c.holder);
    SaveNonceReads(o, c, StartNonce(c.holder));
  }

  lemma {:induction false} NoItems(items: seq<Item>, c: Cell)
    requires forall i :: 0 <= i < |items| ==> items[i].cell != c
    ensures ItemsBy(items, c) == 0
  {
    if |items| > 0 {
      NoItems(items[..|items| - 1], c);
    }
  }

  // An account not started has created nothing.
  lemma NoItemsYet(s: Creators, c: Cell)
    requires Numbered(s) && c !in s.started
    ensures ItemsBy(s.items, c) == 0
  {
    hide ItemsBy;
    forall i | 0 <= i < |s.items|
      ensures s.items[i].cell != c
    {
      assert Placed(s.items, s.started, i);
    }
    NoItems(s.items, c);
  }

  lemma CreateKeepsNumbers(s: Creators, c: Cell)
    requires |c.holder| > 0 && Numbered(s) && Permitted(s, CreateItem(c))
    ensures Numbered(After(s, CreateItem(c)))
  {
    hide StartNonce, ItemsBy;
    var s' := After(s, CreateItem(c));
    if CreateNext(s.owners, c).Some? {
      assert CountedFrom(s, c);
      StartFits(c.holder);
      var n := LatestNonce(s.owners, c) + 1;
      assert CreateNext(s.owners, c) == Some(n);
      SaveNonceReads(s.owners, c, n);
      forall d | d in s'.started
        ensures CountedFrom(s', d)
      {
        assert CountedFrom(s, d);
        ItemsAppend(s.items, Item(c, n), d);
      }
      forall i | 0 <= i < |s'.items|
        ensures Placed(s'.items, s'.started, i)
      {
        ItemsAppend(s.items, Item(c, n), s'.items[i].cell);
        if i < |s.items| {
          assert Placed(s.items, s.started, i);
        }
      }
    }
  }

  lemma {:induction false} RunKeepsNumbers(s: Creators, calls: seq<Call>)
    requires Numbered(s) && Addressed(calls) && AllPermitted(s, calls)
    ensures Numbered(RunCalls(s, calls))
  {
    hide Numbered, Permitted, After;
    if |calls| > 0 {
      var n := |calls| - 1;
      assert forall i :: 0 <= i < n ==> calls[..n][..i] == calls[..i];
      RunKeepsNumbers(s, calls[..n]);
      var mid := RunCalls(s, calls[..n]);
      assert Permitted(mid, calls[n]);
      if calls[n].Change? {
        ChangeKeeps(mid, calls[n]);
      } else {
        CreateKeepsNumbers(mid, calls[n].cell);
      }
    }
  }

  lemma {:induction false} ItemsGrow(items: seq<Item>, i: nat, j: nat, c: Cell)
    requires i < j <= |items| && items[i].cell == c
    ensures ItemsBy(items[..i], c) + 1 <= ItemsBy(items[..j], c)
  {
    assert items[..j][..j - 1] == items[..j - 1];
    if i < j - 1 {
      ItemsGrow(items, i, j - 1, c);
    }
  }

  lemma RangesApart(a: bytes, x: nat, b: bytes, y: nat)
    requires |a| > 0 && |b| > 0 && a[|a| - 1] != b[|b| - 1] && 0 < x <= RANGE && 0 < y <= RANGE
    ensures StartNonce(a) + x != StartNonce(b) + y
  {
  }

  lemma ItemsDiffer(s: Creators, i: nat, j: nat)
    requires Numbered(s) && i < j < |s.items|
    ensures (s.items[i].cell.token, s.items[i].nonce) != (s.items[j].cell.token, s.items[j].nonce)
  {
    hide ItemsBy, StartNonce;
    assert Placed(s.items, s.started, i) && Placed(s.items, s.started, j);
    var c, d := s.items[i].cell, s.items[j].cell;
    if c == d {
      ItemsGrow(s.items, i, j, c);
    } else if c.token == d.token {
      assert LastByte(c) != LastByte(d);
      RangesApart(c.holder, ItemsBy(s.items[..i], c) + 1, d.holder, ItemsBy(s.items[..j], d) + 1);
    }
  }

  // Over any interleaving of role changes and creates by any accounts, no
  // token and nonce is given to two items.
  lemma NoItemTwice(s: Creators, calls: seq<Call>, i: nat, j: nat)
    requires Numbered(s) && Addressed(calls) && AllPermitted(s, calls)
    requires i < j < |RunCalls(s, calls).items|
    ensures var items := RunCalls(s, calls).items;
            (items[i].cell.token, items[i].nonce) != (items[j].cell.token, items[j].nonce)
  {
    hide RunCalls, Numbered;
    RunKeepsNumbers(s, calls);
    ItemsDiffer(RunCalls(s, calls), i, j);
  }

  // No account started, nothing created: where every run begins.
  lemma StartNumbered(owners: Owners)
    ensures Numbered(Creators(owners, {}, []))
  {
  }

  // ---- the conditions are needed ----

  const BOTH_ROLES := [Roles.NFT_CREATE, Roles.NFT_CREATE_MULTI_SHARD]

  // An account that has used its range gives its next item the first nonce of
  // the next account.
  lemma RangesMeet(s: Creators, c: Cell, d: Cell)
    requires Numbered(s) && c in s.started && ItemsBy(s.items, c) == RANGE && Roles.NFT_CREATE in RolesOf(s.owners, c)
    requires c != d && c.token == d.token && |d.holder| > 0
    requires |c.holder| > 0 && (LastByte(d) as int) - LastByte(c) == 1
    ensures var s' := After(After(After(s, CreateItem(c)), Change(d, true, BOTH_ROLES)), CreateItem(d));
            && |s'.items| == |s.items| + 2
            && s'.items[|s.items|].cell == c && s'.items[|s.items| + 1].cell == d
            && s'.items[|s.items|].nonce == s'.items[|s.items| + 1].nonce
  {
    hide ItemsBy, ChangeRoles, StartNonce, LatestNonce;
    assert CountedFrom(s, c);
    NextStart(c, d);
    StartFits(d.holder);
    var one := After(s, CreateItem(c));
    StartedCreates(one.owners, d, BOTH_ROLES);
  }

  lemma NextStart(c: Cell, d: Cell)
    requires |c.holder| > 0 && |d.holder| > 0 && (LastByte(d) as int) - LastByte(c) == 1
    ensures StartNonce(d.holder) == StartNonce(c.holder) + RANGE
  {
  }

  lemma StartedCreates(o: Owners, c: Cell, names: seq<bytes>)
    requires |c.holder| > 0 && Roles.NFT_CREATE in names && Roles.NFT_CREATE_MULTI_SHARD in names
    ensures CreateNext(ChangeRoles(o, c, true, names), c) == Some(StartNonce(c.holder) + 1)
  {
    StartReads(o, c, names);
  }

  lemma {:induction false} ItemsStay(s: Creators, calls: seq<Call>)
    requires Addressed(calls)
    ensures s.items <= RunCalls(s, calls).items
  {
    hide ChangeRoles;
    if |calls| > 0 {
      ItemsStay(s, calls[..|calls| - 1]);
    }
  }

  // A start nonce given a second time repeats nonces, whatever was called in
  // between.
  lemma SecondStartRepeats(s: Creators, c: Cell, names: seq<bytes>, between: seq<Call>, again: seq<bytes>)
    requires |c.holder| > 0 && Addressed(between)
    requires Roles.NFT_CREATE in names && Roles.NFT_CREATE_MULTI_SHARD in names
    requires Roles.NFT_CREATE in again && Roles.NFT_CREATE_MULTI_SHARD in again
    ensures var first := After(After(s, Change(c, true, names)), CreateItem(c));
            var s' := After(After(RunCalls(first, between), Change(c, true, again)), CreateItem(c));
            exists i, j :: 0 <= i < j < |s'.items| && s'.items[i] == s'.items[j]
  {
    hide ChangeRoles, RunCalls;
    StartedCreates(s.owners, c, names);
    var first := After(After(s, Change(c, true, names)), CreateItem(c));
    var mid := RunCalls(first, between);
    ItemsStay(first, between);
    StartedCreates(mid.owners, c, again);
    var s' := After(After(mid, Change(c, true, again)), CreateItem(c));
    var i, j := |s.items|, |s'.items| - 1;
    assert first.items[i] == Item(c, StartNonce(c.holder) + 1) == mid.items[i];
    assert s'.items[i] == s'.items[j];
  }
}
