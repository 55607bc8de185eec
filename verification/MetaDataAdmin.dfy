// Deleting the metadata of listed nonce intervals from the system account, and
// adding metadata that is missing there.
module MetaDataAdmin {
  import opened Bytes
  import opened Tokens
  import opened Keys

  // The system account's token entries, by storage key.
  type Entries = map<bytes, Token>

  // ---- deleting: token, number of intervals, then the intervals ----

  function RemoveRange(m: Entries, token: bytes, start: nat, end: nat): Entries
    decreases end
  {
    if end < start || end == 0 then m else RemoveRange(m, token, start, end - 1) - {TokenKey(token, end)}
  }

  // The first n intervals from the argument at index; None for an error.
  function RemoveIntervals(m: Entries, token: bytes, args: seq<bytes>, index: nat, n: nat): Option<Entries> {
    if n == 0 then Some(m)
    else
      var front, j := RemoveIntervals(m, token, args, index, n - 1), index + 2 * (n - 1);
      if front.None? || j + 1 >= |args| then None
      else
        var start, end := ToUint64(args[j]), ToUint64(args[j + 1]);
        if end < start || start == 0 then None else Some(RemoveRange(front.value, token, start, end))
  }

  function RemoveGroups(m: Entries, args: seq<bytes>, i: nat): Option<Entries>
    decreases |args| - i
  {
    if i + 1 >= |args| then Some(m)
    else
      var token, n := args[i], ToUint64(args[i + 1]);
      if !ValidToken(token) || i + 2 >= |args| then None
      else
        var mid := RemoveIntervals(m, token, args, i + 2, n);
        if mid.None? then None else RemoveGroups(mid.value, args, i + 2 + 2 * n)
  }

  function Deleted(m: Entries, args: seq<bytes>): Option<Entries> {
    if |args| < 4 then None else RemoveGroups(m, args, 0)
  }

  // The listed intervals: some interval of a group for the token covers the
  // nonce.
  predicate InInterval(args: seq<bytes>, j: nat, nonce: nat) {
    j + 1 < |args| && ToUint64(args[j]) <= nonce <= ToUint64(args[j + 1])
  }

  predicate InGroup(args: seq<bytes>, index: nat, n: nat, nonce: nat) {
    n > 0 && (InGroup(args, index, n - 1, nonce) || InInterval(args, index + 2 * (n - 1), nonce))
  }

  predicate Listed(args: seq<bytes>, i: nat, token: bytes, nonce: nat)
    decreases |args| - i
  {
    && i + 1 < |args|
    && var n := ToUint64(args[i + 1]);
       (args[i] == token && InGroup(args, i + 2, n, nonce)) || Listed(args, i + 2 + 2 * n, token, nonce)
  }

  // Index arithmetic stays below 64 bits, and no interval ends at the last
  // nonce, where the loop's counter would wrap.
  predicate EndsFit(args: seq<bytes>, index: nat, n: nat) {
    forall j :: 0 <= j < |args| && index < j <= index + 2 * n ==> ToUint64(args[j]) < TWO64 - 1
  }

  predicate NoWrap(args: seq<bytes>, i: nat)
    decreases |args| - i
  {
    i + 1 < |args| ==>
      var n := ToUint64(args[i + 1]);
      i + 2 + 2 * n < TWO64 && EndsFit(args, i + 1, n) && NoWrap(args, i + 2 + 2 * n)
  }

  // ---- adding: token, nonce, metadata ----

  datatype Addition = Addition(token: bytes, nonce: nat, meta: Option<MetaData>)

  const ARGS_PER_ADD := 3

  function AdditionAt(args: seq<bytes>, k: nat, unmarshal: bytes -> Option<MetaData>): Addition
    requires 3 * k + 2 < |args|
  {
    Addition(args[3 * k], ToUint64(args[3 * k + 1]), unmarshal(args[3 * k + 2]))
  }

  function AdditionsOf(args: seq<bytes>, n: nat, unmarshal: bytes -> Option<MetaData>): (r: seq<Addition>)
    requires 3 * n <= |args|
    ensures |r| == n
    ensures forall k :: 0 <= k < n ==> r[k] == AdditionAt(args, k, unmarshal)
  {
    if n == 0 then [] else AdditionsOf(args, n - 1, unmarshal) + [AdditionAt(args, n - 1, unmarshal)]
  }

  predicate WellFormed(a: Addition) {
    a.nonce != 0 && ValidToken(a.token) && a.meta.Some? && a.meta.value.nonce == a.nonce
  }

  function KeyOf(a: Addition): bytes {
    TokenKey(a.token, a.nonce)
  }

  function WithMetaData(m: Entries, key: bytes, meta: MetaData): Token {
    (if key in m then m[key] else Token(NonFungible, 0, None, [], None)).(meta := Some(meta))
  }

  function AddOne(m: Entries, a: Addition): Option<Entries> {
    if !WellFormed(a) || (KeyOf(a) in m && m[KeyOf(a)].meta.Some?) then None
    else Some(m[KeyOf(a) := WithMetaData(m, KeyOf(a), a.meta.value)])
  }

  function AddAll(m: Entries, list: seq<Addition>): Option<Entries> {
    if |list| == 0 then Some(m)
    else
      var front := AddAll(m, list[..|list| - 1]);
      if front.None? then None else AddOne(front.value, list[|list| - 1])
  }

  // ---- the functions as they run ----

  class SystemAccount {
    var entries: Entries

    method DeleteForInterval(token: bytes, start: nat, end: nat) returns (ok: bool)
      requires end < TWO64 - 1
      modifies this
      ensures ok <==> start <= end && start != 0
      ensures ok ==> entries == RemoveRange(old(entries), token, start, end)
    {
      if end < start {
        return false;
      }
      if start == 0 {
        return false;
      }
      assert RemoveRange(entries, token, start, start - 1) == entries;
      var nonce := start;
      while nonce <= end
        invariant start <= nonce <= end + 1
        invariant entries == RemoveRange(old(entries), token, start, nonce - 1)
      {
        entries := entries - {TokenKey(token, nonce)};
        nonce := Low64(nonce + 1);
      }
      ok := true;
    }

    method DeleteForListIntervals(token: bytes, args: seq<bytes>, index: nat, n: nat) returns (ok: bool)
      requires index + 2 * n < TWO64 && index >= 2 && |args| >= 4 && |args| < TWO64 && EndsFit(args, index - 1, n)
      modifies this
      ensures ok <==> RemoveIntervals(old(entries), token, args, index, n).Some?
      ensures ok ==> Some(entries) == RemoveIntervals(old(entries), token, args, index, n)
    {
      hide RemoveRange;
      var j, k := index, 0;
      while j < Low64(index + Low64(n * 2))
        invariant 0 <= k <= n && j == index + 2 * k
        invariant RemoveIntervals(old(entries), token, args, index, k) == Some(entries)
        decreases n - k
      {
        if j > |args| - 2 {
          IntervalsFail(old(entries), token, args, index, k + 1, n);
          return false;
        }
        var start, end := ToUint64(args[j]), ToUint64(args[j + 1]);
        assert end < TWO64 - 1;
        var deleted := DeleteForInterval(token, start, end);
        if !deleted {
          IntervalsFail(old(entries), token, args, index, k + 1, n);
          return false;
        }
        j, k := j + 2, k + 1;
      }
      ok := true;
    }

    method DeleteMetaData(args: seq<bytes>) returns (ok: bool)
      requires |args| < TWO64 && NoWrap(args, 0)
      modifies this
      ensures ok <==> |args| >= 4 && GroupsFit(args, 0)
      ensures ok ==> Some(entries) == Deleted(old(entries), args)
    {
      DeletesIff(entries, args);
      hide RemoveIntervals, ValidToken, EndsFit;
      if |args| < 4 {
        return false;
      }
      var i := 0;
      while i + 1 < |args|
        invariant 0 <= i < TWO64 && NoWrap(args, i)
        invariant RemoveGroups(entries, args, i) == RemoveGroups(old(entries), args, 0)
        decreases |args| - i
      {
        var token, n := args[i], ToUint64(args[i + 1]);
        ghost var before := entries;
        if !ValidToken(token) {
          return false;
        }
        if i + 2 >= |args| {
          return false;
        }
        var deleted := DeleteForListIntervals(token, args, i + 2, n);
        if !deleted {
          return false;
        }
        i := i + 2 + 2 * n;
      }
      ok := true;
    }

    method AddMetaData(args: seq<bytes>, unmarshal: bytes -> Option<MetaData>) returns (ok: bool)
      modifies this
      ensures |args| % ARGS_PER_ADD != 0 || |args| < ARGS_PER_ADD ==> !ok
      ensures |args| % ARGS_PER_ADD == 0 && |args| >= ARGS_PER_ADD ==>
                var all := AddAll(old(entries), AdditionsOf(args, |args| / ARGS_PER_ADD, unmarshal));
                (ok <==> all.Some?) && (ok ==> Some(entries) == all)
    {
      if |args| % ARGS_PER_ADD != 0 || |args| < ARGS_PER_ADD {
        return false;
      }
      ok := AddList(AdditionsOf(args, |args| / ARGS_PER_ADD, unmarshal));
    }

    method AddList(list: seq<Addition>) returns (ok: bool)
      modifies this
      ensures ok <==> AddAll(old(entries), list).Some?
      ensures ok ==> Some(entries) == AddAll(old(entries), list)
    {
      hide ValidToken;
      var i := 0;
      while i < |list|
        invariant 0 <= i <= |list|
        invariant AddAll(old(entries), list[..i]) == Some(entries)
      {
        var a := list[i];
        AddStep(old(entries), list, i);
        if a.nonce == 0 || !ValidToken(a.token) || a.meta.None? || a.meta.value.nonce != a.nonce {
          return false;
        }
        var key := KeyOf(a);
        var token := Token(NonFungible, 0, None, [], None);
        if key in entries {
          token := entries[key];
          if token.meta.Some? {
            return false;
          }
        }
        entries := entries[key := token.(meta := a.meta)];
        i := i + 1;
      }
      assert list[..i] == list;
      ok := true;
    }
  }

  lemma {:induction false} IntervalsFail(m: Entries, token: bytes, args: seq<bytes>, index: nat, k: nat, n: nat)
    requires k <= n && RemoveIntervals(m, token, args, index, k).None?
    ensures RemoveIntervals(m, token, args, index, n).None?
  {
    if k < n {
      IntervalsFail(m, token, args, index, k, n - 1);
    }
  }

  lemma AddStep(m: Entries, list: seq<Addition>, i: nat)
    requires i < |list| && AddAll(m, list[..i]).Some?
    ensures AddAll(m, list[..i + 1]) == AddOne(AddAll(m, list[..i]).value, list[i])
    ensures AddAll(m, list[..i + 1]).None? ==> AddAll(m, list).None?
  {
    hide AddOne;
    assert list[..i + 1][..i] == list[..i];
    if AddAll(m, list[..i + 1]).None? {
      AddFails(m, list, i + 1);
    }
  }

  lemma {:induction false} AddFails(m: Entries, list: seq<Addition>, k: nat)
    requires k <= |list| && AddAll(m, list[..k]).None?
    ensures AddAll(m, list).None?
    decreases |list|
  {
    hide AddOne;
    if k < |list| {
      assert list[..|list| - 1][..k] == list[..k];
      AddFails(m, list[..|list| - 1], k);
    } else {
      assert list[..k] == list;
    }
  }

  // ---- what is deleted ----

  // after is before without the keys of token's nonces in gone.
  ghost predicate Without(before: Entries, after: Entries, gone: iset<(bytes, nat)>) {
    && (forall key :: key in after ==> key in before && after[key] == before[key])
    && (forall t: bytes, n: nat :: ValidToken(t) ==> (TokenKey(t, n) in after <==> TokenKey(t, n) in before && (t, n) !in gone))
    && (forall key :: key in before && key !in after ==> Gone(key, gone))
  }

  ghost predicate Gone(key: bytes, gone: iset<(bytes, nat)>) {
    exists t: bytes, n: nat :: ValidToken(t) && (t, n) in gone && key == TokenKey(t, n)
  }

  lemma {:induction false} RangeGone(m: Entries, token: bytes, start: nat, end: nat)
    requires ValidToken(token) && start > 0
    ensures Without(m, RemoveRange(m, token, start, end), iset n: nat | start <= n <= end :: (token, n))
  {
    var gone := iset n: nat | start <= n <= end :: (token, n);
    if start <= end {
      var less := iset n: nat | start <= n <= end - 1 :: (token, n);
      RangeGone(m, token, start, end - 1);
      OneGone(RemoveRange(m, token, start, end - 1), token, end);
      GoneThen(m, RemoveRange(m, token, start, end - 1), RemoveRange(m, token, start, end), less, iset{(token, end)}, gone);
    }
  }

  lemma OneGone(m: Entries, token: bytes, nonce: nat)
    requires ValidToken(token)
    ensures Without(m, m - {TokenKey(token, nonce)}, iset{(token, nonce)})
  {
    hide TokenKey, ValidToken;
    forall t: bytes, n: nat | ValidToken(t)
      ensures TokenKey(t, n) == TokenKey(token, nonce) <==> (t, n) == (token, nonce)
    {
      KeyInjective(t, n, token, nonce);
    }
    assert Gone(TokenKey(token, nonce), iset{(token, nonce)}) by {
      assert (token, nonce) in iset{(token, nonce)};
    }
  }

  lemma GoneThen(s0: Entries, s1: Entries, s2: Entries, a: iset<(bytes, nat)>, b: iset<(bytes, nat)>,
                 all: iset<(bytes, nat)>)
    requires Without(s0, s1, a) && Without(s1, s2, b)
    requires forall p :: p in all <==> p in a || p in b
    ensures Without(s0, s2, all)
  {
    hide TokenKey, ValidToken;
    forall key | key in s0 && key !in s2
      ensures Gone(key, all)
    {
      if key !in s1 {
        assert Gone(key, a);
      } else {
        assert Gone(key, b);
      }
    }
  }

  ghost function GroupGone(token: bytes, args: seq<bytes>, index: nat, n: nat): iset<(bytes, nat)> {
    iset nonce: nat | InGroup(args, index, n, nonce) :: (token, nonce)
  }

  lemma {:induction false} IntervalsGone(m: Entries, token: bytes, args: seq<bytes>, index: nat, n: nat)
    requires ValidToken(token) && RemoveIntervals(m, token, args, index, n).Some?
    ensures Without(m, RemoveIntervals(m, token, args, index, n).value, GroupGone(token, args, index, n))
  {
    hide Without, RemoveRange, ValidToken;
    if n == 0 {
      NothingGone(m, GroupGone(token, args, index, 0));
    } else {
      var j := index + 2 * (n - 1);
      var front := RemoveIntervals(m, token, args, index, n - 1).value;
      var start, end := ToUint64(args[j]), ToUint64(args[j + 1]);
      IntervalsGone(m, token, args, index, n - 1);
      RangeGone(front, token, start, end);
      GoneThen(m, front, RemoveRange(front, token, start, end), GroupGone(token, args, index, n - 1),
               iset x: nat | start <= x <= end :: (token, x), GroupGone(token, args, index, n));
    }
  }

  lemma NothingGone(m: Entries, none: iset<(bytes, nat)>)
    requires forall p :: p !in none
    ensures Without(m, m, none)
  {
  }

  ghost function ListGone(args: seq<bytes>, i: nat): iset<(bytes, nat)> {
    iset token: bytes, nonce: nat | Listed(args, i, token, nonce) :: (token, nonce)
  }

  lemma {:induction false} GroupsGone(m: Entries, args: seq<bytes>, i: nat)
    requires RemoveGroups(m, args, i).Some?
    ensures Without(m, RemoveGroups(m, args, i).value, ListGone(args, i))
    decreases |args| - i
  {
    hide Without, RemoveIntervals, ValidToken;
    if i + 1 >= |args| {
      NothingGone(m, ListGone(args, i));
    } else {
      var token, n := args[i], ToUint64(args[i + 1]);
      var mid := RemoveIntervals(m, token, args, i + 2, n).value;
      IntervalsGone(m, token, args, i + 2, n);
      GroupsGone(mid, args, i + 2 + 2 * n);
      GoneThen(m, mid, RemoveGroups(m, args, i).value, GroupGone(token, args, i + 2, n), ListGone(args, i + 2 + 2 * n),
               ListGone(args, i));
    }
  }

  // Interval p of the group whose intervals begin at index is there, starts
  // above zero and does not end before it starts.
  predicate IntervalFits(args: seq<bytes>, index: nat, p: nat) {
    var j := index + 2 * p;
    j + 1 < |args| && 0 < ToUint64(args[j]) <= ToUint64(args[j + 1])
  }

  predicate IntervalsFit(args: seq<bytes>, index: nat, n: nat) {
    forall p :: 0 <= p < n ==> IntervalFits(args, index, p)
  }

  predicate GroupFits(args: seq<bytes>, i: nat)
    requires i + 1 < |args|
  {
    ValidToken(args[i]) && i + 2 < |args| && IntervalsFit(args, i + 2, ToUint64(args[i + 1]))
  }

  // Every group from argument i on is of a valid token with intervals that fit.
  predicate GroupsFit(args: seq<bytes>, i: nat)
    decreases |args| - i
  {
    i + 1 < |args| ==> GroupFits(args, i) && GroupsFit(args, i + 2 + 2 * ToUint64(args[i + 1]))
  }

  lemma {:induction false} IntervalsIff(m: Entries, token: bytes, args: seq<bytes>, index: nat, n: nat)
    ensures RemoveIntervals(m, token, args, index, n).Some? <==> IntervalsFit(args, index, n)
  {
    if n > 0 {
      IntervalsIff(m, token, args, index, n - 1);
      assert IntervalFits(args, index, n - 1)
             <==> index + 2 * (n - 1) + 1 < |args|
                  && 0 < ToUint64(args[index + 2 * (n - 1)]) <= ToUint64(args[index + 2 * (n - 1) + 1]);
    }
  }

  lemma {:induction false} GroupsIff(m: Entries, args: seq<bytes>, i: nat)
    ensures RemoveGroups(m, args, i).Some? <==> GroupsFit(args, i)
    decreases |args| - i
  {
    hide RemoveIntervals, IntervalsFit, ValidToken;
    if i + 1 < |args| {
      var n := ToUint64(args[i + 1]);
      IntervalsIff(m, args[i], args, i + 2, n);
      var mid := RemoveIntervals(m, args[i], args, i + 2, n);
      if mid.Some? {
        GroupsIff(mid.value, args, i + 2 + 2 * n);
      }
    }
  }

  // A deletion succeeds exactly for at least four arguments of which every
  // group fits, whatever metadata there is.
  lemma DeletesIff(m: Entries, args: seq<bytes>)
    ensures Deleted(m, args).Some? <==> |args| >= 4 && GroupsFit(args, 0)
  {
    hide RemoveGroups, GroupsFit;
    GroupsIff(m, args, 0);
  }

  // On success exactly the metadata of the listed tokens and nonces is gone,
  // and everything else is as it was.
  lemma DeletesListed(m: Entries, args: seq<bytes>, token: bytes, nonce: nat)
    requires Deleted(m, args).Some?
    ensures var after := Deleted(m, args).value;
            && (ValidToken(token) ==>
                  (TokenKey(token, nonce) in after <==> TokenKey(token, nonce) in m && !Listed(args, 0, token, nonce)))
            && (forall key :: key in after ==> key in m && after[key] == m[key])
            && (forall key :: key in m && key !in after ==> Gone(key, ListGone(args, 0)))
  {
    hide TokenKey, ValidToken, RemoveGroups, Listed;
    GroupsGone(m, args, 0);
  }

  // ---- what is added ----

  predicate Addable(m: Entries, a: Addition) {
    WellFormed(a) && (KeyOf(a) in m ==> m[KeyOf(a)].meta.None?)
  }

  predicate Distinct(list: seq<Addition>) {
    forall i, j :: 0 <= i < j < |list| ==> (list[i].token, list[i].nonce) != (list[j].token, list[j].nonce)
  }

  // An entry that was there keeps all but its metadata; a new one is of an NFT
  // and holds nothing else.
  predicate Entered(m: Entries, key: bytes, meta: MetaData, entry: Token) {
    && entry.meta == Some(meta)
    && if key in m then
         && entry.kind == m[key].kind && entry.value == m[key].value
         && entry.properties == m[key].properties && entry.reserved == m[key].reserved
       else entry.kind == NonFungible && entry.value == 0 && entry.properties == [] && entry.reserved == None
  }

  ghost predicate Added(m: Entries, after: Entries, list: seq<Addition>) {
    && (forall i :: 0 <= i < |list| && list[i].meta.Some? ==>
          KeyOf(list[i]) in after && Entered(m, KeyOf(list[i]), list[i].meta.value, after[KeyOf(list[i])]))
    && (forall key :: (forall i :: 0 <= i < |list| ==> key != KeyOf(list[i])) ==>
          (key in after <==> key in m) && (key in m ==> after[key] == m[key]))
  }

  predicate AllAddable(m: Entries, list: seq<Addition>) {
    forall i :: 0 <= i < |list| ==> Addable(m, list[i])
  }

  // Adding succeeds exactly when the entries are well-formed, pairwise
  // distinct and without metadata before; then exactly they are set.
  lemma {:induction false} AddsListed(m: Entries, list: seq<Addition>)
    ensures AddAll(m, list).Some? <==> AllAddable(m, list) && Distinct(list)
    ensures AddAll(m, list).Some? ==> Added(m, AddAll(m, list).value, list)
    decreases |list|
  {
    hide ValidToken, TokenKey, AddOne, Added, AllAddable, Distinct;
    if |list| == 0 {
      NothingAdded(m, list);
    } else {
      var n := |list| - 1;
      AddsListed(m, list[..n]);
      Fronts(m, list);
      assert list == list[..n] + [list[n]];
      if AddAll(m, list[..n]).Some? {
        AddsLast(m, AddAll(m, list[..n]).value, list[..n], list[n]);
      }
    }
  }

  lemma NothingAdded(m: Entries, list: seq<Addition>)
    requires |list| == 0
    ensures AllAddable(m, list) && Distinct(list) && Added(m, m, list)
  {
  }

  lemma Fronts(m: Entries, list: seq<Addition>)
    requires |list| > 0
    ensures AllAddable(m, list) ==> AllAddable(m, list[..|list| - 1])
    ensures Distinct(list) ==> Distinct(list[..|list| - 1])
  {
  }

  lemma AddsLast(m: Entries, mid: Entries, front: seq<Addition>, a: Addition)
    requires AllAddable(m, front) && Distinct(front) && Added(m, mid, front)
    ensures AddOne(mid, a).Some? <==> AllAddable(m, front + [a]) && Distinct(front + [a])
    ensures AddOne(mid, a).Some? ==> Added(m, AddOne(mid, a).value, front + [a])
  {
    hide TokenKey, ValidToken;
    var all := front + [a];
    assert AllAddable(m, all) <==> Addable(m, a) by {
      assert all[|front|] == a && forall i :: 0 <= i < |front| ==> all[i] == front[i];
    }
    if WellFormed(a) {
      forall i | 0 <= i < |front|
        ensures KeyOf(front[i]) == KeyOf(a) <==> (front[i].token, front[i].nonce) == (a.token, a.nonce)
      {
        assert Addable(m, front[i]);
        KeyInjective(front[i].token, front[i].nonce, a.token, a.nonce);
      }
      if i :| 0 <= i < |front| && KeyOf(front[i]) == KeyOf(a) {
        assert all[i] == front[i] && all[|front|] == a;
        assert Addable(m, front[i]);
      } else {
        assert Distinct(all);
        NewKey(m, mid, front, a);
      }
    }
  }

  lemma NewKey(m: Entries, mid: Entries, front: seq<Addition>, a: Addition)
    requires Added(m, mid, front) && WellFormed(a) && forall i :: 0 <= i < |front| ==> KeyOf(front[i]) != KeyOf(a)
    ensures AddOne(mid, a).Some? <==> Addable(m, a)
    ensures AddOne(mid, a).Some? ==> Added(m, AddOne(mid, a).value, front + [a])
  {
    hide TokenKey, ValidToken;
    if AddOne(mid, a).Some? {
      var after, all := AddOne(mid, a).value, front + [a];
      forall key | forall i :: 0 <= i < |all| ==> key != KeyOf(all[i])
        ensures (key in after <==> key in m) && (key in m ==> after[key] == m[key])
      {
        assert all[|front|] == a;
        assert forall i :: 0 <= i < |front| ==> all[i] == front[i];
      }
    }
  }
}
