// Role lists of an account, and the list of addresses with the transfer role:
// slices that are appended to and deleted from in place.
module Roles {
  import opened Bytes

  // "ESDTRoleNFTCreate"
  const NFT_CREATE: bytes := [
    0x45, 0x53, 0x44, 0x54, 0x52, 0x6F, 0x6C, 0x65, 0x4E, 0x46, 0x54, 0x43, 0x72, 0x65, 0x61, 0x74, 0x65]

  // "ESDTRoleNFTCreateMultiShard"
  const NFT_CREATE_MULTI_SHARD: bytes := NFT_CREATE + [0x4D, 0x75, 0x6C, 0x74, 0x69, 0x53, 0x68, 0x61, 0x72, 0x64]

  // ---- specification ----

  function FirstIndex(s: seq<bytes>, r: bytes): (i: nat)
    ensures i <= |s|
    ensures i < |s| ==> s[i] == r
    ensures r !in s[..i]
  {
    if |s| == 0 then 0 else if s[0] == r then 0 else
      var i := FirstIndex(s[1..], r) + 1;
      assert s[..i] == [s[0]] + s[1..][..i - 1];
      i
  }

  function RemoveFirst(s: seq<bytes>, r: bytes): seq<bytes> {
    var i := FirstIndex(s, r);
    if i == |s| then s else s[..i] + s[i + 1..]
  }

  function RemoveEach(s: seq<bytes>, rs: seq<bytes>): seq<bytes> {
    if |rs| == 0 then s else RemoveFirst(RemoveEach(s, rs[..|rs| - 1]), rs[|rs| - 1])
  }

  function AddMissing(s: seq<bytes>, rs: seq<bytes>): seq<bytes> {
    if |rs| == 0 then s
    else
      var front, last := AddMissing(s, rs[..|rs| - 1]), rs[|rs| - 1];
      if last in front then front else front + [last]
  }

  // ---- the slice ----

  class RoleList {
    var data: array<bytes>
    var len: nat

    ghost predicate Valid()
      reads this
    {
      len <= data.Length
    }

    ghost function Contents(): seq<bytes>
      reads this, data
      requires Valid()
    {
      data[..len]
    }

    constructor (roles: seq<bytes>)
      ensures Valid() && fresh(data) && Contents() == roles
    {
      len := |roles|;
      data := new bytes[|roles|](i requires 0 <= i < |roles| => roles[i]);
      new;
      assert data[..len] == roles;
    }

    // doesRoleExist: the index of the first such role, or -1.
    method Find(role: bytes) returns (index: int)
      requires Valid()
      ensures index == if role in Contents() then FirstIndex(Contents(), role) else -1
      ensures index >= 0 ==> index < len && Contents()[index] == role
    {
      var i := 0;
      while i < len
        invariant 0 <= i <= len && role !in data[..i]
      {
        if data[i] == role {
          FirstIndexIs(Contents(), role, i);
          return i;
        }
        i := i + 1;
      }
      index := -1;
    }

    // Shifts what follows the index one place down and shortens the slice.
    method DeleteAt(index: nat)
      requires Valid() && index < len
      modifies this`len, data
      ensures Valid() && data == old(data)
      ensures Contents() == old(Contents())[..index] + old(Contents())[index + 1..]
    {
      var i := index;
      ghost var was := Contents();
      while i + 1 < len
        invariant index <= i < len == |was|
        invariant data[..i] == was[..index] + was[index + 1..i + 1]
        invariant data[i + 1..len] == was[i + 1..]
      {
        data[i] := data[i + 1];
        assert was[index + 1..i + 2] == was[index + 1..i + 1] + [was[i + 1]];
        i := i + 1;
      }
      len := len - 1;
    }

    method DeleteRole(role: bytes)
      requires Valid()
      modifies this`len, data
      ensures Valid() && data == old(data)
      ensures Contents() == RemoveFirst(old(Contents()), role)
    {
      var index := Find(role);
      if index >= 0 {
        DeleteAt(index);
      }
    }

    method DeleteRoles(roles: seq<bytes>)
      requires Valid()
      modifies this`len, data
      ensures Valid() && data == old(data)
      ensures Contents() == RemoveEach(old(Contents()), roles)
    {
      hide RemoveFirst, RemoveEach;
      RemoveNone(Contents(), roles[..0]);
      var i := 0;
      while i < |roles|
        invariant 0 <= i <= |roles| && Valid()
        invariant Contents() == RemoveEach(old(Contents()), roles[..i])
      {
        ghost var before := Contents();
        DeleteRole(roles[i]);
        RemoveStep(old(Contents()), roles, i, before, Contents());
        i := i + 1;
      }
      assert roles[..i] == roles;
    }

    method Append(role: bytes)
      requires Valid()
      modifies this, data
      ensures Valid() && (data == old(data) || fresh(data))
      ensures Contents() == old(Contents()) + [role]
    {
      if len == data.Length {
        var old_, n := data, len;
        data := new bytes[2 * n + 1](i requires 0 <= i < 2 * n + 1 reads old_ requires old_.Length == n =>
          if i < n then old_[i] else role);
        assert data[..n] == old_[..];
      } else {
        data[len] := role;
      }
      len := len + 1;
    }

    method AppendAll(roles: seq<bytes>)
      requires Valid()
      modifies this, data
      ensures Valid() && (data == old(data) || fresh(data))
      ensures Contents() == old(Contents()) + roles
    {
      var i := 0;
      while i < |roles|
        invariant 0 <= i <= |roles| && Valid() && (data == old(data) || fresh(data))
        invariant Contents() == old(Contents()) + roles[..i]
      {
        Append(roles[i]);
        i := i + 1;
      }
    }

    // addNewAddresses
    method AddNewAddresses(addresses: seq<bytes>, max: nat) returns (ok: bool)
      requires Valid()
      modifies this, data
      ensures Valid() && (data == old(data) || fresh(data))
      ensures Contents() == AddMissing(old(Contents()), addresses)
      ensures ok <==> Low32(|Contents()|) <= max
    {
      var i := 0;
      while i < |addresses|
        invariant 0 <= i <= |addresses| && Valid() && (data == old(data) || fresh(data))
        invariant Contents() == AddMissing(old(Contents()), addresses[..i])
      {
        ghost var before := Contents();
        var index := Find(addresses[i]);
        if index < 0 {
          Append(addresses[i]);
        }
        AddStep(old(Contents()), addresses, i, before, Contents());
        i := i + 1;
      }
      assert addresses[..i] == addresses;
      ok := Low32(len) <= max;
    }
  }

  lemma {:induction false} FirstIndexIs(s: seq<bytes>, r: bytes, i: nat)
    requires i < |s| && s[i] == r && r !in s[..i]
    ensures FirstIndex(s, r) == i
  {
  }

  lemma RemoveNone(s: seq<bytes>, rs: seq<bytes>)
    requires |rs| == 0
    ensures RemoveEach(s, rs) == s
  {
  }

  lemma RemoveStep(s: seq<bytes>, rs: seq<bytes>, i: nat, before: seq<bytes>, after: seq<bytes>)
    requires i < |rs| && before == RemoveEach(s, rs[..i]) && after == RemoveFirst(before, rs[i])
    ensures after == RemoveEach(s, rs[..i + 1])
  {
    hide RemoveFirst;
    assert rs[..i + 1][..i] == rs[..i];
  }

  lemma AddStep(s: seq<bytes>, rs: seq<bytes>, i: nat, before: seq<bytes>, after: seq<bytes>)
    requires i < |rs| && before == AddMissing(s, rs[..i])
    requires after == if rs[i] in before then before else before + [rs[i]]
    ensures after == AddMissing(s, rs[..i + 1])
  {
    assert rs[..i + 1][..i] == rs[..i];
  }

  // ---- setting and unsetting ----

  lemma RemoveFirstCounts(s: seq<bytes>, r: bytes)
    ensures multiset(RemoveFirst(s, r)) == multiset(s) - multiset{r}
    ensures r !in s <==> RemoveFirst(s, r) == s
  {
    var i := FirstIndex(s, r);
    if i < |s| {
      assert s == s[..i] + [r] + s[i + 1..];
    } else {
      assert s[..i] == s;
    }
  }

  // Removing takes away one occurrence for each one asked for, while there
  // are any.
  lemma {:induction false} RemoveEachCounts(s: seq<bytes>, rs: seq<bytes>)
    ensures multiset(RemoveEach(s, rs)) == multiset(s) - multiset(rs)
  {
    hide RemoveFirst;
    if |rs| > 0 {
      var front, last := rs[..|rs| - 1], rs[|rs| - 1];
      RemoveEachCounts(s, front);
      RemoveFirstCounts(RemoveEach(s, front), last);
      assert rs == front + [last];
    }
  }

  // Setting roles and then unsetting the same ones gives back the same roles,
  // each as often as before.
  lemma SetThenUnset(s: seq<bytes>, rs: seq<bytes>)
    ensures multiset(RemoveEach(s + rs, rs)) == multiset(s)
  {
    RemoveEachCounts(s + rs, rs);
  }

  // In the same order too, when none of them was there before.
  lemma {:induction false} SetThenUnsetInOrder(s: seq<bytes>, rs: seq<bytes>, rest: seq<bytes>)
    requires forall r :: r in rs ==> r !in s
    ensures RemoveEach(s + rs + rest, rs) == s + rest
  {
    if |rs| == 0 {
      assert s + rs + rest == s + rest;
    } else {
      var n := |rs| - 1;
      var r := rs[n];
      assert s + rs + rest == s + rs[..n] + ([r] + rest);
      SetThenUnsetInOrder(s, rs[..n], [r] + rest);
      var left := s + ([r] + rest);
      assert left[|s|] == r && left[..|s|] == s;
      FirstIndexIs(left, r, |s|);
      assert left[..|s|] + left[|s| + 1..] == s + rest;
    }
  }

  // The order is lost when a set role was already there.
  lemma OrderLost(a: bytes, b: bytes)
    requires a != b
    ensures RemoveEach([a, b] + [a], [a]) == [b, a]
  {
    assert [a][..0] == [];
    assert RemoveEach([a, b] + [a], [a]) == RemoveFirst([a, b, a], a);
    FirstIndexIs([a, b, a], a, 0);
  }

  // ---- the transfer-address list over runs ----

  ghost predicate NoDuplicates(s: seq<bytes>) {
    forall i, j :: 0 <= i < j < |s| ==> s[i] != s[j]
  }

  lemma {:induction false} AddMissingKeeps(s: seq<bytes>, rs: seq<bytes>)
    requires NoDuplicates(s)
    ensures NoDuplicates(AddMissing(s, rs))
    ensures |s| <= |AddMissing(s, rs)| <= |s| + |rs|
    ensures forall a :: a in AddMissing(s, rs) <==> a in s || a in rs
  {
    if |rs| > 0 {
      AddMissingKeeps(s, rs[..|rs| - 1]);
      assert rs == rs[..|rs| - 1] + [rs[|rs| - 1]];
    }
  }

  lemma {:induction false} RemoveEachKeeps(s: seq<bytes>, rs: seq<bytes>)
    requires NoDuplicates(s)
    ensures NoDuplicates(RemoveEach(s, rs)) && |RemoveEach(s, rs)| <= |s|
    ensures forall a :: a in RemoveEach(s, rs) <==> a in s && a !in rs
  {
    if |rs| > 0 {
      var front, last := RemoveEach(s, rs[..|rs| - 1]), rs[|rs| - 1];
      RemoveEachKeeps(s, rs[..|rs| - 1]);
      assert rs == rs[..|rs| - 1] + [last];
      RemoveFirstKeeps(front, last);
    }
  }

  lemma RemoveFirstKeeps(s: seq<bytes>, r: bytes)
    requires NoDuplicates(s)
    ensures NoDuplicates(RemoveFirst(s, r)) && |RemoveFirst(s, r)| <= |s|
    ensures forall a :: a in RemoveFirst(s, r) <==> a in s && a != r
  {
    var i := FirstIndex(s, r);
    if i < |s| {
      assert s == s[..i] + [r] + s[i + 1..];
      assert forall j :: i < j < |s| ==> s[j] != r;
    } else {
      assert s[..i] == s;
    }
  }

  datatype AddressCall = AddAddresses(addresses: seq<bytes>) | DeleteAddresses(addresses: seq<bytes>)

  // A call that fails is rolled back.
  function AddressStep(s: seq<bytes>, call: AddressCall, max: nat): seq<bytes> {
    match call
    case AddAddresses(rs) => var added := AddMissing(s, rs); if Low32(|added|) > max then s else added
    case DeleteAddresses(rs) => RemoveEach(s, rs)
  }

  // A call that succeeds lists what was listed or named for addition, and no
  // longer what was named for deletion.
  lemma AddressStepLists(s: seq<bytes>, call: AddressCall, max: nat)
    requires NoDuplicates(s)
    ensures call.AddAddresses? ==>
              if Low32(|AddMissing(s, call.addresses)|) > max then AddressStep(s, call, max) == s
              else forall a :: a in AddressStep(s, call, max) <==> a in s || a in call.addresses
    ensures call.DeleteAddresses? ==>
              forall a :: a in AddressStep(s, call, max) <==> a in s && a !in call.addresses
  {
    AddMissingKeeps(s, call.addresses);
    RemoveEachKeeps(s, call.addresses);
  }

  function AddressRun(s: seq<bytes>, calls: seq<AddressCall>, max: nat): seq<bytes> {
    if |calls| == 0 then s else AddressStep(AddressRun(s, calls[..|calls| - 1], max), calls[|calls| - 1], max)
  }

  // Over any run of additions and deletions the list has no duplicates and
  // stays within the maximum, while no call makes its length wrap 32 bits.
  lemma {:induction false} AddressListBounded(s: seq<bytes>, calls: seq<AddressCall>, max: nat)
    requires NoDuplicates(s) && |s| <= max
    requires forall i :: 0 <= i < |calls| ==> max + |calls[i].addresses| < TWO32
    ensures NoDuplicates(AddressRun(s, calls, max)) && |AddressRun(s, calls, max)| <= max
  {
    if |calls| > 0 {
      var n := |calls| - 1;
      AddressListBounded(s, calls[..n], max);
      var front := AddressRun(s, calls[..n], max);
      AddMissingKeeps(front, calls[n].addresses);
      RemoveEachKeeps(front, calls[n].addresses);
    }
  }
}
