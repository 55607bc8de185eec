// Who may create the items of a token, and the nonce each one gets: the
// create role and its counter, handed over between accounts directly or by a
// message.
module CreateRole {
  import opened Bytes
  import opened Tokens
  import Roles

  // The storage keys hold one list and one counter an account and token.
  datatype Cell = Cell(holder: Address, token: bytes)

  datatype Owners = Owners(nonces: map<Cell, bytes>, roles: map<Cell, seq<bytes>>)

  function LatestNonce(o: Owners, c: Cell): (n: nat)
    ensures n < TWO64
  {
    if c in o.nonces then ToUint64(o.nonces[c]) else 0
  }

  function RolesOf(o: Owners, c: Cell): seq<bytes> {
    if c in o.roles then o.roles[c] else []
  }

  function SaveNonce(o: Owners, c: Cell, n: nat): Owners {
    o.(nonces := o.nonces[c := ToBytes(n)])
  }

  function SaveRoles(o: Owners, c: Cell, roles: seq<bytes>): Owners {
    o.(roles := o.roles[c := roles])
  }

  function AddRole(o: Owners, c: Cell): Owners {
    if Roles.NFT_CREATE in RolesOf(o, c) then o else SaveRoles(o, c, RolesOf(o, c) + [Roles.NFT_CREATE])
  }

  // copy: sent although the receiver was already changed in the same shard.
  datatype Message = Message(to: Address, token: bytes, nonce: bytes, copy: bool)

  datatype HandedOver = HandedOver(owners: Owners, message: Message)

  // The nonce a create gives out, and the counter after it; None without the
  // role.
  function CreateNext(o: Owners, c: Cell): Option<nat> {
    if Roles.NFT_CREATE in RolesOf(o, c) then Some(Low64(LatestNonce(o, c) + 1)) else None
  }

  function AtCurrentOwner(o: Owners, from: Cell, to: Address, sameShard: bool): HandedOver {
    var nonce, next := LatestNonce(o, from), Cell(to, from.token);
    var released := SaveRoles(SaveNonce(o, from, 0), from, Roles.RemoveFirst(RolesOf(o, from), Roles.NFT_CREATE));
    HandedOver(
      if sameShard then AddRole(SaveNonce(released, next, nonce), next) else released,
      Message(to, from.token, ToBytes(nonce), sameShard))
  }

  function AtNextOwner(o: Owners, m: Message): Owners {
    var c := Cell(m.to, m.token);
    AddRole(SaveNonce(o, c, ToUint64(m.nonce)), c)
  }

  // MaxUint64 / 256
  const RANGE: nat := (TWO64 - 1) / 256

  // computeStartNonce
  function StartNonce(address: bytes): nat
    requires |address| > 0
  {
    RANGE * address[|address| - 1]
  }

  // Setting or unsetting roles; naming the multi-shard role, in either
  // direction, sends the counter to the account's start nonce.
  function ChangeRoles(o: Owners, c: Cell, set_: bool, names: seq<bytes>): Owners
    requires |c.holder| > 0
  {
    var started := if Roles.NFT_CREATE_MULTI_SHARD in names then SaveNonce(o, c, StartNonce(c.holder)) else o;
    SaveRoles(started, c, if set_ then RolesOf(o, c) + names else Roles.RemoveEach(RolesOf(o, c), names))
  }

  // ---- what one call changes ----

  function Times(o: Owners, c: Cell): nat {
    multiset(RolesOf(o, c))[Roles.NFT_CREATE]
  }

  // Cells other than these two keep counter and roles.
  ghost predicate OnlyCells(before: Owners, after: Owners, c: Cell, d: Cell) {
    forall e :: e != c && e != d ==>
      LatestNonce(after, e) == LatestNonce(before, e) && RolesOf(after, e) == RolesOf(before, e)
  }

  // A number was given out: the next one will be its successor.
  ghost predicate Counted(before: Owners, after: Owners, c: Cell, n: nat) {
    && n == Low64(LatestNonce(before, c) + 1) && CreateNext(after, c) == Some(Low64(n + 1))
    && after.roles == before.roles && OnlyCells(before, after, c, c)
  }

  lemma CreateCounts(o: Owners, c: Cell)
    requires CreateNext(o, c).Some?
    ensures Counted(o, SaveNonce(o, c, CreateNext(o, c).value), c, CreateNext(o, c).value)
  {
    Uint64RoundTrip(CreateNext(o, c).value);
  }

  // Where the role is after a hand-over, the next item is the one the old
  // owner would have created; the old owner creates no more.
  ghost predicate HandsOver(before: Owners, after: Owners, from: Cell, m: Message) {
    var next := Cell(m.to, from.token);
    var arrived := if m.copy then after else AtNextOwner(after, m);
    && m.token == from.token && OnlyCells(before, after, from, next)
    && LatestNonce(arrived, next) == LatestNonce(before, from) && CreateNext(arrived, next).Some?
    && (CreateNext(before, from).Some? ==> CreateNext(arrived, next) == CreateNext(before, from))
    && (next != from ==> LatestNonce(after, from) == 0 && (Times(before, from) <= 1 ==> CreateNext(after, from).None?))
  }

  lemma Released(o: Owners, c: Cell)
    ensures var o' := SaveRoles(SaveNonce(o, c, 0), c, Roles.RemoveFirst(RolesOf(o, c), Roles.NFT_CREATE));
            && LatestNonce(o', c) == 0 && OnlyCells(o, o', c, c)
            && (Times(o, c) <= 1 ==> CreateNext(o', c).None?)
  {
    hide Roles.RemoveFirst;
    Roles.RemoveFirstCounts(RolesOf(o, c), Roles.NFT_CREATE);
    Uint64RoundTrip(0);
  }

  lemma Given(o: Owners, c: Cell, n: nat)
    requires n < TWO64
    ensures var o' := AddRole(SaveNonce(o, c, n), c);
            LatestNonce(o', c) == n && CreateNext(o', c) == Some(Low64(n + 1)) && OnlyCells(o, o', c, c)
  {
    Uint64RoundTrip(n);
  }

  lemma HandOverEffects(o: Owners, from: Cell, to: Address, sameShard: bool)
    ensures var h := AtCurrentOwner(o, from, to, sameShard); HandsOver(o, h.owners, from, h.message)
  {
    hide Roles.RemoveFirst, SaveNonce, SaveRoles, AddRole, LatestNonce, RolesOf, Low64;
    var n, next := LatestNonce(o, from), Cell(to, from.token);
    var released := SaveRoles(SaveNonce(o, from, 0), from, Roles.RemoveFirst(RolesOf(o, from), Roles.NFT_CREATE));
    Uint64RoundTrip(n);
    Released(o, from);
    Given(released, next, n);
  }

  // The arrival of a hand-over sets the receiver's counter and gives it the
  // role, once.
  ghost predicate TakesOver(before: Owners, after: Owners, m: Message) {
    var c := Cell(m.to, m.token);
    && LatestNonce(after, c) == ToUint64(m.nonce)
    && Times(after, c) == (if Times(before, c) == 0 then 1 else Times(before, c))
    && OnlyCells(before, after, c, c)
  }

  lemma Arrives(o: Owners, m: Message)
    ensures TakesOver(o, AtNextOwner(o, m), m)
  {
    Uint64RoundTrip(ToUint64(m.nonce));
  }

  // ---- the functions as they run ----

  class RoleStore {
    var nonces: map<Cell, bytes>
    var roles: map<Cell, seq<bytes>>

    function State(): Owners
      reads this
    {
      Owners(nonces, roles)
    }

    method GetLatestNonce(c: Cell) returns (n: nat)
      ensures n == LatestNonce(State(), c)
    {
      if c !in nonces || |nonces[c]| == 0 {
        return 0;
      }
      n := ToUint64(nonces[c]);
    }

    method SaveLatestNonce(c: Cell, n: nat)
      modifies this
      ensures State() == SaveNonce(old(State()), c, n)
    {
      nonces := nonces[c := ToBytes(n)];
    }

    method AddCreateRole(c: Cell)
      modifies this
      ensures State() == AddRole(old(State()), c)
    {
      var list := new Roles.RoleList(RolesOf(State(), c));
      var index := list.Find(Roles.NFT_CREATE);
      if index >= 0 {
        return;
      }
      list.Append(Roles.NFT_CREATE);
      roles := roles[c := list.data[..list.len]];
    }

    method DeleteCreateRole(c: Cell)
      modifies this
      ensures State() == SaveRoles(old(State()), c, Roles.RemoveFirst(RolesOf(old(State()), c), Roles.NFT_CREATE))
    {
      hide Roles.RemoveFirst;
      var list := new Roles.RoleList(RolesOf(State(), c));
      list.DeleteRole(Roles.NFT_CREATE);
      roles := roles[c := list.data[..list.len]];
    }

    method SetOrUnsetRoles(c: Cell, set_: bool, names: seq<bytes>)
      requires |c.holder| > 0
      modifies this
      ensures State() == ChangeRoles(old(State()), c, set_, names)
    {
      hide Roles.RemoveEach, StartNonce;
      var list := new Roles.RoleList(RolesOf(State(), c));
      if set_ {
        list.AppendAll(names);
      } else {
        list.DeleteRoles(names);
      }
      var i := 0;
      while i < |names|
        invariant 0 <= i <= |names| && State() == old(State())
        invariant Roles.NFT_CREATE_MULTI_SHARD !in names[..i]
      {
        if names[i] == Roles.NFT_CREATE_MULTI_SHARD {
          SaveLatestNonce(c, StartNonce(c.holder));
          break;
        }
        i := i + 1;
      }
      assert i == |names| ==> names[..i] == names;
      roles := roles[c := list.data[..list.len]];
    }

    method NextNonce(c: Cell) returns (r: Option<nat>)
      modifies this
      ensures r.Some? <==> Roles.NFT_CREATE in RolesOf(old(State()), c)
      ensures if r.Some? then Counted(old(State()), State(), c, r.value) else State() == old(State())
      ensures r == CreateNext(old(State()), c)
      ensures r.Some? ==> State() == SaveNonce(old(State()), c, r.value)
    {
      hide Counted;
      ghost var next := CreateNext(State(), c);
      if next.Some? {
        CreateCounts(State(), c);
      }
      if Roles.NFT_CREATE !in RolesOf(State(), c) {
        return None;
      }
      var nonce := GetLatestNonce(c);
      nonce := Low64(nonce + 1);
      SaveLatestNonce(c, nonce);
      r := Some(nonce);
    }

    method TransferAtCurrentOwner(from: Cell, to: Address, sameShard: bool) returns (m: Message)
      modifies this
      ensures m.to == to && m.copy == sameShard && HandsOver(old(State()), State(), from, m)
      ensures HandedOver(State(), m) == AtCurrentOwner(old(State()), from, to, sameShard)
    {
      hide Roles.RemoveFirst, HandsOver;
      HandOverEffects(State(), from, to, sameShard);
      var nonce := GetLatestNonce(from);
      SaveLatestNonce(from, 0);
      DeleteCreateRole(from);
      if sameShard {
        SaveLatestNonce(Cell(to, from.token), nonce);
        AddCreateRole(Cell(to, from.token));
      }
      m := Message(to, from.token, ToBytes(nonce), sameShard);
    }

    method TransferAtNextOwner(m: Message)
      modifies this
      ensures TakesOver(old(State()), State(), m)
      ensures State() == AtNextOwner(old(State()), m)
    {
      hide TakesOver;
      Arrives(State(), m);
      SaveLatestNonce(Cell(m.to, m.token), ToUint64(m.nonce));
      AddCreateRole(Cell(m.to, m.token));
    }
  }

  // ---- runs ----

  datatype Minted = Minted(token: bytes, nonce: nat)

  datatype State = State(owners: Owners, inFlight: seq<Message>, minted: seq<Minted>)

  datatype Step = Create(cell: Cell) | HandOver(from: Cell, to: Address, sameShard: bool) | Deliver(index: nat)

  function Next(s: State, step: Step): State {
    match step
    case Create(c) =>
      var n := CreateNext(s.owners, c);
      if n.None? then s
      else s.(owners := SaveNonce(s.owners, c, n.value), minted := s.minted + [Minted(c.token, n.value)])
    case HandOver(from, to, sameShard) =>
      var h := AtCurrentOwner(s.owners, from, to, sameShard);
      s.(owners := h.owners, inFlight := s.inFlight + [h.message])
    case Deliver(i) =>
      if i >= |s.inFlight| then s
      else s.(owners := AtNextOwner(s.owners, s.inFlight[i]), inFlight := s.inFlight[..i] + s.inFlight[i + 1..])
  }

  function MessagesOf(ms: seq<Message>, token: bytes): seq<Message> {
    if |ms| == 0 then []
    else
      var last := ms[|ms| - 1];
      MessagesOf(ms[..|ms| - 1], token) + if last.token == token then [last] else []
  }

  function CountOf(minted: seq<Minted>, token: bytes): nat {
    if |minted| == 0 then 0
    else CountOf(minted[..|minted| - 1], token) + if minted[|minted| - 1].token == token then 1 else 0
  }

  // A same-shard hand-over's copy arrives before anything else happens to the
  // token.
  predicate Settled(s: State, token: bytes) {
    |MessagesOf(s.inFlight, token)| == 0
  }

  // The environment: hand-overs are asked of the current owner, to another
  // account, and the counter does not reach its last value.
  predicate Allowed(s: State, step: Step) {
    match step
    case Create(c) => (Roles.NFT_CREATE in RolesOf(s.owners, c) ==> Settled(s, c.token)) && |s.minted| < TWO64 - 1
    case HandOver(from, to, _) =>
      Roles.NFT_CREATE in RolesOf(s.owners, from) && to != from.holder && Settled(s, from.token)
    case Deliver(_) => true
  }

  function Run(s: State, steps: seq<Step>): State {
    if |steps| == 0 then s else Next(Run(s, steps[..|steps| - 1]), steps[|steps| - 1])
  }

  predicate AllAllowed(s: State, steps: seq<Step>) {
    forall i :: 0 <= i < |steps| ==> Allowed(Run(s, steps[..i]), steps[i])
  }

  // ---- the invariant ----

  // Nobody but the owner, if there is one, has the role, and the owner has it
  // once.
  ghost predicate OnlyOwner(o: Owners, token: bytes, owner: Option<Address>) {
    forall a: Address :: Times(o, Cell(a, token)) == if owner == Some(a) then 1 else 0
  }

  predicate CopyFor(m: Message, to: Address, n: nat) {
    m.copy && m.to == to && ToUint64(m.nonce) == n
  }

  // Where the create role of a token is.
  datatype Place = With(owner: Address) | OnTheWay | Unassigned

  function OwnerAt(p: Place): Option<Address> {
    if p.With? then Some(p.owner) else None
  }

  ghost predicate InvWith(s: State, token: bytes, p: Place) {
    var n, ms := CountOf(s.minted, token), MessagesOf(s.inFlight, token);
    && OnlyOwner(s.owners, token, OwnerAt(p))
    && n < TWO64
    && match p
       case With(a) =>
         LatestNonce(s.owners, Cell(a, token)) == n && forall i :: 0 <= i < |ms| ==> CopyFor(ms[i], a, n)
       case OnTheWay => |ms| == 1 && !ms[0].copy && ToUint64(ms[0].nonce) == n
       case Unassigned => |ms| == 0 && n == 0
  }

  // For a token whose create role was ever granted: one account has it, or one
  // hand-over is on its way, and the counter there is the number of items
  // minted.
  ghost predicate Inv(s: State, token: bytes, granted: bool) {
    && (exists p: Place :: InvWith(s, token, p) && (p.Unassigned? <==> !granted))
    && Numbered(s.minted, token)
  }

  // The items of a token are numbered from one, in the order of their minting.
  predicate Numbered(minted: seq<Minted>, token: bytes) {
    forall i :: 0 <= i < |minted| && minted[i].token == token ==> minted[i].nonce == CountOf(minted[..i], token) + 1
  }

  lemma {:induction false} MessagesAppend(a: seq<Message>, b: seq<Message>, token: bytes)
    ensures MessagesOf(a + b, token) == MessagesOf(a, token) + MessagesOf(b, token)
  {
    if |b| == 0 {
      assert a + b == a;
    } else {
      MessagesAppend(a, b[..|b| - 1], token);
      assert (a + b)[..|a + b| - 1] == a + b[..|b| - 1];
    }
  }

  lemma MessagesOne(m: Message, token: bytes)
    ensures MessagesOf([m], token) == if m.token == token then [m] else []
  {
    assert [m][..0] == [];
  }

  lemma MessagesRemove(ms: seq<Message>, i: nat, token: bytes)
    requires i < |ms|
    ensures var rest := MessagesOf(ms[..i] + ms[i + 1..], token);
            && (ms[i].token != token ==> rest == MessagesOf(ms, token))
            && (ms[i].token == token ==>
                  && MessagesOf(ms, token) == MessagesOf(ms[..i], token) + [ms[i]] + MessagesOf(ms[i + 1..], token)
                  && rest == MessagesOf(ms[..i], token) + MessagesOf(ms[i + 1..], token))
  {
    MessagesAppend(ms[..i], ms[i + 1..], token);
    MessagesAppend(ms[..i], [ms[i]], token);
    MessagesAppend(ms[..i] + [ms[i]], ms[i + 1..], token);
    MessagesOne(ms[i], token);
    assert ms == ms[..i] + [ms[i]] + ms[i + 1..];
  }

  lemma {:induction false} CountAtMost(minted: seq<Minted>, token: bytes)
    ensures CountOf(minted, token) <= |minted|
  {
    if |minted| > 0 {
      CountAtMost(minted[..|minted| - 1], token);
    }
  }

  lemma MintedAppend(minted: seq<Minted>, m: Minted, token: bytes)
    ensures CountOf(minted + [m], token) == CountOf(minted, token) + if m.token == token then 1 else 0
    ensures Numbered(minted, token) && (m.token == token ==> m.nonce == CountOf(minted, token) + 1) ==>
              Numbered(minted + [m], token)
  {
    var all := minted + [m];
    assert all[..|minted|] == minted;
    assert forall i :: 0 <= i <= |minted| ==> all[..i] == minted[..i];
  }

  lemma AddRoleTimes(o: Owners, c: Cell)
    ensures Times(AddRole(o, c), c) == if Times(o, c) == 0 then 1 else Times(o, c)
    ensures forall d :: d != c ==> Times(AddRole(o, c), d) == Times(o, d)
    ensures AddRole(o, c).nonces == o.nonces
  {
  }

  lemma ReleaseTimes(o: Owners, c: Cell)
    requires Times(o, c) == 1
    ensures var released := SaveRoles(o, c, Roles.RemoveFirst(RolesOf(o, c), Roles.NFT_CREATE));
            && Times(released, c) == 0
            && forall d :: d != c ==> Times(released, d) == Times(o, d)
  {
    hide Roles.RemoveFirst;
    Roles.RemoveFirstCounts(RolesOf(o, c), Roles.NFT_CREATE);
  }

  lemma SaveNonceReads(o: Owners, c: Cell, n: nat)
    requires n < TWO64
    ensures LatestNonce(SaveNonce(o, c, n), c) == n
    ensures forall d :: d != c ==> LatestNonce(SaveNonce(o, c, n), d) == LatestNonce(o, d)
    ensures forall d :: Times(SaveNonce(o, c, n), d) == Times(o, d)
  {
    Uint64RoundTrip(n);
  }

  // ---- each step ----

  lemma SameTimes(o: Owners, o': Owners, token: bytes, owner: Option<Address>)
    requires OnlyOwner(o, token, owner)
    requires forall a: Address :: Times(o', Cell(a, token)) == Times(o, Cell(a, token))
    ensures OnlyOwner(o', token, owner)
  {
    forall a: Address
      ensures Times(o', Cell(a, token)) == if owner == Some(a) then 1 else 0
    {
      assert Times(o, Cell(a, token)) == if owner == Some(a) then 1 else 0;
    }
  }

  // The account with the role is the owner.
  lemma HolderIsOwner(o: Owners, c: Cell, owner: Option<Address>)
    requires OnlyOwner(o, c.token, owner)
    ensures Roles.NFT_CREATE in RolesOf(o, c) <==> owner == Some(c.holder)
  {
    assert Times(o, Cell(c.holder, c.token)) == if owner == Some(c.holder) then 1 else 0;
  }

  lemma CreateKeeps(s: State, c: Cell, token: bytes, granted: bool, other: bool)
    requires Inv(s, token, granted) && Inv(s, c.token, other) && Allowed(s, Create(c))
    ensures Inv(Next(s, Create(c)), token, granted)
  {
    hide Numbered, CountOf, MessagesOf, OnlyOwner, Times, LatestNonce;
    var s' := Next(s, Create(c));
    if Roles.NFT_CREATE in RolesOf(s.owners, c) {
      var mine :| InvWith(s, c.token, mine);
      HolderIsOwner(s.owners, c, OwnerAt(mine));
      var n := CountOf(s.minted, c.token);
      CountAtMost(s.minted, c.token);
      assert CreateNext(s.owners, c) == Some(n + 1);
      SaveNonceReads(s.owners, c, n + 1);
      MintedAppend(s.minted, Minted(c.token, n + 1), token);
      var p :| InvWith(s, token, p) && (p.Unassigned? <==> !granted);
      if token == c.token {
        HolderIsOwner(s.owners, c, OwnerAt(p));
      }
      SameTimes(s.owners, s'.owners, token, OwnerAt(p));
      assert InvWith(s', token, p);
    }
  }

  lemma HandOverKeeps(s: State, from: Cell, to: Address, sameShard: bool, token: bytes, granted: bool)
    requires Inv(s, token, granted) && Allowed(s, HandOver(from, to, sameShard))
    ensures Inv(Next(s, HandOver(from, to, sameShard)), token, granted)
  {
    hide Numbered, CountOf, MessagesOf, OnlyOwner, Times, LatestNonce, AtCurrentOwner;
    var s' := Next(s, HandOver(from, to, sameShard));
    var h := AtCurrentOwner(s.owners, from, to, sameShard);
    MessagesAppend(s.inFlight, [h.message], token);
    MessagesOne(h.message, token);
    var p :| InvWith(s, token, p) && (p.Unassigned? <==> !granted);
    HandOverMessage(s.owners, from, to, sameShard);
    if token == from.token {
      HolderIsOwner(s.owners, from, OwnerAt(p));
      HandOverOwner(s.owners, from, to, sameShard, CountOf(s.minted, token));
      assert InvWith(s', token, if sameShard then With(to) else OnTheWay);
    } else {
      HandOverElsewhere(s.owners, from, to, sameShard, token);
      SameTimes(s.owners, h.owners, token, OwnerAt(p));
      assert InvWith(s', token, p);
    }
  }

  lemma HandOverMessage(o: Owners, from: Cell, to: Address, sameShard: bool)
    ensures var h := AtCurrentOwner(o, from, to, sameShard);
            h.message.token == from.token && h.message.to == to && h.message.copy == sameShard
  {
  }

  lemma HandOverElsewhere(o: Owners, from: Cell, to: Address, sameShard: bool, token: bytes)
    requires token != from.token
    ensures var h := AtCurrentOwner(o, from, to, sameShard);
            && (forall a: Address :: Times(h.owners, Cell(a, token)) == Times(o, Cell(a, token)))
            && forall a: Address :: LatestNonce(h.owners, Cell(a, token)) == LatestNonce(o, Cell(a, token))
  {
    hide Roles.RemoveFirst;
  }

  lemma HandOverOwner(o: Owners, from: Cell, to: Address, sameShard: bool, n: nat)
    requires OnlyOwner(o, from.token, Some(from.holder)) && to != from.holder && LatestNonce(o, from) == n < TWO64
    ensures var h := AtCurrentOwner(o, from, to, sameShard);
            && OnlyOwner(h.owners, from.token, if sameShard then Some(to) else None)
            && (sameShard ==> LatestNonce(h.owners, Cell(to, from.token)) == n)
            && ToUint64(h.message.nonce) == n
  {
    hide AtCurrentOwner, Times;
    var h := AtCurrentOwner(o, from, to, sameShard);
    assert Times(o, Cell(from.holder, from.token)) == 1 && Times(o, Cell(to, from.token)) == 0;
    HandOverOwners(o, from, to, sameShard, n);
    forall a: Address
      ensures Times(h.owners, Cell(a, from.token)) == if sameShard && a == to then 1 else 0
    {
      assert Times(o, Cell(a, from.token)) == if a == from.holder then 1 else 0;
    }
  }

  lemma HandOverOwners(o: Owners, from: Cell, to: Address, sameShard: bool, n: nat)
    requires Times(o, from) == 1 && to != from.holder && LatestNonce(o, from) == n < TWO64
    requires Times(o, Cell(to, from.token)) == 0
    ensures var h := AtCurrentOwner(o, from, to, sameShard);
            && Times(h.owners, from) == 0
            && Times(h.owners, Cell(to, from.token)) == (if sameShard then 1 else 0)
            && (forall d :: d != from && d != Cell(to, from.token) ==> Times(h.owners, d) == Times(o, d))
            && (sameShard ==> LatestNonce(h.owners, Cell(to, from.token)) == n)
            && h.message.token == from.token && h.message.to == to && h.message.copy == sameShard
            && ToUint64(h.message.nonce) == n
  {
    hide Roles.RemoveFirst;
    var next := Cell(to, from.token);
    SaveNonceReads(o, from, 0);
    var o1 := SaveNonce(o, from, 0);
    ReleaseTimes(o1, from);
    var released := SaveRoles(o1, from, Roles.RemoveFirst(RolesOf(o1, from), Roles.NFT_CREATE));
    assert RolesOf(o1, from) == RolesOf(o, from);
    SaveNonceReads(released, next, n);
    AddRoleTimes(SaveNonce(released, next, n), next);
    Uint64RoundTrip(n);
  }

  lemma DeliverKeeps(s: State, i: nat, token: bytes, granted: bool)
    requires Inv(s, token, granted)
    ensures Inv(Next(s, Deliver(i)), token, granted)
  {
    hide Numbered, CountOf, MessagesOf, OnlyOwner, Times, LatestNonce, AtNextOwner;
    if i < |s.inFlight| {
      var s', m := Next(s, Deliver(i)), s.inFlight[i];
      MessagesRemove(s.inFlight, i, token);
      var p :| InvWith(s, token, p) && (p.Unassigned? <==> !granted);
      if m.token != token {
        ArrivalElsewhere(s.owners, m, token);
        SameTimes(s.owners, s'.owners, token, OwnerAt(p));
        assert InvWith(s', token, p);
      } else {
        Delivered(MessagesOf(s.inFlight[..i], token), m, MessagesOf(s.inFlight[i + 1..], token), p, CountOf(s.minted, token));
        ArrivalOwners(s.owners, m, OwnerAt(p));
        assert InvWith(s', token, With(m.to));
      }
    }
  }

  // A token's messages are copies for its owner, or the one hand-over.
  lemma Delivered(before: seq<Message>, m: Message, after: seq<Message>, p: Place, n: nat)
    requires var ms := before + [m] + after;
             && (p.With? ==> forall i :: 0 <= i < |ms| ==> CopyFor(ms[i], p.owner, n))
             && (!p.With? ==> |ms| == 1 && !ms[0].copy && ToUint64(ms[0].nonce) == n)
    ensures p.With? ==> p.owner == m.to
    ensures ToUint64(m.nonce) == n
    ensures forall i :: 0 <= i < |before + after| ==> CopyFor((before + after)[i], m.to, n)
  {
    var ms := before + [m] + after;
    assert ms[|before|] == m;
    forall i | 0 <= i < |before + after|
      ensures CopyFor((before + after)[i], m.to, n)
    {
      assert (before + after)[i] == ms[if i < |before| then i else i + 1];
    }
  }

  lemma ArrivalElsewhere(o: Owners, m: Message, token: bytes)
    requires token != m.token
    ensures forall a: Address :: Times(AtNextOwner(o, m), Cell(a, token)) == Times(o, Cell(a, token))
    ensures forall a: Address :: LatestNonce(AtNextOwner(o, m), Cell(a, token)) == LatestNonce(o, Cell(a, token))
  {
  }

  // An arrival gives the role to the receiver, or finds it there already.
  lemma ArrivalOwners(o: Owners, m: Message, owner: Option<Address>)
    requires OnlyOwner(o, m.token, owner) && (owner.None? || owner == Some(m.to))
    ensures var o' := AtNextOwner(o, m);
            OnlyOwner(o', m.token, Some(m.to)) && LatestNonce(o', Cell(m.to, m.token)) == ToUint64(m.nonce)
  {
    var c := Cell(m.to, m.token);
    assert Times(o, c) == if owner == Some(m.to) then 1 else 0;
    SaveNonceReads(o, c, ToUint64(m.nonce));
    AddRoleTimes(SaveNonce(o, c, ToUint64(m.nonce)), c);
    forall a: Address
      ensures Times(AtNextOwner(o, m), Cell(a, m.token)) == if m.to == a then 1 else 0
    {
      assert Times(o, Cell(a, m.token)) == if owner == Some(a) then 1 else 0;
    }
  }

  // ---- the theorem ----

  ghost predicate AllInv(s: State, granted: set<bytes>) {
    forall token: bytes :: Inv(s, token, token in granted)
  }

  // Granting the create role once, to one account, starts a token off.
  lemma GrantedOnce(grants: map<bytes, Address>, s: State)
    requires s.inFlight == [] && s.minted == [] && s.owners.nonces == map[]
    requires forall c: Cell ::
               RolesOf(s.owners, c) == if c.token in grants && grants[c.token] == c.holder then [Roles.NFT_CREATE] else []
    ensures AllInv(s, grants.Keys)
  {
    forall token: bytes
      ensures Inv(s, token, token in grants.Keys)
    {
      var p := if token in grants then With(grants[token]) else Unassigned;
      assert OnlyOwner(s.owners, token, OwnerAt(p));
      assert InvWith(s, token, p);
    }
  }

  lemma StepKeeps(s: State, step: Step, granted: set<bytes>)
    requires AllInv(s, granted) && Allowed(s, step)
    ensures AllInv(Next(s, step), granted)
  {
    hide Inv;
    forall token: bytes
      ensures Inv(Next(s, step), token, token in granted)
    {
      match step {
        case Create(c) => CreateKeeps(s, c, token, token in granted, c.token in granted);
        case HandOver(from, to, sameShard) => HandOverKeeps(s, from, to, sameShard, token, token in granted);
        case Deliver(i) => DeliverKeeps(s, i, token, token in granted);
      }
    }
  }

  // Over any run, at every moment: of each granted token either one account
  // has the create role, once, or one hand-over is on its way, never both; and
  // the counter there is the number of items minted.
  lemma {:induction false} RunKeeps(s: State, steps: seq<Step>, granted: set<bytes>)
    requires AllInv(s, granted) && AllAllowed(s, steps)
    ensures AllInv(Run(s, steps), granted)
  {
    hide AllInv;
    if |steps| > 0 {
      var n := |steps| - 1;
      assert forall i :: 0 <= i < n ==> steps[..n][..i] == steps[..i];
      RunKeeps(s, steps[..n], granted);
      StepKeeps(Run(s, steps[..n]), steps[n], granted);
    }
  }

  lemma {:induction false} CountGrows(minted: seq<Minted>, i: nat, j: nat, token: bytes)
    requires i < j <= |minted| && minted[i].token == token
    ensures CountOf(minted[..i], token) + 1 <= CountOf(minted[..j], token)
  {
    assert minted[..j][..j - 1] == minted[..j - 1];
    if i < j - 1 {
      CountGrows(minted, i, j - 1, token);
    }
  }

  // Over any interleaving of creates, hand-overs and deliveries no item is
  // minted twice.
  lemma NoNonceTwice(s: State, steps: seq<Step>, granted: set<bytes>, i: nat, j: nat)
    requires AllInv(s, granted) && AllAllowed(s, steps)
    requires i < j < |Run(s, steps).minted|
    ensures Run(s, steps).minted[i] != Run(s, steps).minted[j]
  {
    RunKeeps(s, steps, granted);
    var minted := Run(s, steps).minted;
    if minted[i].token == minted[j].token {
      assert Inv(Run(s, steps), minted[i].token, minted[i].token in granted);
      CountGrows(minted, i, j, minted[i].token);
    }
  }

  // Without the assumption on copies the counter goes back: a create before
  // the copy of a same-shard hand-over arrives gives the same nonce as a
  // create after.
  lemma LateCopyRepeats(o: Owners, from: Cell, to: Address)
    requires Times(o, from) == 1 && to != from.holder && Times(o, Cell(to, from.token)) == 0
    requires LatestNonce(o, from) < TWO64 - 1
    ensures var next := Cell(to, from.token);
            var h := AtCurrentOwner(o, from, to, true);
            var first := CreateNext(h.owners, next);
            && first.Some?
            && CreateNext(AtNextOwner(SaveNonce(h.owners, next, first.value), h.message), next) == first
  {
    hide Roles.RemoveFirst, AtCurrentOwner;
    var next, n := Cell(to, from.token), LatestNonce(o, from);
    HandOverOwners(o, from, to, true, n);
    var h := AtCurrentOwner(o, from, to, true);
    HasRole(h.owners, next);
    var saved := SaveNonce(h.owners, next, n + 1);
    SaveNonceReads(saved, next, n);
    AddRoleTimes(SaveNonce(saved, next, n), next);
    HasRole(AtNextOwner(saved, h.message), next);
  }

  // Nor may a hand-over come before the copy: the copy would give the role
  // back to an account that has passed it on, and two accounts would hold it.
  lemma LateCopyTwoHolders(o: Owners, from: Cell, second: Address, third: Address, sameShard: bool)
    requires Times(o, from) == 1 && second != from.holder && third != second && third != from.holder
    requires Times(o, Cell(second, from.token)) == 0 && Times(o, Cell(third, from.token)) == 0
    requires LatestNonce(o, from) < TWO64
    ensures var b, c := Cell(second, from.token), Cell(third, from.token);
            var one := AtCurrentOwner(o, from, second, true);
            var two := AtCurrentOwner(one.owners, b, third, sameShard);
            var arrived := if sameShard then two.owners else AtNextOwner(two.owners, two.message);
            var late := AtNextOwner(arrived, one.message);
            && Times(late, b) == 1 && Times(late, c) == 1
            && CreateNext(late, b) == CreateNext(late, c)
  {
    hide Roles.RemoveFirst, AtCurrentOwner, AtNextOwner;
    var b, c, n := Cell(second, from.token), Cell(third, from.token), LatestNonce(o, from);
    HandOverOwners(o, from, second, true, n);
    var one := AtCurrentOwner(o, from, second, true);
    HandOverOwners(one.owners, b, third, sameShard, n);
    var two := AtCurrentOwner(one.owners, b, third, sameShard);
    if !sameShard {
      Arrives(two.owners, two.message);
    }
    var arrived := if sameShard then two.owners else AtNextOwner(two.owners, two.message);
    Arrives(arrived, one.message);
    var late := AtNextOwner(arrived, one.message);
    HasRole(late, b);
    HasRole(late, c);
  }

  lemma HasRole(o: Owners, c: Cell)
    ensures Roles.NFT_CREATE in RolesOf(o, c) <==> Times(o, c) > 0
  {
  }

  // Setting roles and unsetting the same ones leaves the account with the
  // roles it had.
  lemma SetThenUnset(o: Owners, c: Cell, names: seq<bytes>)
    requires |c.holder| > 0
    ensures var after := ChangeRoles(ChangeRoles(o, c, true, names), c, false, names);
            multiset(RolesOf(after, c)) == multiset(RolesOf(o, c))
  {
    hide Roles.RemoveEach, StartNonce;
    Roles.SetThenUnset(RolesOf(o, c), names);
  }

  lemma StartReads(o: Owners, c: Cell, names: seq<bytes>)
    requires |c.holder| > 0 && Roles.NFT_CREATE in names && Roles.NFT_CREATE_MULTI_SHARD in names
    ensures CreateNext(ChangeRoles(o, c, true, names), c) == Some(StartNonce(c.holder) + 1)
  {
    SaveNonceReads(o, c, StartNonce(c.holder));
  }
}
