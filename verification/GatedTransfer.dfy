// Multi transfers of regulated tokens on one shard's storage: the compliance
// records the gate reads and the token records the ledger writes are entries
// of the same accounts.
module GatedTransfer {
  import opened Bytes
  import opened Tokens
  import opened EsdtStorage
  import opened Ledger
  import opened Network
  import opened Conservation
  import opened Liquidity
  import opened Metadata
  import opened Permissions
  import opened BuiltIns
  import D = DrwaGate
  import Keys
  import Wire = TransferWire

  // ---- the ledger's records as storage entries ----

  function Entry(codec: Codec, t: Option<Token>): bytes {
    if t.None? then [] else codec.marshal(t.value)
  }

  // Under each record's key there is the record, for holders and for the
  // system account.
  ghost predicate Represents(codec: Codec, system: Address, s: D.Store, sh: Shard) {
    forall a: Address, id: bytes ::
      D.ValueAt(s, a, Keys.StorageKey(id)) == Entry(codec, if a == system then SystemAt(sh, id) else RecordAt(sh, a, id))
  }

  // The records of one identifier as they are saved with two holders and the
  // system account.
  function WritesOf(codec: Codec, system: Address, sh: Shard, p: Address, q: Address, id: bytes): seq<D.Write> {
    [D.Write(p, id, Entry(codec, RecordAt(sh, p, id))), D.Write(q, id, Entry(codec, RecordAt(sh, q, id))),
     D.Write(system, id, Entry(codec, SystemAt(sh, id)))]
  }

  // Records change at one identifier only, and there of two holders only.
  ghost predicate Touches(before: Shard, after: Shard, p: Address, q: Address, id: bytes) {
    && OnlyId(before, after, id)
    && forall a: Address :: a != p && a != q ==> RecordAt(after, a, id) == RecordAt(before, a, id)
  }

  lemma WritesRead(codec: Codec, system: Address, s: D.Store, sh: Shard, p: Address, q: Address, id: bytes,
                   a: Address, key: bytes)
    requires p != system && q != system
    ensures var ws := WritesOf(codec, system, sh, p, q, id);
            D.ValueAt(D.ApplyAll(s, ws), a, key)
            == if key != Keys.StorageKey(id) || a !in {p, q, system} then D.ValueAt(s, a, key)
               else Entry(codec, if a == system then SystemAt(sh, id) else RecordAt(sh, a, id))
  {
    hide D.Apply, D.ValueAt, Keys.StorageKey, Entry, SystemAt, RecordAt;
    var ws := WritesOf(codec, system, sh, p, q, id);
    assert ws[..2][..1] == ws[..1] && ws[..1][..0] == [];
    var s1 := D.Apply(s, ws[0]);
    var s2 := D.Apply(s1, ws[1]);
    assert D.ApplyAll(s, ws[..1]) == s1;
    assert D.ApplyAll(s, ws[..2]) == s2;
    D.ApplyReads(s, ws[0], a, key);
    D.ApplyReads(s1, ws[1], a, key);
    D.ApplyReads(s2, ws[2], a, key);
  }

  lemma WritesRepresent(codec: Codec, system: Address, s: D.Store, before: Shard, after: Shard, p: Address,
                        q: Address, id: bytes)
    requires Represents(codec, system, s, before) && Touches(before, after, p, q, id) && p != system && q != system
    ensures Represents(codec, system, D.ApplyAll(s, WritesOf(codec, system, after, p, q, id)), after)
  {
    hide D.ValueAt, D.ApplyAll, WritesOf, Keys.StorageKey, Entry, SystemAt, RecordAt;
    var s' := D.ApplyAll(s, WritesOf(codec, system, after, p, q, id));
    forall a: Address, j: bytes
      ensures D.ValueAt(s', a, Keys.StorageKey(j))
              == Entry(codec, if a == system then SystemAt(after, j) else RecordAt(after, a, j))
    {
      WritesRead(codec, system, s, after, p, q, id, a, Keys.StorageKey(j));
      Keys.StorageKeyInjective(j, id);
      assert D.ValueAt(s, a, Keys.StorageKey(j))
             == Entry(codec, if a == system then SystemAt(before, j) else RecordAt(before, a, j));
      if j != id {
        assert SameAt(before, after, j);
      }
    }
  }

  // ---- what one item writes ----

  lemma SaveTouches(env: Env, sh: Shard, sender: nat, a: Address, k: Key, t: Token, args: SaveArgs)
    requires SaveToken(env, sh, sender, a, k, t, args).Ok?
    ensures Touches(sh, SaveToken(env, sh, sender, a, k, t, args).value.shard, a, a, Id(k))
  {
    hide SaveToken, Id, OnlyId;
    SaveOnlyId(env, sh, sender, a, k, t, args);
    forall b: Address | b != a
      ensures RecordAt(SaveToken(env, sh, sender, a, k, t, args).value.shard, b, Id(k)) == RecordAt(sh, b, Id(k))
    {
      SaveKeepsOtherHolders(env, sh, sender, a, k, t, args, b, k);
    }
  }

  lemma TouchesThen(s0: Shard, s1: Shard, s2: Shard, p: Address, q: Address, id: bytes)
    requires Touches(s0, s1, p, p, id) && Touches(s1, s2, q, q, id)
    ensures Touches(s0, s2, p, q, id)
  {
    hide OnlyId;
    OnlyIdThen(s0, s1, s2, id);
  }

  lemma SameAccountsTouch(before: Shard, after: Shard, a: Address, id: bytes)
    requires OnlyId(before, after, id) && after.accounts == before.accounts
    ensures Touches(before, after, a, a, id)
  {
  }

  lemma ArrivalTouches(h: Host, sh: Shard, snd: Address, dst: Address, k: Key, t: Token, rwe: bool)
    requires AddNft(h, sh, snd, dst, k, t, rwe).Ok?
    ensures Touches(sh, AddNft(h, sh, snd, dst, k, t, rwe).value, dst, dst, Id(k))
  {
    hide SaveToken, AddToLiquidity, MergedToken, Touches, OnlyId, Id;
    var after := AddNft(h, sh, snd, dst, k, t, rwe).value;
    var cur := OnDestination(h.env, sh, dst, k);
    var latest := MergedToken(h, Known(sh, k, cur, t.kind), t.(value := t.value + cur.token.value)).value;
    var saved := SaveToken(h.env, sh, h.shardOf(snd), dst, k, latest, SaveArgs(false, rwe, false)).value;
    SaveTouches(h.env, sh, h.shardOf(snd), dst, k, latest, SaveArgs(false, rwe, false));
    if h.shardOf(snd) != h.shardOf(dst) {
      LiquidityOnlyId(h.env, saved.shard, k, saved.kind, t.value, false);
      LiquidityKeepsAccounts(h.env, saved.shard, k, saved.kind, t.value, false);
      SameAccountsTouch(saved.shard, after, dst, Id(k));
      TouchesThen(sh, saved.shard, after, dst, dst, Id(k));
    }
  }

  // Where a transfer may write next to its sender.
  function Other(h: Host, snd: Address, dst: Address): Address {
    if Here(h, dst) then dst else snd
  }

  lemma HandOverTouches(h: Host, sh: Shard, snd: Address, dst: Address, k: Key, t: Token, rwe: bool)
    requires HandOver(h, sh, snd, dst, k, t, rwe).Ok?
    ensures Touches(sh, HandOver(h, sh, snd, dst, k, t, rwe).value, Other(h, snd, dst), Other(h, snd, dst), Id(k))
  {
    hide AddNft, AddToLiquidity, Touches, OnlyId, Id;
    if Here(h, dst) {
      ArrivalTouches(h, sh, snd, dst, k, t, rwe);
    } else {
      var keep := KeepsMetaData(h, snd, k.token, t.kind);
      LiquidityOnlyId(h.env, sh, k, t.kind, -t.value, keep);
      LiquidityKeepsAccounts(h.env, sh, k, t.kind, -t.value, keep);
      SameAccountsTouch(sh, HandOver(h, sh, snd, dst, k, t, rwe).value, snd, Id(k));
    }
  }

  // A listed token's transfer writes the records under the identifier it
  // names, of its sender and of a receiver in the shard, and no others.
  lemma SendOneTouches(h: Host, sh: Shard, snd: Address, dst: Address, tr: Wire.Transfer, rwe: bool)
    requires SendOne(h, sh, snd, dst, tr, rwe).Ok? && tr.token != BASE_TOKEN
    ensures Touches(sh, SendOne(h, sh, snd, dst, tr, rwe).value.shard, snd, Other(h, snd, dst), Id(KeyOf(tr)))
  {
    hide SaveToken, HandOver, Touches, OnSender, Id;
    var k := KeyOf(tr);
    var t := OnSender(h.env, sh, snd, k).value;
    var taken := TakeNft(h, sh, snd, k, t, tr.value, rwe).value;
    SaveTouches(h.env, sh, h.shardOf(snd), snd, k, t.(value := t.value - tr.value), SaveArgs(false, rwe, false));
    HandOverTouches(h, taken.shard, snd, dst, k, taken.token, rwe);
    TouchesThen(sh, taken.shard, SendOne(h, sh, snd, dst, tr, rwe).value.shard, snd, Other(h, snd, dst), Id(k));
  }

  // The base token is in no record.
  lemma BaseWritesNothing(codec: Codec, system: Address, s: D.Store, h: Host, sh: Shard, snd: Address, dst: Address,
                          tr: Wire.Transfer)
    requires Represents(codec, system, s, sh) && MoveBaseToken(h, sh, snd, dst, tr).Ok?
    ensures Represents(codec, system, s, MoveBaseToken(h, sh, snd, dst, tr).value.shard)
  {
    hide Represents;
    var debited := PutBalance(sh, snd, AccountAt(sh, snd).balance - tr.value);
    BalanceRepresents(codec, system, s, sh, snd, AccountAt(sh, snd).balance - tr.value);
    if Here(h, dst) {
      BalanceRepresents(codec, system, s, debited, dst, AccountAt(debited, dst).balance + tr.value);
    }
  }

  lemma BalanceRepresents(codec: Codec, system: Address, s: D.Store, sh: Shard, a: Address, balance: int)
    requires Represents(codec, system, s, sh)
    ensures Represents(codec, system, s, PutBalance(sh, a, balance))
  {
    hide Entry, D.ValueAt, Keys.StorageKey;
    var after := PutBalance(sh, a, balance);
    forall b: Address, id: bytes
      ensures D.ValueAt(s, b, Keys.StorageKey(id))
              == Entry(codec, if b == system then SystemAt(after, id) else RecordAt(after, b, id))
    {
      assert RecordAt(after, b, id) == RecordAt(sh, b, id);
    }
  }

  // ---- what a whole list writes ----

  predicate RecordChanged(before: D.Store, after: D.Store, a: Address, key: bytes) {
    D.ValueAt(after, a, key) != D.ValueAt(before, a, key)
  }

  // Bytes change only under the key of a listed token, of a party or of the
  // system account.
  ghost predicate OnlyListed(before: D.Store, after: D.Store, parties: set<Address>, ids: seq<bytes>) {
    forall a: Address, key: bytes :: RecordChanged(before, after, a, key) ==>
      a in parties && exists i :: 0 <= i < |ids| && key == Keys.StorageKey(ids[i])
  }

  function IdsOf(list: seq<Wire.Transfer>): (ids: seq<bytes>)
    ensures |ids| == |list|
    ensures forall i :: 0 <= i < |list| ==> ids[i] == Id(KeyOf(list[i]))
  {
    if |list| == 0 then [] else IdsOf(list[..|list| - 1]) + [Id(KeyOf(list[|list| - 1]))]
  }

  function IdsIn(items: seq<Wire.Received>): (ids: seq<bytes>)
    ensures |ids| == |items|
    ensures forall i :: 0 <= i < |items| ==> ids[i] == Id(Key(items[i].token, items[i].nonce))
  {
    if |items| == 0 then []
    else IdsIn(items[..|items| - 1]) + [Id(Key(items[|items| - 1].token, items[|items| - 1].nonce))]
  }

  lemma OneMoreListed(codec: Codec, system: Address, s: D.Store, t: D.Store, sh: Shard, p: Address, q: Address,
                      parties: set<Address>, ids: seq<bytes>, id: bytes)
    requires OnlyListed(s, t, parties, ids) && {p, q, system} <= parties && p != system && q != system
    ensures OnlyListed(s, D.ApplyAll(t, WritesOf(codec, system, sh, p, q, id)), parties, ids + [id])
    ensures OnlyListed(s, t, parties, ids + [id])
  {
    hide D.ApplyAll, D.ValueAt, WritesOf, Keys.StorageKey;
    var u := D.ApplyAll(t, WritesOf(codec, system, sh, p, q, id));
    forall a: Address, key: bytes
      | RecordChanged(s, u, a, key) || RecordChanged(s, t, a, key)
      ensures a in parties && exists i :: 0 <= i < |ids + [id]| && key == Keys.StorageKey((ids + [id])[i])
    {
      WritesRead(codec, system, t, sh, p, q, id, a, key);
      if RecordChanged(s, t, a, key) {
        var i :| 0 <= i < |ids| && key == Keys.StorageKey(ids[i]);
        assert (ids + [id])[i] == ids[i];
      } else {
        assert (ids + [id])[|ids|] == id;
      }
    }
  }

  ghost predicate AllClear(d: D.Decoders, s: D.Store, system: Address, tokens: seq<bytes>, snd: Address, dst: Address,
                           dstHere: bool, now: nat)
  {
    forall i :: 0 <= i < |tokens| ==> D.BothClear(d, s, system, tokens[i], snd, dst, dstHere, now)
  }

  ghost predicate AllReceive(d: D.Decoders, s: D.Store, system: Address, tokens: seq<bytes>, dst: Address, now: nat) {
    forall i :: 0 <= i < |tokens| ==> D.Cleared(d, s, system, tokens[i], dst, now, false)
  }

  function NamesOf(list: seq<Wire.Transfer>): (names: seq<bytes>)
    ensures |names| == |list| && forall i :: 0 <= i < |list| ==> names[i] == list[i].token
  {
    seq(|list|, i requires 0 <= i < |list| => list[i].token)
  }

  function NamesIn(items: seq<Wire.Received>): (names: seq<bytes>)
    ensures |names| == |items| && forall i :: 0 <= i < |items| ==> names[i] == items[i].token
  {
    seq(|items|, i requires 0 <= i < |items| => items[i].token)
  }

  function NoncesOf(list: seq<Wire.Transfer>): (nonces: seq<nat>)
    ensures |nonces| == |list| && forall i :: 0 <= i < |list| ==> nonces[i] == list[i].nonce
  {
    seq(|list|, i requires 0 <= i < |list| => list[i].nonce)
  }

  function NoncesIn(items: seq<Wire.Received>): (nonces: seq<nat>)
    ensures |nonces| == |items| && forall i :: 0 <= i < |items| ==> nonces[i] == items[i].nonce
  {
    seq(|items|, i requires 0 <= i < |items| => items[i].nonce)
  }

  // ---- what was moved was checked ----

  // Every valid token any of whose records changed was cleared by the gate in
  // the state before the call, of the sender and of a receiver in the shard.
  ghost predicate SentCleared(d: D.Decoders, s: D.Store, t: D.Store, system: Address, snd: Address, dst: Address,
                              dstHere: bool, now: nat)
  {
    forall a: Address, token: bytes, nonce: nat ::
      Keys.ValidToken(token) && RecordChanged(s, t, a, Keys.TokenKey(token, nonce)) ==>
        D.BothClear(d, s, system, token, snd, dst, dstHere, now)
  }

  ghost predicate ReceivedCleared(d: D.Decoders, s: D.Store, t: D.Store, system: Address, dst: Address, now: nat) {
    forall a: Address, token: bytes, nonce: nat ::
      Keys.ValidToken(token) && RecordChanged(s, t, a, Keys.TokenKey(token, nonce)) ==>
        D.Cleared(d, s, system, token, dst, now, false)
  }

  // When every name in the list is valid, a record of a valid token changes
  // only if that very token is listed.
  lemma ChangedWasListed(s: D.Store, t: D.Store, parties: set<Address>, names: seq<bytes>, nonces: seq<nat>,
                         ids: seq<bytes>,
                         a: Address, token: bytes, nonce: nat)
    requires |names| == |nonces| == |ids| && forall i :: 0 <= i < |ids| ==> ids[i] == Id(Key(names[i], nonces[i]))
    requires OnlyListed(s, t, parties, ids) && Keys.ValidToken(token)
    requires forall i :: 0 <= i < |names| ==> Keys.ValidToken(names[i])
    requires RecordChanged(s, t, a, Keys.TokenKey(token, nonce))
    ensures a in parties && exists i :: 0 <= i < |names| && names[i] == token && nonces[i] == nonce
  {
    hide Keys.ValidToken, Keys.StorageKey, RecordChanged;
    var i :| 0 <= i < |ids| && Keys.TokenKey(token, nonce) == Keys.StorageKey(ids[i]);
    assert Keys.TokenKey(names[i], nonces[i]) == Keys.StorageKey(ids[i]);
    Keys.KeyInjective(token, nonce, names[i], nonces[i]);
  }

  lemma ListedWasCleared(d: D.Decoders, s: D.Store, system: Address, names: seq<bytes>, token: bytes, snd: Address,
                         dst: Address,
                         dstHere: bool, now: nat)
    requires AllClear(d, s, system, names, snd, dst, dstHere, now) && token in names
    ensures D.BothClear(d, s, system, token, snd, dst, dstHere, now)
  {
    hide D.BothClear;
  }

  lemma {:induction false} SentWasCleared(d: D.Decoders, s: D.Store, t: D.Store, system: Address,
                                          list: seq<Wire.Transfer>, snd: Address, dst: Address,
                       dstHere: bool, now: nat, parties: set<Address>)
    requires AllClear(d, s, system, NamesOf(list), snd, dst, dstHere, now) && OnlyListed(s, t, parties, IdsOf(list))
    requires forall i :: 0 <= i < |list| ==> Keys.ValidToken(list[i].token)
    ensures SentCleared(d, s, t, system, snd, dst, dstHere, now)
  {
    hide AllClear, D.BothClear, OnlyListed, Keys.ValidToken, Keys.TokenKey, D.ValueAt, Id;
    var names, nonces, ids := NamesOf(list), NoncesOf(list), IdsOf(list);
    forall a: Address, token: bytes, nonce: nat
      | Keys.ValidToken(token) && RecordChanged(s, t, a, Keys.TokenKey(token, nonce))
      ensures D.BothClear(d, s, system, token, snd, dst, dstHere, now)
    {
      ChangedWasListed(s, t, parties, names, nonces, ids, a, token, nonce);
      ListedWasCleared(d, s, system, names, token, snd, dst, dstHere, now);
    }
  }

  lemma ArrivedWasCleared(d: D.Decoders, s: D.Store, system: Address, names: seq<bytes>, token: bytes, dst: Address,
                          now: nat)
    requires AllReceive(d, s, system, names, dst, now) && token in names
    ensures D.Cleared(d, s, system, token, dst, now, false)
  {
    hide D.Cleared;
  }

  lemma {:induction false} ReceivedWasCleared(d: D.Decoders, s: D.Store, t: D.Store, system: Address,
                                              items: seq<Wire.Received>, dst: Address,
                           now: nat, parties: set<Address>)
    requires AllReceive(d, s, system, NamesIn(items), dst, now) && OnlyListed(s, t, parties, IdsIn(items))
    requires forall i :: 0 <= i < |items| ==> Keys.ValidToken(items[i].token)
    ensures ReceivedCleared(d, s, t, system, dst, now)
  {
    hide AllReceive, D.Cleared, OnlyListed, Keys.ValidToken, Keys.TokenKey, D.ValueAt, Id;
    var names, nonces, ids := NamesIn(items), NoncesIn(items), IdsIn(items);
    forall a: Address, token: bytes, nonce: nat
      | Keys.ValidToken(token) && RecordChanged(s, t, a, Keys.TokenKey(token, nonce))
      ensures D.Cleared(d, s, system, token, dst, now, false)
    {
      ChangedWasListed(s, t, parties, names, nonces, ids, a, token, nonce);
      ArrivedWasCleared(d, s, system, names, token, dst, now);
    }
  }

  // An item is checked under the policy of the token whose record it moves
  // exactly when it is named by that token.
  lemma CheckedIff(tr: Wire.Transfer, token: bytes, nonce: nat)
    requires Keys.ValidToken(token) && Keys.StorageKey(Id(KeyOf(tr))) == Keys.TokenKey(token, nonce)
    ensures D.PolicyKey(tr.token) == D.PolicyKey(token) <==> tr.token == token
    ensures Keys.ValidToken(tr.token) ==> tr.token == token && tr.nonce == nonce
  {
    hide Keys.ValidToken, Keys.StorageKey, D.PolicyKey;
    D.PolicyKeyInjective(tr.token, token);
    assert Keys.TokenKey(tr.token, tr.nonce) == Keys.StorageKey(Id(KeyOf(tr)));
    if Keys.ValidToken(tr.token) {
      Keys.KeyInjective(tr.token, tr.nonce, token, nonce);
    }
  }

  // Without valid names the check is not of what moves: an NFT of a regulated
  // token, listed by its whole identifier with nonce zero, passes the gate
  // although nobody is cleared for the token, and moves.
  lemma AliasMoves(h: Host, sh: Shard, d: D.Decoders, s: D.Store, system: Address, snd: Address, dst: Address,
                   token: bytes, nonce: nat, q: nat, now: nat)
    requires Config(h.env.flags) && AllCovered(sh) && snd != dst && !Here(h, dst)
    requires Keys.ValidToken(token) && 0 < nonce < TWO64 && 0 < q <= Holding(sh, snd, Esdt(Id(Key(token, nonce))))
    requires D.ValueAt(s, system, D.PolicyKey(Id(Key(token, nonce)))) == []
    ensures var id := Id(Key(token, nonce));
            && AllClear(d, s, system, NamesOf([Wire.Transfer(id, 0, q)]), snd, dst, false, now)
            && SendOne(h, sh, snd, dst, Wire.Transfer(id, 0, q), true).Ok?
            && Holding(SendOne(h, sh, snd, dst, Wire.Transfer(id, 0, q), true).value.shard, snd, Esdt(id))
               == Holding(sh, snd, Esdt(id)) - q
  {
    hide Covered, Keys.ValidToken, SendOne, Id, D.PolicyKey, NonNegative, Holding;
    var id := Id(Key(token, nonce));
    assert Keys.NftId(token, nonce, id) by {
      assert Id(Key(token, nonce)) == token + ToBytes(nonce) by {
        IdIs(token, nonce);
      }
    }
    assert Covered(sh, id, 0);
    NoNonceId(id);
    BaseIsNotNft();
    CoveredRecord(sh, id, snd);
    AliasSent(h, sh, snd, dst, id, q);
    var tr := Wire.Transfer(id, 0, q);
    SendOneShift(h, sh, snd, dst, tr, true, Esdt(id));
    assert Moves(tr, Esdt(id)) == q;
    assert Holding(SendOne(h, sh, snd, dst, tr, true).value.shard, snd, Esdt(id))
           == Holding(sh, snd, Esdt(id)) + At(snd, snd, -(q as int)) + At(snd, dst, 0);
    assert NamesOf([tr])[0] == id;
    assert D.PolicyFor(d, s, system, id) == D.Ok(None);
  }

  lemma IdIs(token: bytes, nonce: nat)
    ensures Id(Key(token, nonce)) == token + ToBytes(nonce)
  {
  }

  lemma ReceiveOneTouches(h: Host, sh: Shard, snd: Address, dst: Address, item: Wire.Received, rwe: bool)
    requires ReceiveOne(h, sh, snd, dst, item, rwe).Ok? && !(item.token == BASE_TOKEN && item.nonce == 0)
    ensures Touches(sh, ReceiveOne(h, sh, snd, dst, item, rwe).value, dst, dst, Id(Key(item.token, item.nonce)))
  {
    hide AddNft, OnlyId, Id;
    if item.nonce > 0 {
      ArrivalTouches(h, sh, snd, dst, Key(item.token, item.nonce), item.data, rwe);
    } else {
      NoNonceId(item.token);
      BalanceOnlyId(h.env, sh, dst, item.token, item.data.value, rwe);
    }
  }

  // ---- one step of a list ----

  lemma StillSameFamily(s: D.Store, t: D.Store, u: D.Store)
    requires D.SameFamily(s, t) && D.SameFamily(t, u)
    ensures D.SameFamily(s, u)
  {
  }

  lemma SentItem(h: Host, codec: Codec, system: Address, s: D.Store, t: D.Store, sh: Shard, snd: Address, dst: Address,
                 list: seq<Wire.Transfer>, i: nat, rwe: bool)
    requires i < |list| && SendOne(h, sh, snd, dst, list[i], rwe).Ok? && snd != system && dst != system
    requires Represents(codec, system, t, sh) && D.SameFamily(s, t) && OnlyListed(s, t, {snd, dst, system}, IdsOf(list[..i]))
    ensures var after, id := SendOne(h, sh, snd, dst, list[i], rwe).value.shard, Id(KeyOf(list[i]));
            var u := if list[i].token == BASE_TOKEN then t
                     else D.ApplyAll(t, WritesOf(codec, system, after, snd, Other(h, snd, dst), id));
            && Represents(codec, system, u, after) && D.SameFamily(s, u)
            && OnlyListed(s, u, {snd, dst, system}, IdsOf(list[..i + 1]))
  {
    hide D.ApplyAll, D.SameFamily, WritesOf, OnlyListed, Represents, Touches, TakeNft, HandOver, OnSender, MoveBaseToken, Id;
    var tr, id, q := list[i], Id(KeyOf(list[i])), Other(h, snd, dst);
    var after := SendOne(h, sh, snd, dst, tr, rwe).value.shard;
    var parties := {snd, dst, system};
    assert list[..i + 1][..i] == list[..i] && IdsOf(list[..i + 1]) == IdsOf(list[..i]) + [id];
    OneMoreListed(codec, system, s, t, after, snd, q, parties, IdsOf(list[..i]), id);
    if tr.token == BASE_TOKEN {
      BaseWritesNothing(codec, system, t, h, sh, snd, dst, tr);
    } else {
      SendOneTouches(h, sh, snd, dst, tr, rwe);
      WritesRepresent(codec, system, t, sh, after, snd, q, id);
      D.MovesKeepFamily(t, WritesOf(codec, system, after, snd, q, id));
      StillSameFamily(s, t, D.ApplyAll(t, WritesOf(codec, system, after, snd, q, id)));
    }
  }

  lemma ReceivedItem(h: Host, codec: Codec, system: Address, s: D.Store, t: D.Store, sh: Shard, snd: Address,
                     dst: Address,
                     items: seq<Wire.Received>, i: nat, rwe: bool)
    requires i < |items| && ReceiveOne(h, sh, snd, dst, items[i], rwe).Ok? && dst != system
    requires Represents(codec, system, t, sh) && OnlyListed(s, t, {dst, system}, IdsIn(items[..i]))
    ensures var after, id := ReceiveOne(h, sh, snd, dst, items[i], rwe).value, Id(Key(items[i].token, items[i].nonce));
            var u := if items[i].token == BASE_TOKEN && items[i].nonce == 0 then t
                     else D.ApplyAll(t, WritesOf(codec, system, after, dst, dst, id));
            Represents(codec, system, u, after) && OnlyListed(s, u, {dst, system}, IdsIn(items[..i + 1]))
  {
    hide D.ApplyAll, WritesOf, OnlyListed, Represents, Touches, AddNft, AddToBalance, Id;
    var item, id := items[i], Id(Key(items[i].token, items[i].nonce));
    var after := ReceiveOne(h, sh, snd, dst, item, rwe).value;
    assert items[..i + 1][..i] == items[..i] && IdsIn(items[..i + 1]) == IdsIn(items[..i]) + [id];
    OneMoreListed(codec, system, s, t, after, dst, dst, {dst, system}, IdsIn(items[..i]), id);
    if item.token == BASE_TOKEN && item.nonce == 0 {
      BalanceRepresents(codec, system, t, sh, dst, AccountAt(sh, dst).balance + item.data.value);
    } else {
      ReceiveOneTouches(h, sh, snd, dst, item, rwe);
      WritesRepresent(codec, system, t, sh, after, dst, dst, id);
    }
  }

  lemma Unmoved(s: D.Store, parties: set<Address>, ids: seq<bytes>)
    ensures D.SameFamily(s, s) && OnlyListed(s, s, parties, ids)
  {
  }

  lemma ClearParts(d: D.Decoders, s: D.Store, system: Address, token: bytes, snd: Address, dst: Address,
                   dstHere: bool, now: nat)
    ensures D.BothClear(d, s, system, token, snd, dst, dstHere, now)
            <==> && D.Cleared(d, s, system, token, snd, now, true)
                 && (dstHere ==> D.Cleared(d, s, system, token, dst, now, false))
  {
    hide D.Cleared;
  }

  // The answer of the gate now is the one it would have given before.
  lemma SameAnswer(d: D.Decoders, s: D.Store, t: D.Store, system: Address, token: bytes, a: Address, now: nat,
                   sending: bool)
    requires D.SameFamily(s, t)
    ensures D.Evaluate(d, t, system, token, a, now, sending).Ok? <==> D.Cleared(d, s, system, token, a, now, sending)
  {
    hide D.Evaluate, D.Cleared, D.SameFamily;
    D.SameEvaluation(d, s, t, system, token, a, now, sending);
    D.EvaluateIff(d, t, system, token, a, now, sending);
  }

  // ---- the transfer loops ----

  datatype Outcome<T> = Done(value: T) | Refused(reason: D.GateError) | Failed(error: Error)

  class GatedShard {
    var data: D.Store
    const handler: Handler
    const decoders: D.Decoders
    const codec: Codec
    const system: Address

    constructor (data: D.Store, handler: Handler, decoders: D.Decoders, codec: Codec, system: Address)
      ensures this.data == data && this.handler == handler
      ensures this.decoders == decoders && this.codec == codec && this.system == system
    {
      this.data, this.handler, this.decoders, this.codec, this.system := data, handler, decoders, codec, system;
    }

    ghost predicate Valid()
      reads this, handler, handler.store
    {
      handler.Valid() && Represents(codec, system, data, handler.store.State())
    }

    // Sender shard: each token is checked, then moved, before the next one is
    // checked. Success still means every check held when the call began.
    method CheckAndSend(list: seq<Wire.Transfer>, snd: Address, dst: Address, now: nat,
                        rwe: bool) returns (r: Outcome<seq<Token>>)
      requires Valid() && snd != system && dst != system
      modifies this, handler.store
      ensures r.Done? ==>
                && Valid()
                && SendAll(handler.host, old(handler.store.State()), snd, dst, list, rwe)
                   == Ok(TakenAll(handler.store.State(), r.value))
                && AllClear(decoders, old(data), system, NamesOf(list), snd, dst, Here(handler.host, dst), now)
                && OnlyListed(old(data), data, {snd, dst, system}, IdsOf(list))
      ensures r.Done? && (forall i :: 0 <= i < |list| ==> Keys.ValidToken(list[i].token)) ==>
                SentCleared(decoders, old(data), data, system, snd, dst, Here(handler.host, dst), now)
      ensures r.Refused? ==> !AllClear(decoders, old(data), system, NamesOf(list), snd, dst, Here(handler.host, dst), now)
    {
      hide D.Cleared, D.Evaluate, D.ApplyAll, D.SameFamily, D.BothClear, WritesOf, OnlyListed, Represents, SendOne,
           Keys.ValidToken, SentCleared, MovedAs, KeepsTotals, WellNamed, IdsOf, Id, Other,
           Orderly, MaySendOne, TakenFrom;
      ghost var before, sh0 := data, handler.store.State();
      var h, dstHere := handler.host, Here(handler.host, dst);
      var tokens: seq<Token> := [];
      var i := 0;
      Unmoved(data, {snd, dst, system}, IdsOf(list[..0]));
      while i < |list|
        invariant 0 <= i <= |list| && Valid()
        invariant SendAll(h, sh0, snd, dst, list[..i], rwe) == Ok(TakenAll(handler.store.State(), tokens))
        invariant forall j :: 0 <= j < i ==> D.BothClear(decoders, before, system, list[j].token, snd, dst, dstHere, now)
        invariant D.SameFamily(before, data) && OnlyListed(before, data, {snd, dst, system}, IdsOf(list[..i]))
      {
        var tr := list[i];
        assert list[..i + 1][..i] == list[..i];
        ghost var shard := handler.store.State();
        SameAnswer(decoders, before, data, system, tr.token, snd, now, true);
        SameAnswer(decoders, before, data, system, tr.token, dst, now, false);
        ClearParts(decoders, before, system, tr.token, snd, dst, dstHere, now);
        var answer := D.Evaluate(decoders, data, system, tr.token, snd, now, true);
        if answer.Ok? && dstHere {
          answer := D.Evaluate(decoders, data, system, tr.token, dst, now, false);
        }
        if answer.Fail? {
          assert NamesOf(list)[i] == tr.token;
          return Refused(answer.error);
        }
        var taken := handler.TransferOneTokenOnSenderShard(snd, dst, tr, rwe);
        if taken.Fail? {
          return Failed(taken.error);
        }
        SentItem(h, codec, system, before, data, shard, snd, dst, list, i, rwe);
        if tr.token != BASE_TOKEN {
          data := D.ApplyAll(data, WritesOf(codec, system, handler.store.State(), snd, Other(h, snd, dst), Id(KeyOf(tr))));
        }
        tokens := tokens + [taken.value];
        i := i + 1;
      }
      assert list[..i] == list;
      if forall j :: 0 <= j < |list| ==> Keys.ValidToken(list[j].token) {
        SentWasCleared(decoders, before, data, system, list, snd, dst, dstHere, now, {snd, dst, system});
      }
      r := Done(tokens);
    }

    // Destination shard: all tokens are checked before any is moved, so a
    // denial of one leaves every record as it was.
    method CheckThenReceive(items: seq<Wire.Received>, snd: Address, dst: Address, now: nat,
                            rwe: bool) returns (r: Outcome<()>)
      requires Valid() && dst != system
      modifies this, handler.store
      ensures !AllReceive(decoders, old(data), system, NamesIn(items), dst, now) <==> r.Refused?
      ensures r.Refused? ==> data == old(data) && handler.store.State() == old(handler.store.State())
      ensures r.Done? ==>
                && Valid()
                && ReceiveAll(handler.host, old(handler.store.State()), snd, dst, items, rwe) == Ok(handler.store.State())
                && OnlyListed(old(data), data, {dst, system}, IdsIn(items))
      ensures r.Done? && (forall i :: 0 <= i < |items| ==> Keys.ValidToken(items[i].token)) ==>
                ReceivedCleared(decoders, old(data), data, system, dst, now)
    {
      hide D.Cleared, D.Evaluate, D.ApplyAll, WritesOf, OnlyListed, Represents, AddNft, AddToBalance, Moved,
           Arrives, WithMetaData, ArrivalReads, MayArrive, Keys.ValidToken, ReceivedCleared, KeepsTotals, IdsIn, Id;
      ghost var before, sh0 := data, handler.store.State();
      var h, i := handler.host, 0;
      while i < |items|
        invariant 0 <= i <= |items| && data == before && handler.store.State() == sh0
        invariant forall j :: 0 <= j < i ==> D.Cleared(decoders, before, system, items[j].token, dst, now, false)
      {
        D.EvaluateIff(decoders, data, system, items[i].token, dst, now, false);
        var answer := D.Evaluate(decoders, data, system, items[i].token, dst, now, false);
        if answer.Fail? {
          assert NamesIn(items)[i] == items[i].token;
          return Refused(answer.error);
        }
        i := i + 1;
      }
      i := 0;
      Unmoved(data, {dst, system}, IdsIn(items[..0]));
      while i < |items|
        invariant 0 <= i <= |items| && Valid()
        invariant ReceiveAll(h, sh0, snd, dst, items[..i], rwe) == Ok(handler.store.State())
        invariant OnlyListed(before, data, {dst, system}, IdsIn(items[..i]))
      {
        var item := items[i];
        assert items[..i + 1][..i] == items[..i];
        ghost var shard := handler.store.State();
        var received := handler.ReceiveToken(snd, dst, item, rwe);
        if received.Fail? {
          return Failed(received.error);
        }
        ReceivedItem(h, codec, system, before, data, shard, snd, dst, items, i, rwe);
        if item.token != BASE_TOKEN || item.nonce > 0 {
          data := D.ApplyAll(data, WritesOf(codec, system, handler.store.State(), dst, dst, Id(Key(item.token, item.nonce))));
        }
        i := i + 1;
      }
      assert items[..i] == items;
      if forall j :: 0 <= j < |items| ==> Keys.ValidToken(items[j].token) {
        ReceivedWasCleared(decoders, before, data, system, items, dst, now, {dst, system});
      }
      r := Done(());
    }
  }
}
