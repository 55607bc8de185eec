// When the functions that move tokens may do so: frozen records, frozen
// collections, paused tokens, limited transfers and payable receivers.
module Permissions {
  import opened Bytes
  import opened Tokens
  import opened EsdtStorage
  import opened MetaDataMerge
  import opened Ledger
  import opened Network
  import opened Conservation
  import opened Liquidity
  import opened Metadata
  import Keys
  import Wire = TransferWire

  // ---- one account and one identifier ----

  // The lowest bit of the first of two property bytes.
  predicate FrozenBit(properties: bytes) {
    |properties| == 2 && properties[0] % 2 == 1
  }

  // Not frozen there and not paused, except in a call that returns tokens
  // after an error and for the system contract.
  predicate MayUse(env: Env, a: Address, id: bytes, properties: bytes, rwe: bool) {
    rwe || a == env.esdtAddress || (!FrozenBit(properties) && id !in env.paused)
  }

  predicate CollectionFree(env: Env, sh: Shard, a: Address, k: Key, rwe: bool) {
    env.flags.checkFrozenCollection && k.nonce > 0 && !rwe ==>
      RecordAt(sh, a, k.token).Some? ==> !FrozenBit(RecordAt(sh, a, k.token).value.properties)
  }

  // The global type is there where a save must ask for it.
  predicate TypeKnown(env: Env, k: Key, kind: TokenType) {
    env.flags.dynamicEsdt && (kind == NonFungible || kind == SemiFungible || kind == MetaFungible) ==>
      env.tokenType(k.token).Some?
  }

  // A record with these properties may be saved: neither its collection nor
  // itself is frozen or paused.
  predicate MaySave(env: Env, sh: Shard, a: Address, k: Key, properties: bytes, rwe: bool) {
    && MayUse(env, a, k.token, properties, rwe) && MayUse(env, a, Id(k), properties, rwe)
    && CollectionFree(env, sh, a, k, rwe)
  }

  lemma SaveIff(env: Env, sh: Shard, sender: nat, a: Address, k: Key, t: Token, args: SaveArgs)
    ensures SaveToken(env, sh, sender, a, k, t, args).Ok?
            <==> MaySave(env, sh, a, k, t.properties, args.returnWithError) && TypeKnown(env, k, t.kind)
  {
    hide Id;
  }

  lemma TakeIff(h: Host, sh: Shard, a: Address, k: Key, t: Token, q: int, rwe: bool)
    ensures TakeNft(h, sh, a, k, t, q, rwe).Ok? <==> MaySave(h.env, sh, a, k, t.properties, rwe) && TypeKnown(h.env, k, t.kind)
  {
    hide SaveToken, MaySave, TypeKnown;
    SaveIff(h.env, sh, h.shardOf(a), a, k, t.(value := t.value - q), SaveArgs(false, rwe, false));
  }

  // ---- fungible balances ----

  predicate MayChange(env: Env, sh: Shard, a: Address, id: bytes, delta: int, rwe: bool) {
    var t := FungibleRecord(sh, a, id);
    t.kind == Fungible && MayUse(env, a, id, t.properties, rwe) && t.value + delta >= 0
  }

  lemma BalanceIff(env: Env, sh: Shard, a: Address, id: bytes, delta: int, rwe: bool)
    ensures AddToBalance(env, sh, a, id, delta, rwe).Ok? <==> MayChange(env, sh, a, id, delta, rwe)
  {
  }

  // A limited token moves only with a transfer role on one of the sides.
  predicate MayTransfer(h: Host, snd: Address, dst: Address, token: bytes, rwe: bool) {
    h.limited(token) && !rwe && !h.transferRoleAddress(snd, dst, token) && !h.hasRole(snd, token, Transferring) ==>
      Here(h, dst) && h.hasRole(dst, token, Transferring)
  }

  predicate MaySendFungible(h: Host, sh: Shard, snd: Address, dst: Address, id: bytes, value: nat, rwe: bool) {
    && h.shardOf(dst) != METACHAIN && value > 0 && MayTransfer(h, snd, dst, id, rwe)
    && MayChange(h.env, sh, snd, id, -(value as int), rwe)
    && (Here(h, dst) ==> h.payable(dst) && MayChange(h.env, sh, dst, id, if snd == dst then 0 else value, rwe))
  }

  // A fungible transfer succeeds exactly when it may.
  lemma SendFungibleIff(h: Host, sh: Shard, snd: Address, dst: Address, id: bytes, value: nat, rwe: bool)
    requires Holding(sh, dst, Esdt(id)) >= 0
    ensures SendFungible(h, sh, snd, dst, id, value, rwe).Ok? <==> MaySendFungible(h, sh, snd, dst, id, value, rwe)
  {
    hide AddToBalance;
    BalanceIff(h.env, sh, snd, id, -(value as int), rwe);
    var debited := AddToBalance(h.env, sh, snd, id, -(value as int), rwe);
    if debited.Ok? && value > 0 {
      BalanceIff(h.env, debited.value, dst, id, value, rwe);
      DebitedRecord(h.env, sh, snd, id, value, rwe, dst);
    }
  }

  lemma DebitedRecord(env: Env, sh: Shard, a: Address, id: bytes, value: nat, rwe: bool, b: Address)
    requires AddToBalance(env, sh, a, id, -(value as int), rwe).Ok?
    ensures var before, after := FungibleRecord(sh, b, id),
                                 FungibleRecord(AddToBalance(env, sh, a, id, -(value as int), rwe).value, b, id);
            && (b != a ==> after == before)
            && (b == a ==> after.kind == before.kind && after.value == before.value - value
                           && (FrozenBit(after.properties) <==> FrozenBit(before.properties)))
  {
  }

  predicate MayReceiveFungible(h: Host, sh: Shard, dst: Address, item: Wire.Received, rwe: bool) {
    item.data.value > 0 && h.payable(dst) && MayChange(h.env, sh, dst, item.token, item.data.value, rwe)
  }

  lemma ReceiveFungibleIff(h: Host, sh: Shard, dst: Address, item: Wire.Received, rwe: bool)
    ensures ReceiveFungible(h, sh, dst, item, rwe).Ok? <==> MayReceiveFungible(h, sh, dst, item, rwe)
  {
    hide AddToBalance, MayChange;
    BalanceIff(h.env, sh, dst, item.token, item.data.value, rwe);
  }

  lemma MintIff(h: Host, sh: Shard, a: Address, id: bytes, value: nat, rwe: bool)
    ensures Mint(h, sh, a, id, value, rwe).Ok?
            <==> value > 0 && h.hasRole(a, id, LocalMint) && MayChange(h.env, sh, a, id, value, rwe)
    ensures BurnFungible(h, sh, a, id, value, rwe).Ok?
            <==> value > 0 && (h.burnForAll(id) || h.hasRole(a, id, LocalBurn))
                 && MayChange(h.env, sh, a, id, -(value as int), rwe)
  {
    hide AddToBalance, MayChange;
    BalanceIff(h.env, sh, a, id, value, rwe);
    BalanceIff(h.env, sh, a, id, -(value as int), rwe);
  }

  // ---- NFTs ----

  function PropertiesAt(sh: Shard, a: Address, id: bytes): bytes {
    if RecordAt(sh, a, id).None? then [] else RecordAt(sh, a, id).value.properties
  }

  // The receiver may take what it holds already, and what arrives.
  predicate MayArrive(env: Env, sh: Shard, dst: Address, k: Key, properties: bytes, rwe: bool) {
    MayUse(env, dst, k.token, PropertiesAt(sh, dst, Id(k)), rwe) && MaySave(env, sh, dst, k, properties, rwe)
  }

  // The versions to be merged are readable.
  predicate MergesCleanly(h: Host, was: Token, t: Token) {
    h.env.flags.dynamicEsdt && was.meta.Some? ==> VersionsIn(h.vc, was.reserved).Some? && VersionsIn(h.vc, t.reserved).Some?
  }

  lemma MergeIff(h: Host, sh: Shard, dst: Address, k: Key, t: Token, sum: Token)
    requires (h.env.flags.dynamicEsdt ==> t.meta.Some?) && sum == t.(value := sum.value)
    ensures var m := MergedToken(h, Known(sh, k, OnDestination(h.env, sh, dst, k), t.kind), sum);
            && (m.Some? <==> MergesCleanly(h, Seen(h.env, sh, dst, k, t.kind), t))
            && (m.Some? ==> m.value == sum.(meta := m.value.meta, reserved := m.value.reserved))
  {
    hide Id;
    var was, known := Seen(h.env, sh, dst, k, t.kind), Known(sh, k, OnDestination(h.env, sh, dst, k), t.kind);
    assert known.meta == was.meta && known.reserved == was.reserved;
  }

  lemma ArrivalIff(h: Host, sh: Shard, snd: Address, dst: Address, k: Key, t: Token, rwe: bool)
    requires h.env.flags.dynamicEsdt ==> t.meta.Some?
    ensures var r := AddNft(h, sh, snd, dst, k, t, rwe);
            var may := MayArrive(h.env, sh, dst, k, t.properties, rwe) && TypeKnown(h.env, k, t.kind)
                       && MergesCleanly(h, Seen(h.env, sh, dst, k, t.kind), t);
            && (r.Ok? ==> may)
            && (may && r.Fail? ==> h.shardOf(snd) != h.shardOf(dst) && (r.error == NilESDTData || r.error == InvalidLiquidity))
  {
    hide SaveToken, MaySave, TypeKnown, OnDestination, MergedToken, MergesCleanly, Known, Seen, Id;
    var cur := OnDestination(h.env, sh, dst, k);
    var sum := t.(value := t.value + cur.token.value);
    MergeIff(h, sh, dst, k, t, sum);
    OwnProperties(h.env, sh, dst, k);
    var latest := MergedToken(h, Known(sh, k, cur, t.kind), sum);
    if latest.Some? {
      SaveIff(h.env, sh, h.shardOf(snd), dst, k, latest.value, SaveArgs(false, rwe, false));
    }
  }

  lemma OwnProperties(env: Env, sh: Shard, a: Address, k: Key)
    ensures OnDestination(env, sh, a, k).token.properties == PropertiesAt(sh, a, Id(k))
    ensures OnDestination(env, sh, a, k).isNew <==> RecordAt(sh, a, Id(k)).None?
    ensures OnDestination(env, sh, a, k).token.value == Holding(sh, a, Esdt(Id(k)))
  {
    hide Id;
  }

  lemma ArrivalNeeds(h: Host, sh: Shard, snd: Address, dst: Address, k: Key, t: Token, rwe: bool)
    requires AddNft(h, sh, snd, dst, k, t, rwe).Ok?
    ensures MayArrive(h.env, sh, dst, k, t.properties, rwe)
  {
    hide SaveToken, MaySave, OnDestination, Known, MergedInto, Id;
    var cur := OnDestination(h.env, sh, dst, k);
    var sum := t.(value := t.value + cur.token.value);
    OwnProperties(h.env, sh, dst, k);
    var latest := MergedToken(h, Known(sh, k, cur, t.kind), sum).value;
    SaveIff(h.env, sh, h.shardOf(snd), dst, k, latest, SaveArgs(false, rwe, false));
  }

  // A frozen or paused token, collection or item, is neither taken nor given,
  // nor is its fungible balance changed.
  lemma PausedBlocks(h: Host, sh: Shard, a: Address, k: Key, other: Address, t: Token, q: int)
    requires a != h.env.esdtAddress && (k.token in h.env.paused || Id(k) in h.env.paused)
    ensures OnSender(h.env, sh, a, k).Ok? ==> TakeNft(h, sh, a, k, OnSender(h.env, sh, a, k).value, q, false).Fail?
    ensures AddNft(h, sh, other, a, k, t, false).Fail?
    ensures Id(k) in h.env.paused ==> AddToBalance(h.env, sh, a, Id(k), q, false).Fail?
  {
    hide AddNft, TakeNft, OnSender, AddToBalance, CollectionFree, TypeKnown, Id;
    if OnSender(h.env, sh, a, k).Ok? {
      TakeIff(h, sh, a, k, OnSender(h.env, sh, a, k).value, q, false);
    }
    if AddNft(h, sh, other, a, k, t, false).Ok? {
      ArrivalNeeds(h, sh, other, a, k, t, false);
    }
    BalanceIff(h.env, sh, a, Id(k), q, false);
  }

  // ---- transfers of NFTs ----

  // The sender holds the quantity and may part with it, and a receiver in the
  // shard may take it.
  predicate MayMove(h: Host, sh: Shard, snd: Address, dst: Address, k: Key, q: nat, rwe: bool) {
    var properties := PropertiesAt(sh, snd, Id(k));
    && RecordAt(sh, snd, Id(k)).Some? && q <= Holding(sh, snd, Esdt(Id(k)))
    && MaySave(h.env, sh, snd, k, properties, rwe)
    && (Here(h, dst) ==> MayArrive(h.env, sh, dst, k, properties, rwe))
    && MayTransfer(h, snd, dst, k.token, rwe)
  }

  predicate MaySendNft(h: Host, sh: Shard, snd: Address, dst: Address, k: Key, q: nat, rwe: bool) {
    && |dst| == |snd| && dst != snd && h.shardOf(dst) != METACHAIN && k.nonce > 0
    && (h.env.flags.checkTransfer ==> q > 0) && (Here(h, dst) ==> h.payable(dst))
    && MayMove(h, sh, snd, dst, k, q, rwe)
  }

  // Taking and handing over, where totals are right.
  lemma MoveIff(h: Host, sh: Shard, snd: Address, dst: Address, k: Key, q: nat, rwe: bool)
    requires Config(h.env.flags) && AllCovered(sh) && Here(h, snd) && snd != dst
    requires Named(k) && (MayLeave(k) || Here(h, dst))
    requires OnSender(h.env, sh, snd, k).Ok? && q <= OnSender(h.env, sh, snd, k).value.value
    ensures var taken := TakeNft(h, sh, snd, k, OnSender(h.env, sh, snd, k).value, q, rwe);
            taken.Ok? && HandOver(h, taken.value.shard, snd, dst, k, taken.value.token, rwe).Ok?
            && TransferAllowed(h, snd, dst, Here(h, dst), k.token, rwe)
            <==> MayMove(h, sh, snd, dst, k, q, rwe)
  {
    hide TakeNft, AddNft, AddToLiquidity, OnSender, MaySave, MayUse, AllCovered, Named, MayLeave, Seen, Id;
    var t := OnSender(h.env, sh, snd, k).value;
    var taken := TakeNft(h, sh, snd, k, t, q, rwe);
    SenderRecord(h.env, sh, snd, k);
    TakeIff(h, sh, snd, k, t, q, rwe);
    TakeAndHandOverCovers(h, sh, snd, dst, k, t, q, rwe);
    if taken.Ok? {
      TakenProperties(h, sh, snd, dst, k, t, q, rwe);
      if Here(h, dst) {
        ArrivalIff(h, taken.value.shard, snd, dst, k, taken.value.token, rwe);
      } else {
        OnlyLiquidityErrors(h.env, taken.value.shard, k, taken.value.token.kind, -taken.value.token.value,
                            KeepsMetaData(h, snd, k.token, taken.value.token.kind));
      }
    }
  }

  lemma SenderRecord(env: Env, sh: Shard, a: Address, k: Key)
    requires OnSender(env, sh, a, k).Ok?
    ensures var t := OnSender(env, sh, a, k).value;
            && t.properties == PropertiesAt(sh, a, Id(k)) && t.value == Holding(sh, a, Esdt(Id(k)))
            && RecordAt(sh, a, Id(k)).Some?
  {
    hide Id;
  }

  lemma OnlyLiquidityErrors(env: Env, sh: Shard, k: Key, kind: TokenType, delta: int, keep: bool)
    ensures Fine(AddToLiquidity(env, sh, k, kind, delta, keep)) ==> AddToLiquidity(env, sh, k, kind, delta, keep).Ok?
  {
    hide Id;
  }

  // What is taken has its holder's properties, and the receiver's records are
  // as before.
  lemma TakenProperties(h: Host, sh: Shard, a: Address, b: Address, k: Key, t: Token, q: nat, rwe: bool)
    requires TakeNft(h, sh, a, k, t, q, rwe).Ok? && a != b
    ensures var taken := TakeNft(h, sh, a, k, t, q, rwe).value;
            && taken.token.properties == t.properties
            && forall properties ::
                 (MayArrive(h.env, taken.shard, b, k, properties, rwe) <==> MayArrive(h.env, sh, b, k, properties, rwe))
  {
    hide SaveToken, Id;
    SaveKeepsOtherHolders(h.env, sh, h.shardOf(a), a, k, t.(value := t.value - q), SaveArgs(false, rwe, false), b, k);
  }

  // A well-named transfer succeeds exactly when it may.
  lemma SendNftIff(h: Host, sh: Shard, snd: Address, dst: Address, k: Key, q: nat, rwe: bool)
    requires Config(h.env.flags) && AllCovered(sh) && Here(h, snd) && Named(k)
    ensures SendNft(h, sh, snd, dst, k, q, rwe).Ok? <==> MaySendNft(h, sh, snd, dst, k, q, rwe)
  {
    hide TakeNft, HandOver, OnSender, AllCovered, MayMove, TransferAllowed, Id;
    SenderIff(h.env, sh, snd, k);
    var t := OnSender(h.env, sh, snd, k);
    if MayMove(h, sh, snd, dst, k, q, rwe) {
      MoveNeeds(h, sh, snd, dst, k, q, rwe);
    }
    if t.Ok? && snd != dst && k.nonce > 0 && q <= t.value.value {
      SenderRecord(h.env, sh, snd, k);
      MoveIff(h, sh, snd, dst, k, q, rwe);
    }
  }

  lemma SenderIff(env: Env, sh: Shard, a: Address, k: Key)
    ensures OnSender(env, sh, a, k).Ok? <==> RecordAt(sh, a, Id(k)).Some?
    ensures OnSender(env, sh, a, k).Ok? ==> OnSender(env, sh, a, k).value.value == Holding(sh, a, Esdt(Id(k)))
  {
    hide Id;
  }

  lemma MoveNeeds(h: Host, sh: Shard, snd: Address, dst: Address, k: Key, q: nat, rwe: bool)
    requires MayMove(h, sh, snd, dst, k, q, rwe)
    ensures RecordAt(sh, snd, Id(k)).Some? && q <= Holding(sh, snd, Esdt(Id(k)))
  {
  }

  // Under any setting a transfer that succeeds was one that may.
  lemma MoveNeedsAll(h: Host, sh: Shard, snd: Address, dst: Address, k: Key, q: nat, rwe: bool)
    requires snd != dst && OnSender(h.env, sh, snd, k).Ok? && q <= OnSender(h.env, sh, snd, k).value.value
    requires var taken := TakeNft(h, sh, snd, k, OnSender(h.env, sh, snd, k).value, q, rwe);
             && taken.Ok? && HandOver(h, taken.value.shard, snd, dst, k, taken.value.token, rwe).Ok?
             && TransferAllowed(h, snd, dst, Here(h, dst), k.token, rwe)
    ensures MayMove(h, sh, snd, dst, k, q, rwe)
  {
    hide TakeNft, AddNft, OnSender, MaySave, MayUse, Id;
    var t := OnSender(h.env, sh, snd, k).value;
    var taken := TakeNft(h, sh, snd, k, t, q, rwe).value;
    SenderRecord(h.env, sh, snd, k);
    TakeIff(h, sh, snd, k, t, q, rwe);
    TakenProperties(h, sh, snd, dst, k, t, q, rwe);
    if Here(h, dst) {
      ArrivalNeeds(h, taken.shard, snd, dst, k, taken.token, rwe);
    }
  }

  lemma SendNftNeeds(h: Host, sh: Shard, snd: Address, dst: Address, k: Key, q: nat, rwe: bool)
    requires SendNft(h, sh, snd, dst, k, q, rwe).Ok?
    ensures MaySendNft(h, sh, snd, dst, k, q, rwe)
  {
    hide TakeNft, HandOver, OnSender, MayMove, TransferAllowed, Id;
    MoveNeedsAll(h, sh, snd, dst, k, q, rwe);
  }

  predicate MaySendOne(h: Host, sh: Shard, snd: Address, dst: Address, tr: Wire.Transfer, rwe: bool) {
    && tr.value > 0
    && if tr.token == BASE_TOKEN
       then h.env.flags.baseTokenInMultiTransfer && tr.nonce == 0 && tr.value <= Holding(sh, snd, Base)
       else MayMove(h, sh, snd, dst, KeyOf(tr), tr.value, rwe)
  }

  lemma SendOneNeeds(h: Host, sh: Shard, snd: Address, dst: Address, tr: Wire.Transfer, rwe: bool)
    requires snd != dst && SendOne(h, sh, snd, dst, tr, rwe).Ok?
    ensures MaySendOne(h, sh, snd, dst, tr, rwe)
  {
    hide TakeNft, HandOver, OnSender, MayMove, TransferAllowed, Id;
    if tr.token != BASE_TOKEN {
      MoveNeedsAll(h, sh, snd, dst, KeyOf(tr), tr.value, rwe);
    }
  }

  lemma SendOneIff(h: Host, sh: Shard, snd: Address, dst: Address, tr: Wire.Transfer, rwe: bool)
    requires Config(h.env.flags) && AllCovered(sh) && Here(h, snd) && snd != dst && WellNamed(h, dst, tr)
    ensures SendOne(h, sh, snd, dst, tr, rwe).Ok? <==> MaySendOne(h, sh, snd, dst, tr, rwe)
  {
    hide TakeNft, HandOver, OnSender, AllCovered, MayMove, TransferAllowed, Id;
    var k := KeyOf(tr);
    if tr.token != BASE_TOKEN {
      SenderIff(h.env, sh, snd, k);
      if MayMove(h, sh, snd, dst, k, tr.value, rwe) {
        MoveNeeds(h, sh, snd, dst, k, tr.value, rwe);
      }
      var t := OnSender(h.env, sh, snd, k);
      if t.Ok? && tr.value <= t.value.value {
        SenderRecord(h.env, sh, snd, k);
        MoveIff(h, sh, snd, dst, k, tr.value, rwe);
      }
    }
  }

  predicate NonePaused(env: Env, list: seq<Wire.Transfer>) {
    forall i :: 0 <= i < |list| && list[i].token != BASE_TOKEN ==>
      list[i].token !in env.paused && Id(KeyOf(list[i])) !in env.paused
  }

  // No item of a list that went through is paused.
  lemma {:induction false} SentUnpaused(h: Host, sh: Shard, snd: Address, dst: Address, list: seq<Wire.Transfer>, rwe: bool)
    requires SendAll(h, sh, snd, dst, list, rwe).Ok? && snd != dst && !rwe && snd != h.env.esdtAddress
    ensures NonePaused(h.env, list)
    decreases |list|
  {
    hide SendOne, MayTransfer, MayArrive, CollectionFree, Holding, Id;
    if |list| > 0 {
      var n := |list| - 1;
      SentUnpaused(h, sh, snd, dst, list[..n], rwe);
      SendOneNeeds(h, SendAll(h, sh, snd, dst, list[..n], rwe).value.shard, snd, dst, list[n], rwe);
    }
  }

  // The receiver of a list in the shard is payable, and a list is never sent
  // to the sender itself or to the metachain.
  lemma SendMultiNeeds(h: Host, sh: Shard, snd: Address, dst: Address, list: seq<Wire.Transfer>, rwe: bool)
    requires SendMulti(h, sh, snd, dst, list, rwe).Ok?
    ensures |dst| == |snd| && dst != snd && h.shardOf(dst) != METACHAIN && |list| > 0
    ensures Here(h, dst) ==> h.payable(dst)
    ensures SendAll(h, sh, snd, dst, list, rwe).Ok?
  {
    hide SendAll, BuildItems;
  }

  // ---- supply ----

  predicate MayCreate(h: Host, sh: Shard, a: Address, k: Key, q: nat, rwe: bool) {
    && h.hasRole(a, k.token, NFTCreate) && q > 0 && (q > 1 ==> h.hasRole(a, k.token, NFTAddQuantity))
    && MaySave(h.env, sh, a, k, [], rwe) && (h.env.flags.dynamicEsdt ==> h.env.tokenType(k.token).Some?)
  }

  predicate MayAddQuantity(h: Host, sh: Shard, a: Address, k: Key, rwe: bool) {
    && h.hasRole(a, k.token, NFTAddQuantity) && k.nonce > 0 && RecordAt(sh, a, Id(k)).Some?
    && MaySave(h.env, sh, a, k, PropertiesAt(sh, a, Id(k)), rwe)
  }

  predicate MayBurn(h: Host, sh: Shard, a: Address, k: Key, q: nat, rwe: bool) {
    && (h.burnForAll(k.token) || h.hasRole(a, k.token, NFTBurn)) && k.nonce > 0
    && RecordAt(sh, a, Id(k)).Some? && q <= Holding(sh, a, Esdt(Id(k)))
    && MaySave(h.env, sh, a, k, PropertiesAt(sh, a, Id(k)), rwe)
  }

  // With its role, a held NFT with metadata and readable versions that may be
  // saved.
  predicate MayUpdate(h: Host, sh: Shard, a: Address, k: Key, u: Update, rwe: bool) {
    && h.hasRole(a, k.token, match u case AddUris(_) => NFTAddURI case SetAttributes(_) => NFTUpdateAttributes)
    && k.nonce > 0 && OnSender(h.env, sh, a, k).Ok?
    && var t := OnSender(h.env, sh, a, k).value;
       t.meta.Some? && (h.env.flags.dynamicEsdt ==> VersionsIn(h.vc, t.reserved).Some?)
       && TypeKnown(h.env, k, t.kind) && MaySave(h.env, sh, a, k, t.properties, rwe)
  }

  lemma CreateNeeds(h: Host, sh: Shard, a: Address, k: Key, q: nat, meta: MetaData, rwe: bool)
    requires CreateNft(h, sh, a, k, q, meta, rwe).Ok?
    ensures MayCreate(h, sh, a, k, q, rwe)
  {
    hide SaveToken, AddToLiquidity, MaySave, Id;
    var kind := if h.env.flags.dynamicEsdt then h.env.tokenType(k.token) else Some(NonFungible);
    SaveIff(h.env, sh, h.shardOf(a), a, k, Token(kind.value, q, Some(meta), [], None), SaveArgs(true, rwe, false));
  }

  lemma CreateIff(h: Host, sh: Shard, a: Address, k: Key, q: nat, meta: MetaData, rwe: bool)
    requires Config(h.env.flags) && AllCovered(sh) && k.nonce > 0 && Named(k) && Holding(sh, a, Esdt(Id(k))) == 0
    ensures CreateNft(h, sh, a, k, q, meta, rwe).Ok?
            <==> MayCreate(h, sh, a, k, q, rwe)
  {
    hide SaveToken, AddToLiquidity, AllCovered, MaySave, Keys.IsNft, Id;
    var t := Token(NonFungible, q, Some(meta), [], None);
    SaveIff(h.env, sh, h.shardOf(a), a, k, t, SaveArgs(true, rwe, false));
    CreateCovers(h, sh, a, k, q, meta, rwe);
    var saved := SaveToken(h.env, sh, h.shardOf(a), a, k, t, SaveArgs(true, rwe, false));
    if saved.Ok? {
      OnlyLiquidityErrors(h.env, saved.value.shard, k, saved.value.kind, q, false);
    }
  }

  lemma AddQuantityIff(h: Host, sh: Shard, a: Address, k: Key, q: nat, rwe: bool)
    requires Config(h.env.flags) && AllCovered(sh) && Named(k)
    ensures AddQuantity(h, sh, a, k, q, rwe).Ok?
            <==> MayAddQuantity(h, sh, a, k, rwe)
  {
    hide SaveToken, AddToLiquidity, AllCovered, OnSender, MaySave, Named, Id;
    SenderIff(h.env, sh, a, k);
    AddQuantityCovers(h, sh, a, k, q, rwe);
    if OnSender(h.env, sh, a, k).Ok? {
      SenderRecord(h.env, sh, a, k);
      var t := OnSender(h.env, sh, a, k).value;
      var more := t.(value := t.value + q);
      SaveIff(h.env, sh, h.shardOf(a), a, k, more, SaveArgs(false, rwe, false));
      var saved := SaveToken(h.env, sh, h.shardOf(a), a, k, more, SaveArgs(false, rwe, false));
      if saved.Ok? {
        OnlyLiquidityErrors(h.env, saved.value.shard, k, saved.value.kind, q, false);
      }
    }
  }

  lemma BurnNftIff(h: Host, sh: Shard, a: Address, k: Key, q: nat, rwe: bool)
    requires Config(h.env.flags) && AllCovered(sh) && Named(k)
    ensures BurnNft(h, sh, a, k, q, rwe).Ok?
            <==> MayBurn(h, sh, a, k, q, rwe)
  {
    hide TakeNft, AddToLiquidity, AllCovered, OnSender, MaySave, Named, Id;
    SenderIff(h.env, sh, a, k);
    BurnNftCovers(h, sh, a, k, q, rwe);
    if OnSender(h.env, sh, a, k).Ok? {
      SenderRecord(h.env, sh, a, k);
      var t := OnSender(h.env, sh, a, k).value;
      TakeIff(h, sh, a, k, t, q, rwe);
      var taken := TakeNft(h, sh, a, k, t, q, rwe);
      if taken.Ok? {
        OnlyLiquidityErrors(h.env, taken.value.shard, k, taken.value.token.kind, -(q as int), false);
      }
    }
  }

  lemma UpdateIff(h: Host, sh: Shard, a: Address, k: Key, u: Update, rwe: bool)
    ensures UpdateMetaData(h, sh, a, k, u, rwe).Ok?
            <==> MayUpdate(h, sh, a, k, u, rwe)
  {
    hide SaveToken, OnSender, MaySave, TypeKnown, Id;
    var r, args := UpdateMetaData(h, sh, a, k, u, rwe), SaveArgs(true, rwe, true);
    if k.nonce > 0 && OnSender(h.env, sh, a, k).Ok? {
      var t := OnSender(h.env, sh, a, k).value;
      var v := VersionOf(h.vc, h.env.flags.dynamicEsdt, t.reserved);
      if t.meta.Some? && v.Some? {
        var versions := UpdatedVersions(v.value.versions, u, h.round);
        var reserved := if h.env.flags.dynamicEsdt then Some(h.vc.marshal(versions)) else t.reserved;
        var updated := t.(meta := Some(Updated(t.meta.value, u)), reserved := reserved);
        SaveIff(h.env, sh, h.shardOf(a), a, k, updated, args);
      }
    }
  }

  // ---- totals begin ----

  // A create of an NFT the shard has not seen starts its total at the quantity.
  lemma CreateTracks(h: Host, sh: Shard, a: Address, k: Key, q: nat, meta: MetaData, rwe: bool)
    requires Config(h.env.flags) && k.nonce > 0 && CreateNft(h, sh, a, k, q, meta, rwe).Ok?
    requires SystemAt(sh, Id(k)).None? && RecordAt(sh, a, Id(k)).None?
    ensures var entry := SystemAt(CreateNft(h, sh, a, k, q, meta, rwe).value, Id(k));
            Tracked(entry) && entry.value.value == q && entry.value.meta == Some(meta)
  {
    hide Id, SaveBlocked;
  }

  // So does the first arrival.
  lemma ArrivalTracks(h: Host, sh: Shard, snd: Address, dst: Address, k: Key, t: Token, rwe: bool)
    requires Config(h.env.flags) && k.nonce > 0 && h.shardOf(snd) != h.shardOf(dst)
    requires AddNft(h, sh, snd, dst, k, t, rwe).Ok? && t.kind == NonFungible && t.meta.Some? && t.value > 0
    requires SystemAt(sh, Id(k)).None? && RecordAt(sh, dst, Id(k)).None?
    ensures var entry := SystemAt(AddNft(h, sh, snd, dst, k, t, rwe).value, Id(k));
            Tracked(entry) && entry.value.value == t.value && entry.value.meta == t.meta
  {
    hide Id, SaveBlocked;
  }

  // A first save tracks, but for an old token whose holder has the metadata in
  // its own record, once those are treated apart.
  lemma FirstSaveTracksIff(env: Env, sh: Shard, sender: nat, a: Address, k: Key, t: Token, args: SaveArgs)
    requires env.flags.saveToSystemAccount && env.flags.sendAlways && k.nonce > 0 && t.meta.Some?
    requires SystemAt(sh, Id(k)).None? && SaveToken(env, sh, sender, a, k, t, args).Ok? && ReservedEmpty(t.reserved)
    requires !WithHolder(env, SaveToken(env, sh, sender, a, k, t, args).value.kind)
    ensures var entry := SystemAt(SaveToken(env, sh, sender, a, k, t, args).value.shard, Id(k));
            && entry.Some? && entry.value.meta == t.meta && entry.value.value == 0
            && (Tracked(entry) <==>
                  !(env.flags.fixOldTokenLiquidity && RecordAt(sh, a, Id(k)).Some? && RecordAt(sh, a, Id(k)).value.meta.Some?))
  {
    hide Id, SaveBlocked;
  }

  // A total once begun goes on: a save that need not rewrite everything keeps
  // the entry tracked, and an adjustment does too or removes the entry.
  lemma SaveStaysTracked(env: Env, sh: Shard, sender: nat, a: Address, k: Key, t: Token, args: SaveArgs)
    requires Config(env.flags) && !args.updateAll && t.kind == NonFungible && !Stamped(t.reserved)
    requires SaveToken(env, sh, sender, a, k, t, args).Ok? && Tracked(SystemAt(sh, Id(k)))
    ensures var entry := SystemAt(SaveToken(env, sh, sender, a, k, t, args).value.shard, Id(k));
            entry == SystemAt(sh, Id(k))
  {
    hide Id, SaveBlocked;
  }

  lemma AdjustStaysTracked(env: Env, sh: Shard, k: Key, delta: int, keep: bool)
    requires Config(env.flags) && k.nonce > 0 && Tracked(SystemAt(sh, Id(k))) && SystemAt(sh, Id(k)).value.value + delta >= 0
    requires SystemAt(sh, Id(k)).value.value > 0 || delta >= 0
    ensures var was, r := SystemAt(sh, Id(k)).value, AddToLiquidity(env, sh, k, NonFungible, delta, keep);
            && r.Ok?
            && SystemAt(r.value, Id(k)) == if was.value + delta == 0 && !keep then None else Some(was.(value := was.value + delta))
  {
    hide Id;
  }

  // With metadata not always sent, a first save lists the shard it happens on
  // and the sender's as having it, and no other.
  lemma FirstSaveLists(env: Env, sh: Shard, sender: nat, a: Address, k: Key, t: Token, args: SaveArgs, shard: nat)
    requires env.flags.saveToSystemAccount && !env.flags.sendAlways && k.nonce > 0 && t.meta.Some?
    requires SystemAt(sh, Id(k)).None? && SaveToken(env, sh, sender, a, k, t, args).Ok?
    requires !WithHolder(env, SaveToken(env, sh, sender, a, k, t, args).value.kind)
    ensures var entry := SystemAt(SaveToken(env, sh, sender, a, k, t, args).value.shard, Id(k));
            && entry.Some? && entry.value.meta == t.meta
            && (Lists(entry, shard) <==> shard < env.shards && (shard == env.selfShard || shard == sender))
  {
    hide Id, SaveBlocked;
  }
}
