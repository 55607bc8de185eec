// The liquidity total kept with an NFT's metadata on the system account equals
// the sum of the token's balances on the shard, through every step, so the
// liquidity errors cannot be returned.
module Liquidity {
  import opened Bytes
  import opened Tokens
  import opened EsdtStorage
  import opened MetaDataMerge
  import opened Ledger
  import opened Network
  import opened Conservation
  import opened Keys
  import Wire = TransferWire

  // The configuration of the liquidity model.
  predicate Config(flags: Flags) {
    flags.saveToSystemAccount && flags.sendAlways && !flags.dynamicEsdt && flags.wipeLowersLiquidity
  }

  predicate Tracked(entry: Option<Token>) {
    entry.Some? && !ReservedEmpty(entry.value.reserved)
  }

  predicate GoodRecord(t: Option<Token>) {
    t.Some? ==> t.value.kind == NonFungible && t.value.value > 0
  }

  // With d of the token taken from its holders but not yet from the total:
  // a tracked total is the sum of the balances and d, and while there is any
  // the metadata is there.
  ghost predicate Covered(sh: Shard, id: bytes, d: int) {
    var sum, entry := ShardTotal(sh, Esdt(id)) + d, SystemAt(sh, id);
    && (forall a: Address :: GoodRecord(RecordAt(sh, a, id)))
    && (entry.Some? ==> entry.value.meta.Some?)
    && (sum > 0 ==> entry.Some?)
    && (Tracked(entry) ==> entry.value.value == sum)
  }

  ghost predicate SameAt(before: Shard, after: Shard, id: bytes) {
    SystemAt(after, id) == SystemAt(before, id) && forall a: Address :: RecordAt(after, a, id) == RecordAt(before, a, id)
  }

  ghost predicate OnlyId(before: Shard, after: Shard, id: bytes) {
    forall j: bytes :: j != id ==> SameAt(before, after, j)
  }

  ghost predicate AllCovered(sh: Shard) {
    NonNegative(sh) && forall id: bytes :: IsNft(id) ==> Covered(sh, id, 0)
  }

  // Neither of the two liquidity errors.
  predicate Fine<T>(r: Result<T>) {
    r.Fail? ==> r.error != InvalidLiquidity && r.error != NilESDTData
  }

  lemma SameTotal(before: Shard, after: Shard, id: bytes)
    requires forall a: Address :: RecordAt(after, a, id) == RecordAt(before, a, id)
    ensures ShardTotal(after, Esdt(id)) == ShardTotal(before, Esdt(id))
  {
    forall b
      ensures Holding(after, b, Esdt(id)) == Holding(before, b, Esdt(id)) + At(b, [], 0) + At(b, [], 0)
    {
      assert RecordAt(after, b, id) == RecordAt(before, b, id);
    }
    ShiftTotal(before, after, Esdt(id), [], 0, [], 0);
  }

  lemma SameCovered(before: Shard, after: Shard, id: bytes, d: int)
    requires SameAt(before, after, id) && Covered(before, id, d)
    ensures Covered(after, id, d)
  {
    SameTotal(before, after, id);
    forall a: Address
      ensures GoodRecord(RecordAt(after, a, id))
    {
      assert GoodRecord(RecordAt(before, a, id));
    }
  }

  // A step at one identifier that leaves it covered leaves every NFT covered.
  lemma CoveredAll(before: Shard, after: Shard, id: bytes)
    requires AllCovered(before) && NonNegative(after) && OnlyId(before, after, id)
    requires IsNft(id) ==> Covered(after, id, 0)
    ensures AllCovered(after)
  {
    hide Covered, SameAt, NonNegative, IsNft;
    forall j: bytes | IsNft(j)
      ensures Covered(after, j, 0)
    {
      if j != id {
        SameCovered(before, after, j, 0);
      }
    }
  }

  lemma OnlyIdThen(s0: Shard, s1: Shard, s2: Shard, id: bytes)
    requires OnlyId(s0, s1, id) && OnlyId(s1, s2, id)
    ensures OnlyId(s0, s2, id)
  {
    forall j: bytes | j != id
      ensures SameAt(s0, s2, j)
    {
      assert SameAt(s0, s1, j) && SameAt(s1, s2, j);
    }
  }

  // ---- what touches which identifier ----

  lemma PutRecordOnlyId(sh: Shard, a: Address, id: bytes, t: Option<Token>)
    ensures OnlyId(sh, PutRecord(sh, a, id, t), id)
  {
  }

  lemma SaveOnlyId(env: Env, sh: Shard, sender: nat, a: Address, k: Key, t: Token, args: SaveArgs)
    requires SaveToken(env, sh, sender, a, k, t, args).Ok?
    ensures OnlyId(sh, SaveToken(env, sh, sender, a, k, t, args).value.shard, Id(k))
  {
    hide SaveToken, Id;
    var after := SaveToken(env, sh, sender, a, k, t, args).value.shard;
    forall j: bytes | j != Id(k)
      ensures SameAt(sh, after, j)
    {
      forall b: Address ensures RecordAt(after, b, j) == RecordAt(sh, b, j) {
        SaveKeepsOtherIds(env, sh, sender, a, k, t, args, b, j);
      }
      SaveKeepsOtherIds(env, sh, sender, a, k, t, args, a, j);
    }
  }

  lemma LiquidityOnlyId(env: Env, sh: Shard, k: Key, kind: TokenType, delta: int, keep: bool)
    requires AddToLiquidity(env, sh, k, kind, delta, keep).Ok?
    ensures OnlyId(sh, AddToLiquidity(env, sh, k, kind, delta, keep).value, Id(k))
  {
    hide Id;
  }

  lemma AddNftOnlyId(h: Host, sh: Shard, snd: Address, dst: Address, k: Key, t: Token, rwe: bool)
    requires AddNft(h, sh, snd, dst, k, t, rwe).Ok?
    ensures OnlyId(sh, AddNft(h, sh, snd, dst, k, t, rwe).value, Id(k))
  {
    hide SaveToken, AddToLiquidity, MergedToken, OnlyId, Id;
    var cur := OnDestination(h.env, sh, dst, k);
    var latest := MergedToken(h, Known(sh, k, cur, t.kind), t.(value := t.value + cur.token.value)).value;
    var saved := SaveToken(h.env, sh, h.shardOf(snd), dst, k, latest, SaveArgs(false, rwe, false)).value;
    SaveOnlyId(h.env, sh, h.shardOf(snd), dst, k, latest, SaveArgs(false, rwe, false));
    if h.shardOf(snd) != h.shardOf(dst) {
      LiquidityOnlyId(h.env, saved.shard, k, saved.kind, t.value, false);
      OnlyIdThen(sh, saved.shard, AddNft(h, sh, snd, dst, k, t, rwe).value, Id(k));
    }
  }

  // ---- the two storage operations ----

  // A save moves the difference in the holder's balance into d, or out of it.
  lemma SaveCovers(env: Env, sh: Shard, sender: nat, a: Address, k: Key, t: Token, args: SaveArgs, d: int)
    requires Config(env.flags) && Covered(sh, Id(k), d) && ShardTotal(sh, Esdt(Id(k))) + d >= 0
    requires t.kind == NonFungible && (k.nonce > 0 ==> t.meta.Some?) && t.value >= 0 && (args.keepOnZero ==> t.value > 0)
    ensures var r := SaveToken(env, sh, sender, a, k, t, args);
            && Fine(r)
            && (r.Ok? ==>
                  var u := t.value - Holding(sh, a, Esdt(Id(k)));
                  && r.value.kind == NonFungible && (k.nonce > 0 ==> SystemAt(r.value.shard, Id(k)).Some?)
                  && Covered(r.value.shard, Id(k), d - u)
                  && ShardTotal(r.value.shard, Esdt(Id(k))) == ShardTotal(sh, Esdt(Id(k))) + u)
  {
    hide Id;
    var r := SaveToken(env, sh, sender, a, k, t, args);
    if r.Ok? {
      var after := r.value.shard;
      var u := t.value - Holding(sh, a, Esdt(Id(k)));
      SaveShift(env, sh, sender, a, k, t, args, Esdt(Id(k)));
      ShiftTotal(sh, after, Esdt(Id(k)), a, u, a, 0);
      SavedRecords(env, sh, sender, a, k, t, args);
      SavedEntry(env, sh, sender, a, k, t, args);
    }
  }

  lemma SavedRecords(env: Env, sh: Shard, sender: nat, a: Address, k: Key, t: Token, args: SaveArgs)
    requires Config(env.flags) && SaveToken(env, sh, sender, a, k, t, args).Ok?
    requires t.kind == NonFungible && t.value >= 0 && (args.keepOnZero ==> t.value > 0)
    requires forall b: Address :: GoodRecord(RecordAt(sh, b, Id(k)))
    ensures forall b: Address :: GoodRecord(RecordAt(SaveToken(env, sh, sender, a, k, t, args).value.shard, b, Id(k)))
  {
    hide Id;
    var after := SaveToken(env, sh, sender, a, k, t, args).value.shard;
    forall b: Address
      ensures GoodRecord(RecordAt(after, b, Id(k)))
    {
      if b != a {
        SaveKeepsOtherHolders(env, sh, sender, a, k, t, args, b, k);
        assert GoodRecord(RecordAt(sh, b, Id(k)));
      }
    }
  }

  // The entry keeps its total while it is tracked, or starts tracked at zero;
  // named with nonce zero it is not touched.
  lemma SavedEntry(env: Env, sh: Shard, sender: nat, a: Address, k: Key, t: Token, args: SaveArgs)
    requires Config(env.flags) && SaveToken(env, sh, sender, a, k, t, args).Ok?
    requires t.kind == NonFungible && (k.nonce > 0 ==> t.meta.Some?)
    ensures var after := SystemAt(SaveToken(env, sh, sender, a, k, t, args).value.shard, Id(k));
            var before := SystemAt(sh, Id(k));
            && (k.nonce == 0 ==> after == before)
            && (k.nonce > 0 ==>
                  && after.Some?
                  && (before.None? || before.value.meta.Some? ==> after.value.meta.Some?)
                  && (Tracked(after) ==> if before.None? then after.value.value == 0
                                         else Tracked(before) && after.value.value == before.value.value))
  {
    hide Id;
  }

  // Adding delta to the total takes delta out of d, and does not fail.
  lemma LiquidityCovers(env: Env, sh: Shard, k: Key, delta: int, keep: bool, d: int)
    requires Config(env.flags) && k.nonce > 0 && Covered(sh, Id(k), d) && SystemAt(sh, Id(k)).Some?
    requires ShardTotal(sh, Esdt(Id(k))) + d + delta >= 0
    ensures var r := AddToLiquidity(env, sh, k, NonFungible, delta, keep);
            && r.Ok? && r.value.accounts == sh.accounts && Covered(r.value, Id(k), d + delta)
  {
    hide Id;
    var r := AddToLiquidity(env, sh, k, NonFungible, delta, keep);
    if Tracked(SystemAt(sh, Id(k))) {
      assert SystemAt(sh, Id(k)).value.value + delta >= 0;
    }
    assert r.Ok? && r.value.accounts == sh.accounts;
    SumSame(sh, r.value, Esdt(Id(k)));
    forall b: Address
      ensures GoodRecord(RecordAt(r.value, b, Id(k)))
    {
      assert RecordAt(r.value, b, Id(k)) == RecordAt(sh, b, Id(k));
    }
  }

  // ---- the operations at one key ----

  lemma AddNftCovers(h: Host, sh: Shard, snd: Address, dst: Address, k: Key, t: Token, rwe: bool, d: int)
    requires Config(h.env.flags) && NonNegative(sh) && Covered(sh, Id(k), d)
    requires t.kind == NonFungible && (k.nonce > 0 ==> t.meta.Some?) && t.value >= 0
    requires d == if h.shardOf(snd) == h.shardOf(dst) then t.value else 0
    requires h.shardOf(snd) != h.shardOf(dst) ==> k.nonce > 0
    ensures var r := AddNft(h, sh, snd, dst, k, t, rwe);
            Fine(r) && (r.Ok? ==> Covered(r.value, Id(k), 0))
  {
    hide SaveToken, AddToLiquidity, Covered, NonNegative, Id;
    var cur := OnDestination(h.env, sh, dst, k);
    var latest := t.(value := t.value + cur.token.value);
    assert MergedToken(h, Known(sh, k, cur, t.kind), latest) == Some(latest);
    HoldingAtMostTotal(sh, dst, Id(k));
    assert cur.token.value == Holding(sh, dst, Esdt(Id(k)));
    var args := SaveArgs(false, rwe, false);
    SaveCovers(h.env, sh, h.shardOf(snd), dst, k, latest, args, d);
    var saved := SaveToken(h.env, sh, h.shardOf(snd), dst, k, latest, args);
    if saved.Ok? && h.shardOf(snd) != h.shardOf(dst) {
      LiquidityCovers(h.env, saved.value.shard, k, t.value, false, -t.value);
    }
  }

  // What the sender of an NFT holds: a record, with metadata on the system
  // account; the metadata is read only under a name with a nonce.
  lemma HeldToken(h: Host, sh: Shard, a: Address, k: Key)
    requires Config(h.env.flags) && NonNegative(sh) && Covered(sh, Id(k), 0) && OnSender(h.env, sh, a, k).Ok?
    ensures var t := OnSender(h.env, sh, a, k).value;
            && t.kind == NonFungible && t.value == Holding(sh, a, Esdt(Id(k))) > 0
            && SystemAt(sh, Id(k)).Some? && SystemAt(sh, Id(k)).value.meta.Some?
            && (k.nonce > 0 ==> t.meta == SystemAt(sh, Id(k)).value.meta)
            && t.value <= ShardTotal(sh, Esdt(Id(k)))
  {
    hide Id;
    assert GoodRecord(RecordAt(sh, a, Id(k)));
    HoldingAtMostTotal(sh, a, Id(k));
  }

  lemma TakeCovers(h: Host, sh: Shard, a: Address, k: Key, t: Token, q: nat, rwe: bool)
    requires Config(h.env.flags) && NonNegative(sh) && Covered(sh, Id(k), 0)
    requires OnSender(h.env, sh, a, k) == Ok(t) && q <= t.value
    ensures var r := TakeNft(h, sh, a, k, t, q, rwe);
            && Fine(r)
            && (r.Ok? ==>
                  && Covered(r.value.shard, Id(k), q) && (k.nonce > 0 ==> SystemAt(r.value.shard, Id(k)).Some?)
                  && NonNegative(r.value.shard) && OnlyId(sh, r.value.shard, Id(k))
                  && ShardTotal(r.value.shard, Esdt(Id(k))) == ShardTotal(sh, Esdt(Id(k))) - q >= 0
                  && r.value.token == t.(value := q) && t.kind == NonFungible && (k.nonce > 0 ==> t.meta.Some?))
  {
    hide SaveToken, Covered, NonNegative, OnlyId, Id;
    HeldToken(h, sh, a, k);
    var less, args := t.(value := t.value - q), SaveArgs(false, rwe, false);
    SaveCovers(h.env, sh, h.shardOf(a), a, k, less, args, 0);
    if TakeNft(h, sh, a, k, t, q, rwe).Ok? {
      SaveOnlyId(h.env, sh, h.shardOf(a), a, k, less, args);
      SaveKeeps(h.env, sh, h.shardOf(a), a, k, less, args);
    }
  }

  // Named with nonce zero, a token may be handed over inside the shard only.
  lemma HandOverCovers(h: Host, sh: Shard, snd: Address, dst: Address, k: Key, t: Token, rwe: bool)
    requires Config(h.env.flags) && NonNegative(sh) && Covered(sh, Id(k), t.value)
    requires Here(h, snd) && t.kind == NonFungible && t.value >= 0 && ShardTotal(sh, Esdt(Id(k))) >= 0
    requires k.nonce > 0 ==> t.meta.Some? && SystemAt(sh, Id(k)).Some?
    requires k.nonce > 0 || Here(h, dst)
    ensures var r := HandOver(h, sh, snd, dst, k, t, rwe);
            Fine(r) && (r.Ok? ==> Covered(r.value, Id(k), 0))
  {
    hide AddToLiquidity, AddNft, Covered, NonNegative, Id;
    if Here(h, dst) {
      AddNftCovers(h, sh, snd, dst, k, t, rwe, t.value);
    } else {
      LiquidityCovers(h.env, sh, k, -t.value, KeepsMetaData(h, snd, k.token, t.kind), t.value);
    }
  }

  // When the last of a tracked token leaves the shard its metadata goes too,
  // unless the sender may still change it.
  lemma LeavingRemovesEntry(h: Host, sh: Shard, snd: Address, dst: Address, k: Key, t: Token, rwe: bool)
    requires Config(h.env.flags) && k.nonce > 0 && Covered(sh, Id(k), t.value) && Tracked(SystemAt(sh, Id(k))) && !Here(h, dst)
    requires t.kind == NonFungible && t.value > 0 && ShardTotal(sh, Esdt(Id(k))) >= 0
    ensures var r := HandOver(h, sh, snd, dst, k, t, rwe);
            && r.Ok?
            && (SystemAt(r.value, Id(k)).None? <==> ShardTotal(sh, Esdt(Id(k))) == 0 && !MayStillChange(h, snd, k.token))
            && (SystemAt(r.value, Id(k)).Some? ==> SystemAt(r.value, Id(k)).value.meta == SystemAt(sh, Id(k)).value.meta)
  {
    hide Id;
    ChangingRoles(h, snd, k.token);
  }

  // Under any setting where totals are kept: the entry of the last that leaves
  // stays, with its metadata, for the types that can be created anew and for a
  // sender that may still change it.
  lemma LeavingKeepsMetaData(h: Host, sh: Shard, snd: Address, dst: Address, k: Key, t: Token, rwe: bool)
    requires h.env.flags.saveToSystemAccount && h.env.flags.sendAlways && k.nonce > 0 && !Here(h, dst)
    requires t.kind != NonFungibleV2 && t.kind != DynamicNFT && t.kind != Fungible
    requires Tracked(SystemAt(sh, Id(k))) && 0 < t.value <= SystemAt(sh, Id(k)).value.value
    ensures var was, r := SystemAt(sh, Id(k)).value, HandOver(h, sh, snd, dst, k, t, rwe);
            && r.Ok?
            && SystemAt(r.value, Id(k))
               == if was.value == t.value && t.kind != DynamicSFT && t.kind != DynamicMeta && !MayStillChange(h, snd, k.token)
                  then None else Some(was.(value := was.value - t.value))
  {
    hide Id;
    ChangingRoles(h, snd, k.token);
  }

  // The roles that change metadata later; two of them only with dynamic tokens.
  const CHANGING: set<Role> := {MetaDataRecreate, NFTUpdate, ModifyCreator, ModifyRoyalties, SetNewURI}
  const CHANGING_DYNAMIC: set<Role> := CHANGING + {NFTAddURI, NFTUpdateAttributes}

  ghost predicate MayStillChange(h: Host, a: Address, token: bytes) {
    exists r: Role :: r in (if h.env.flags.dynamicEsdt then CHANGING_DYNAMIC else CHANGING) && h.hasRole(a, token, r)
  }

  lemma ChangingRoles(h: Host, a: Address, token: bytes)
    ensures HasDynamicRole(h, a, token) <==> MayStillChange(h, a, token)
  {
    var rs := if h.env.flags.dynamicEsdt then CHANGING_DYNAMIC else CHANGING;
    assert MetaDataRecreate in rs && NFTUpdate in rs && ModifyCreator in rs && ModifyRoyalties in rs && SetNewURI in rs;
    assert h.env.flags.dynamicEsdt ==> NFTAddURI in rs && NFTUpdateAttributes in rs;
  }

  lemma HandOverOnlyId(h: Host, sh: Shard, snd: Address, dst: Address, k: Key, t: Token, rwe: bool)
    requires HandOver(h, sh, snd, dst, k, t, rwe).Ok?
    ensures OnlyId(sh, HandOver(h, sh, snd, dst, k, t, rwe).value, Id(k))
  {
    hide AddToLiquidity, AddNft, OnlyId, Id;
    if Here(h, dst) {
      AddNftOnlyId(h, sh, snd, dst, k, t, rwe);
    } else {
      LiquidityOnlyId(h.env, sh, k, t.kind, -t.value, KeepsMetaData(h, snd, k.token, t.kind));
    }
  }

  lemma TakeOnlyId(h: Host, sh: Shard, a: Address, k: Key, t: Token, q: nat, rwe: bool)
    requires TakeNft(h, sh, a, k, t, q, rwe).Ok?
    ensures OnlyId(sh, TakeNft(h, sh, a, k, t, q, rwe).value.shard, Id(k))
  {
    hide SaveToken, OnlyId, Id;
    SaveOnlyId(h.env, sh, h.shardOf(a), a, k, t.(value := t.value - q), SaveArgs(false, rwe, false));
  }

  lemma SaveFine(env: Env, sh: Shard, sender: nat, a: Address, k: Key, t: Token, args: SaveArgs)
    ensures Fine(SaveToken(env, sh, sender, a, k, t, args))
  {
  }

  // Without a nonce there is no liquidity to fail on.
  lemma NoNonceFine(h: Host, sh: Shard, snd: Address, dst: Address, k: Key, t: Token, q: nat, rwe: bool)
    requires k.nonce == 0
    ensures Fine(TakeNft(h, sh, snd, k, t, q, rwe)) && Fine(AddNft(h, sh, snd, dst, k, t, rwe))
    ensures Fine(HandOver(h, sh, snd, dst, k, t, rwe))
  {
    hide SaveToken, OnDestination, MergedToken;
    SaveFine(h.env, sh, h.shardOf(snd), snd, k, t.(value := t.value - q), SaveArgs(false, rwe, false));
    var cur := OnDestination(h.env, sh, dst, k);
    var latest := MergedToken(h, Known(sh, k, cur, t.kind), t.(value := t.value + cur.token.value));
    if latest.Some? {
      SaveFine(h.env, sh, h.shardOf(snd), dst, k, latest.value, SaveArgs(false, rwe, false));
    }
  }

  // A name with a nonce is an NFT's.
  ghost predicate Named(k: Key) {
    k.nonce > 0 ==> IsNft(Id(k))
  }

  // A name an NFT may leave the shard under: with its nonce.
  ghost predicate MayLeave(k: Key) {
    k.nonce == 0 ==> !IsNft(Id(k))
  }

  // Valid identifiers make names of both kinds.
  lemma ValidNames(k: Key)
    requires ValidToken(k.token) && k.nonce < TWO64
    ensures Named(k) && MayLeave(k)
  {
    if k.nonce > 0 {
      assert NftId(k.token, k.nonce, Id(k));
    } else {
      NoNonceId(k.token);
      TokenIsNotNft(k.token);
    }
  }

  // Taking from a holder and handing over keeps every token covered.
  lemma TakeAndHandOverCovers(h: Host, sh: Shard, snd: Address, dst: Address, k: Key, t: Token, q: nat, rwe: bool)
    requires Config(h.env.flags) && AllCovered(sh) && Here(h, snd) && snd != dst
    requires Named(k) && (MayLeave(k) || Here(h, dst))
    requires OnSender(h.env, sh, snd, k) == Ok(t) && q <= t.value
    ensures var taken := TakeNft(h, sh, snd, k, t, q, rwe);
            && Fine(taken)
            && (taken.Ok? ==>
                  var after := HandOver(h, taken.value.shard, snd, dst, k, taken.value.token, rwe);
                  && Fine(after) && (after.Ok? ==> AllCovered(after.value))
                  && (k.nonce > 0 ==> taken.value.token.kind == NonFungible && taken.value.token.meta.Some?))
  {
    hide TakeNft, HandOver, Covered, NonNegative, OnlyId, Id, IsNft;
    var taken := TakeNft(h, sh, snd, k, t, q, rwe);
    if IsNft(Id(k)) {
      assert Covered(sh, Id(k), 0);
      TakeCovers(h, sh, snd, k, t, q, rwe);
    } else {
      NoNonceFine(h, sh, snd, dst, k, t, q, rwe);
    }
    if taken.Ok? {
      var after := HandOver(h, taken.value.shard, snd, dst, k, taken.value.token, rwe);
      if IsNft(Id(k)) {
        HandOverCovers(h, taken.value.shard, snd, dst, k, taken.value.token, rwe);
      } else {
        NoNonceFine(h, taken.value.shard, snd, dst, k, taken.value.token, q, rwe);
      }
      if after.Ok? {
        TakeOnlyId(h, sh, snd, k, t, q, rwe);
        HandOverOnlyId(h, taken.value.shard, snd, dst, k, taken.value.token, rwe);
        OnlyIdThen(sh, taken.value.shard, after.value, Id(k));
        TakeAndHandOver(h, sh, snd, dst, k, t, q, rwe, Base);
        CoveredAll(sh, after.value, Id(k));
      }
    }
  }

  // ---- fungible balances leave NFTs alone ----

  lemma BalanceOnlyId(env: Env, sh: Shard, a: Address, id: bytes, delta: int, rwe: bool)
    requires AddToBalance(env, sh, a, id, delta, rwe).Ok?
    ensures OnlyId(sh, AddToBalance(env, sh, a, id, delta, rwe).value, id)
  {
    var t := FungibleRecord(sh, a, id);
    var t' := t.(value := t.value + delta);
    PutRecordOnlyId(sh, a, id, if t'.value == 0 && PropertiesEmpty(t'.properties) then None else Some(t'));
  }

  // A debit named with an NFT's identifier is refused, or is of nothing.
  lemma DebitOfNft(env: Env, sh: Shard, a: Address, id: bytes, q: nat, rwe: bool)
    requires Covered(sh, id, 0) && AddToBalance(env, sh, a, id, -(q as int), rwe).Ok?
    ensures q == 0 && SameAt(sh, AddToBalance(env, sh, a, id, -(q as int), rwe).value, id)
  {
    assert GoodRecord(RecordAt(sh, a, id));
  }

  lemma BalanceCovers(env: Env, sh: Shard, a: Address, id: bytes, delta: int, rwe: bool)
    requires AllCovered(sh) && (IsNft(id) ==> delta <= 0)
    ensures var r := AddToBalance(env, sh, a, id, delta, rwe);
            && Fine(r)
            && (r.Ok? ==> AllCovered(r.value) && (IsNft(id) ==> delta == 0))
  {
    hide Covered, NonNegative, OnlyId, SameAt, IsNft;
    var r := AddToBalance(env, sh, a, id, delta, rwe);
    if r.Ok? {
      BalanceOnlyId(env, sh, a, id, delta, rwe);
      BalanceKeeps(env, sh, a, id, delta, rwe);
      if IsNft(id) {
        assert Covered(sh, id, 0);
        DebitOfNft(env, sh, a, id, -delta, rwe);
        SameCovered(sh, r.value, id, 0);
      }
      CoveredAll(sh, r.value, id);
    }
  }

  lemma BalanceOfBaseCovers(sh: Shard, a: Address, balance: int)
    requires AllCovered(sh)
    ensures AllCovered(PutBalance(sh, a, balance))
  {
    hide Covered, IsNft;
    PutBalanceKeeps(sh, a, balance);
    forall id: bytes | IsNft(id)
      ensures Covered(PutBalance(sh, a, balance), id, 0)
    {
      SameCovered(sh, PutBalance(sh, a, balance), id, 0);
    }
  }

  // ---- transfers ----

  // What a transfer hands to the message: an NFT with its metadata.
  predicate GoodToken(nonce: nat, t: Token) {
    nonce > 0 ==> t.kind == NonFungible && t.meta.Some?
  }

  function KeyOf(tr: Wire.Transfer): Key {
    Key(tr.token, tr.nonce)
  }

  // The base token, or a name under which the token may go where it goes.
  ghost predicate WellNamed(h: Host, dst: Address, tr: Wire.Transfer) {
    tr.token == BASE_TOKEN || (Named(KeyOf(tr)) && (MayLeave(KeyOf(tr)) || Here(h, dst)))
  }

  lemma SendOneCovers(h: Host, sh: Shard, snd: Address, dst: Address, tr: Wire.Transfer, rwe: bool)
    requires Config(h.env.flags) && AllCovered(sh) && Here(h, snd) && snd != dst && WellNamed(h, dst, tr)
    ensures var r := SendOne(h, sh, snd, dst, tr, rwe);
            Fine(r) && (r.Ok? ==> AllCovered(r.value.shard) && GoodToken(tr.nonce, r.value.token))
  {
    hide TakeNft, HandOver, AllCovered, Named, MayLeave;
    if tr.value > 0 {
      if tr.token == BASE_TOKEN {
        var debited := PutBalance(sh, snd, AccountAt(sh, snd).balance - tr.value);
        BalanceOfBaseCovers(sh, snd, AccountAt(sh, snd).balance - tr.value);
        BalanceOfBaseCovers(debited, dst, AccountAt(debited, dst).balance + tr.value);
      } else {
        var k := Key(tr.token, tr.nonce);
        var t := OnSender(h.env, sh, snd, k);
        if t.Ok? && tr.value <= t.value.value {
          TakeAndHandOverCovers(h, sh, snd, dst, k, t.value, tr.value, rwe);
        }
      }
    }
  }

  // The condition is exact. Of an NFT with a tracked total, a transfer keeps
  // the total right exactly when the NFT is named with its nonce, or stays in
  // the shard: named by its whole identifier and nonce zero, it leaves without
  // the total being lowered.
  lemma SendOneCoversIff(h: Host, sh: Shard, snd: Address, dst: Address, tr: Wire.Transfer, rwe: bool)
    requires Config(h.env.flags) && AllCovered(sh) && Here(h, snd) && snd != dst && tr.token != BASE_TOKEN
    requires IsNft(Id(KeyOf(tr))) && Tracked(SystemAt(sh, Id(KeyOf(tr)))) && SendOne(h, sh, snd, dst, tr, rwe).Ok?
    ensures Covered(SendOne(h, sh, snd, dst, tr, rwe).value.shard, Id(KeyOf(tr)), 0) <==> tr.nonce > 0 || Here(h, dst)
  {
    hide TakeNft, HandOver, Covered, NonNegative, Id, IsNft;
    var k := KeyOf(tr);
    if tr.nonce > 0 || Here(h, dst) {
      SendOneCovers(h, sh, snd, dst, tr, rwe);
    } else {
      var t := OnSender(h.env, sh, snd, k).value;
      var taken := TakeNft(h, sh, snd, k, t, tr.value, rwe).value;
      assert Covered(sh, Id(k), 0);
      TakeCovers(h, sh, snd, k, t, tr.value, rwe);
      TakenUnindexed(h, sh, snd, k, t, tr.value, rwe);
      HandedOut(h, taken.shard, snd, dst, k, taken.token, rwe);
      StaleTotal(sh, taken.shard, Id(k));
    }
  }

  // The failing calls: a holder of a tracked NFT lists it by its whole
  // identifier with nonce zero, for another shard.
  lemma AliasLeaves(h: Host, sh: Shard, snd: Address, dst: Address, id: bytes, q: nat)
    requires Config(h.env.flags) && AllCovered(sh) && Here(h, snd) && !Here(h, dst)
    requires IsNft(id) && Tracked(SystemAt(sh, id)) && 0 < q <= Holding(sh, snd, Esdt(id))
    ensures var r := SendOne(h, sh, snd, dst, Wire.Transfer(id, 0, q), true);
            r.Ok? && !Covered(r.value.shard, id, 0)
  {
    hide Covered, NonNegative, IsNft, Id;
    NoNonceId(id);
    BaseIsNotNft();
    assert Covered(sh, id, 0);
    CoveredRecord(sh, id, snd);
    AliasSent(h, sh, snd, dst, id, q);
    SendOneCoversIff(h, sh, snd, dst, Wire.Transfer(id, 0, q), true);
  }

  lemma CoveredRecord(sh: Shard, id: bytes, a: Address)
    requires Covered(sh, id, 0)
    ensures GoodRecord(RecordAt(sh, a, id))
  {
  }

  lemma AliasSent(h: Host, sh: Shard, snd: Address, dst: Address, id: bytes, q: nat)
    requires Config(h.env.flags) && !Here(h, dst) && id != BASE_TOKEN && 0 < q <= Holding(sh, snd, Esdt(id))
    requires GoodRecord(RecordAt(sh, snd, id)) && Id(Key(id, 0)) == id
    ensures SendOne(h, sh, snd, dst, Wire.Transfer(id, 0, q), true).Ok?
  {
    hide Id;
  }

  // And the receiver gets a fungible balance under the NFT's identifier.
  lemma AliasArrives(h: Host, sh: Shard, snd: Address, dst: Address, id: bytes, q: nat)
    requires IsNft(id) && q > 0 && RecordAt(sh, dst, id).None?
    ensures var r := ReceiveOne(h, sh, snd, dst, Wire.Received(id, 0, NOTHING.(value := q)), true);
            && r.Ok? && RecordAt(r.value, dst, id) == Some(NOTHING.(value := q))
            && !Covered(r.value, id, 0)
  {
    hide IsNft;
    BaseIsNotNft();
    var after := ReceiveOne(h, sh, snd, dst, Wire.Received(id, 0, NOTHING.(value := q)), true).value;
    assert !GoodRecord(RecordAt(after, dst, id));
  }

  lemma TakenUnindexed(h: Host, sh: Shard, a: Address, k: Key, t: Token, q: nat, rwe: bool)
    requires Config(h.env.flags) && k.nonce == 0 && t.kind == NonFungible && TakeNft(h, sh, a, k, t, q, rwe).Ok?
    ensures SystemAt(TakeNft(h, sh, a, k, t, q, rwe).value.shard, Id(k)) == SystemAt(sh, Id(k))
  {
    hide SaveToken, Id;
    SavedEntry(h.env, sh, h.shardOf(a), a, k, t.(value := t.value - q), SaveArgs(false, rwe, false));
  }

  lemma HandedOut(h: Host, sh: Shard, snd: Address, dst: Address, k: Key, t: Token, rwe: bool)
    requires k.nonce == 0 && !Here(h, dst)
    ensures HandOver(h, sh, snd, dst, k, t, rwe) == Ok(sh)
  {
  }

  lemma StaleTotal(before: Shard, after: Shard, id: bytes)
    requires Covered(before, id, 0) && Tracked(SystemAt(before, id)) && SystemAt(after, id) == SystemAt(before, id)
    requires ShardTotal(after, Esdt(id)) != ShardTotal(before, Esdt(id))
    ensures !Covered(after, id, 0)
  {
  }

  predicate GoodTokens(list: seq<Wire.Transfer>, tokens: seq<Token>) {
    |tokens| == |list| && forall i :: 0 <= i < |list| ==> GoodToken(list[i].nonce, tokens[i])
  }

  ghost predicate AllWellNamed(h: Host, dst: Address, list: seq<Wire.Transfer>) {
    forall i :: 0 <= i < |list| ==> WellNamed(h, dst, list[i])
  }

  lemma {:induction false} SendAllCovers(h: Host, sh: Shard, snd: Address, dst: Address, list: seq<Wire.Transfer>,
                                         rwe: bool)
    requires Config(h.env.flags) && AllCovered(sh) && Here(h, snd) && snd != dst && AllWellNamed(h, dst, list)
    ensures var r := SendAll(h, sh, snd, dst, list, rwe);
            Fine(r) && (r.Ok? ==> AllCovered(r.value.shard) && GoodTokens(list, r.value.tokens))
    decreases |list|
  {
    hide SendOne, AllCovered, WellNamed;
    if |list| > 0 {
      var n := |list| - 1;
      SendAllCovers(h, sh, snd, dst, list[..n], rwe);
      var front := SendAll(h, sh, snd, dst, list[..n], rwe);
      if front.Ok? {
        SendOneCovers(h, front.value.shard, snd, dst, list[n], rwe);
      }
    }
  }

  ghost predicate GoodItem(kind: MessageKind, item: Wire.Received) {
    match kind
    case FungibleMessage => !IsNft(item.token)
    case NftMessage => item.nonce > 0 && IsNft(Id(Key(item.token, item.nonce))) && GoodToken(item.nonce, item.data)
    case MultiMessage =>
      && GoodToken(item.nonce, item.data)
      && (item.nonce > 0 ==> IsNft(Id(Key(item.token, item.nonce))))
      && (item.nonce == 0 ==> !IsNft(item.token))
  }

  ghost predicate GoodItems(kind: MessageKind, items: seq<Wire.Received>) {
    forall i :: 0 <= i < |items| ==> GoodItem(kind, items[i])
  }

  lemma BaseIsNotNft()
    ensures ValidToken(BASE_TOKEN) && !IsNft(BASE_TOKEN)
  {
    var t := BASE_TOKEN;
    assert t[..4] == [0x45, 0x47, 0x4C, 0x44] && t[5..] == [0x30, 0x30, 0x30, 0x30, 0x30, 0x30];
    assert TickerValid(t[..4]) && RandomValid(t[5..]);
    TokenIsNotNft(t);
  }

  // With the metadata always sent, every NFT goes out marshalled.
  lemma ItemIsGood(h: Host, dst: Address, tr: Wire.Transfer, t: Token)
    requires WellNamed(h, dst, tr) && !Here(h, dst) && GoodToken(tr.nonce, t) && (tr.token == BASE_TOKEN ==> tr.nonce == 0)
    ensures GoodItem(MultiMessage, Wire.AsReceived(Wire.Sent(tr, t, tr.nonce == 0)))
  {
    hide IsNft;
    BaseIsNotNft();
    NoNonceId(tr.token);
  }

  predicate BaseUnnumbered(list: seq<Wire.Transfer>) {
    forall i :: 0 <= i < |list| ==> list[i].token == BASE_TOKEN ==> list[i].nonce == 0
  }

  lemma {:induction false} SentBaseUnnumbered(h: Host, sh: Shard, snd: Address, dst: Address,
                                              list: seq<Wire.Transfer>, rwe: bool)
    requires SendAll(h, sh, snd, dst, list, rwe).Ok?
    ensures BaseUnnumbered(list)
    decreases |list|
  {
    hide TakeNft, HandOver;
    if |list| > 0 {
      SentBaseUnnumbered(h, sh, snd, dst, list[..|list| - 1], rwe);
    }
  }

  lemma {:induction false} BuildItemsGood(h: Host, sh: Shard, dst: Address, list: seq<Wire.Transfer>,
                                          tokens: seq<Token>)
    requires Config(h.env.flags) && !Here(h, dst) && GoodTokens(list, tokens)
    requires AllWellNamed(h, dst, list) && BaseUnnumbered(list)
    ensures var r := BuildItems(h, sh, dst, list, tokens);
            r.Ok? && r.value.shard == sh && GoodItems(MultiMessage, r.value.items)
    decreases |list|
  {
    hide WellNamed, GoodItem, Wire.AsReceived;
    if |list| > 0 {
      var n := |list| - 1;
      BuildItemsGood(h, sh, dst, list[..n], tokens[..n]);
      ItemIsGood(h, dst, list[n], tokens[n]);
    }
  }

  lemma SendMultiCovers(h: Host, sh: Shard, snd: Address, dst: Address, list: seq<Wire.Transfer>, rwe: bool)
    requires Config(h.env.flags) && AllCovered(sh) && Here(h, snd) && AllWellNamed(h, dst, list)
    ensures var r := SendMulti(h, sh, snd, dst, list, rwe);
            && Fine(r)
            && (r.Ok? ==> AllCovered(r.value.shard) && GoodItems(MultiMessage, r.value.items)
                          && (|r.value.items| > 0 ==> !Here(h, dst)))
  {
    hide SendAll, BuildItems, AllCovered, GoodTokens, AllWellNamed, GoodItem, BaseUnnumbered;
    if snd != dst {
      SendAllCovers(h, sh, snd, dst, list, rwe);
      var sent := SendAll(h, sh, snd, dst, list, rwe);
      if sent.Ok? && !Here(h, dst) {
        SentBaseUnnumbered(h, sh, snd, dst, list, rwe);
        BuildItemsGood(h, sent.value.shard, dst, list, sent.value.tokens);
      }
    }
  }

  lemma SendNftCovers(h: Host, sh: Shard, snd: Address, dst: Address, k: Key, q: nat, rwe: bool)
    requires Config(h.env.flags) && AllCovered(sh) && Here(h, snd) && Named(k)
    ensures var r := SendNft(h, sh, snd, dst, k, q, rwe);
            && Fine(r)
            && (r.Ok? ==> AllCovered(r.value.shard) && GoodItems(NftMessage, r.value.items)
                          && (|r.value.items| > 0 ==> !Here(h, dst)))
  {
    hide TakeNft, HandOver, AllCovered, Id, IsNft;
    if snd != dst && k.nonce > 0 {
      var t := OnSender(h.env, sh, snd, k);
      if t.Ok? && q <= t.value.value {
        TakeAndHandOverCovers(h, sh, snd, dst, k, t.value, q, rwe);
      }
    }
  }

  lemma SendFungibleCovers(h: Host, sh: Shard, snd: Address, dst: Address, id: bytes, q: nat, rwe: bool)
    requires AllCovered(sh)
    ensures var r := SendFungible(h, sh, snd, dst, id, q, rwe);
            && Fine(r)
            && (r.Ok? ==> AllCovered(r.value.shard) && GoodItems(FungibleMessage, r.value.items)
                          && (|r.value.items| > 0 ==> !Here(h, dst)))
  {
    hide AddToBalance, AllCovered, IsNft;
    var d := -(q as int);
    BalanceCovers(h.env, sh, snd, id, d, rwe);
    var debited := AddToBalance(h.env, sh, snd, id, d, rwe);
    if debited.Ok? && q > 0 {
      BalanceCovers(h.env, debited.value, dst, id, q, rwe);
    }
  }

  // ---- deliveries ----

  lemma ArrivalCovers(h: Host, sh: Shard, snd: Address, dst: Address, k: Key, t: Token, rwe: bool)
    requires Config(h.env.flags) && AllCovered(sh) && h.shardOf(snd) != h.shardOf(dst)
    requires k.nonce > 0 && IsNft(Id(k)) && GoodToken(k.nonce, t) && t.value >= 0
    ensures var r := AddNft(h, sh, snd, dst, k, t, rwe);
            Fine(r) && (r.Ok? ==> AllCovered(r.value))
  {
    hide AddNft, Covered, NonNegative, OnlyId, Id, IsNft;
    assert Covered(sh, Id(k), 0);
    AddNftCovers(h, sh, snd, dst, k, t, rwe, 0);
    if AddNft(h, sh, snd, dst, k, t, rwe).Ok? {
      AddNftOnlyId(h, sh, snd, dst, k, t, rwe);
      AddNftKeeps(h, sh, snd, dst, k, t, rwe);
      CoveredAll(sh, AddNft(h, sh, snd, dst, k, t, rwe).value, Id(k));
    }
  }

  lemma ReceiveOneCovers(h: Host, sh: Shard, snd: Address, dst: Address, item: Wire.Received, rwe: bool)
    requires Config(h.env.flags) && AllCovered(sh) && h.shardOf(snd) != h.shardOf(dst)
    requires GoodItem(MultiMessage, item) && item.data.value >= 0
    ensures var r := ReceiveOne(h, sh, snd, dst, item, rwe);
            Fine(r) && (r.Ok? ==> AllCovered(r.value))
  {
    hide AddNft, AddToBalance, AllCovered, IsNft, Id;
    if item.nonce > 0 {
      ArrivalCovers(h, sh, snd, dst, Key(item.token, item.nonce), item.data, rwe);
    } else if item.token == BASE_TOKEN {
      BalanceOfBaseCovers(sh, dst, AccountAt(sh, dst).balance + item.data.value);
    } else {
      BalanceCovers(h.env, sh, dst, item.token, item.data.value, rwe);
    }
  }

  lemma {:induction false} ReceiveAllCovers(h: Host, sh: Shard, snd: Address, dst: Address, items: seq<Wire.Received>,
                                            rwe: bool)
    requires Config(h.env.flags) && AllCovered(sh) && h.shardOf(snd) != h.shardOf(dst)
    requires GoodItems(MultiMessage, items) && ItemsNonNegative(items)
    ensures var r := ReceiveAll(h, sh, snd, dst, items, rwe);
            Fine(r) && (r.Ok? ==> AllCovered(r.value))
    decreases |items|
  {
    hide ReceiveOne, AllCovered, GoodItem;
    if |items| > 0 {
      var n := |items| - 1;
      ReceiveAllCovers(h, sh, snd, dst, items[..n], rwe);
      var front := ReceiveAll(h, sh, snd, dst, items[..n], rwe);
      if front.Ok? {
        ReceiveOneCovers(h, front.value, snd, dst, items[n], rwe);
      }
    }
  }

  ghost predicate GoodMessage(shardOf: Address -> nat, m: Message) {
    GoodItems(m.kind, m.items) && ItemsNonNegative(m.items) && shardOf(m.sender) != shardOf(m.receiver)
  }

  lemma DeliveryCovers(h: Host, sh: Shard, m: Message, rwe: bool)
    requires Config(h.env.flags) && AllCovered(sh) && GoodMessage(h.shardOf, m)
    ensures var r := Receive(h, sh, m, rwe);
            Fine(r) && (r.Ok? ==> AllCovered(r.value))
  {
    hide ReceiveAll, AddNft, AddToBalance, AllCovered, IsNft, Id;
    if m.kind == MultiMessage {
      ReceiveAllCovers(h, sh, m.sender, m.receiver, m.items, rwe);
    } else if |m.items| == 1 {
      var item := m.items[0];
      assert GoodItem(m.kind, item);
      if m.kind == FungibleMessage {
        BalanceCovers(h.env, sh, m.receiver, item.token, item.data.value, rwe);
      } else {
        ArrivalCovers(h, sh, m.sender, m.receiver, Key(item.token, item.nonce), item.data, rwe);
      }
    }
  }

  // ---- the other calls ----

  // A save of a token followed by a change of its total.
  lemma SaveAndAdjust(env: Env, sh: Shard, sender: nat, a: Address, k: Key, t: Token, args: SaveArgs, delta: int)
    requires Config(env.flags) && AllCovered(sh) && k.nonce > 0 && IsNft(Id(k))
    requires t.kind == NonFungible && t.meta.Some? && t.value >= 0 && (args.keepOnZero ==> t.value > 0)
    requires delta == t.value - Holding(sh, a, Esdt(Id(k)))
    ensures var saved := SaveToken(env, sh, sender, a, k, t, args);
            && Fine(saved)
            && (saved.Ok? ==>
                  var r := AddToLiquidity(env, saved.value.shard, k, saved.value.kind, delta, false);
                  && r.Ok? && AllCovered(r.value)
                  && (delta == 0 ==> AllCovered(saved.value.shard)))
  {
    hide SaveToken, AddToLiquidity, Covered, NonNegative, OnlyId, Id, IsNft;
    assert Covered(sh, Id(k), 0);
    HoldingAtMostTotal(sh, a, Id(k));
    SaveCovers(env, sh, sender, a, k, t, args, 0);
    var saved := SaveToken(env, sh, sender, a, k, t, args);
    if saved.Ok? {
      var mid := saved.value.shard;
      SaveKeeps(env, sh, sender, a, k, t, args);
      SaveOnlyId(env, sh, sender, a, k, t, args);
      HoldingAtMostTotal(mid, a, Id(k));
      LiquidityCovers(env, mid, k, delta, false, -delta);
      var r := AddToLiquidity(env, mid, k, saved.value.kind, delta, false);
      LiquidityOnlyId(env, mid, k, saved.value.kind, delta, false);
      OnlyIdThen(sh, mid, r.value, Id(k));
      SameHoldings(mid, r.value);
      CoveredAll(sh, r.value, Id(k));
      if delta == 0 {
        CoveredAll(sh, mid, Id(k));
      }
    }
  }

  lemma CreateCovers(h: Host, sh: Shard, a: Address, k: Key, q: nat, meta: MetaData, rwe: bool)
    requires Config(h.env.flags) && AllCovered(sh) && k.nonce > 0 && IsNft(Id(k)) && Holding(sh, a, Esdt(Id(k))) == 0
    ensures var r := CreateNft(h, sh, a, k, q, meta, rwe);
            Fine(r) && (r.Ok? ==> AllCovered(r.value))
  {
    hide SaveToken, AddToLiquidity, AllCovered, Id, IsNft;
    var t := Token(NonFungible, q, Some(meta), [], None);
    SaveAndAdjust(h.env, sh, h.shardOf(a), a, k, t, SaveArgs(true, rwe, false), q);
  }

  lemma HeldBy(h: Host, sh: Shard, a: Address, k: Key)
    requires Config(h.env.flags) && k.nonce > 0 && IsNft(Id(k)) && AllCovered(sh) && OnSender(h.env, sh, a, k).Ok?
    ensures var t := OnSender(h.env, sh, a, k).value;
            t.kind == NonFungible && t.meta.Some? && t.value == Holding(sh, a, Esdt(Id(k))) > 0
  {
    hide Covered, NonNegative, Id, IsNft;
    assert Covered(sh, Id(k), 0);
    HeldToken(h, sh, a, k);
  }

  lemma AddQuantityCovers(h: Host, sh: Shard, a: Address, k: Key, q: nat, rwe: bool)
    requires Config(h.env.flags) && AllCovered(sh) && Named(k)
    ensures var r := AddQuantity(h, sh, a, k, q, rwe);
            Fine(r) && (r.Ok? ==> AllCovered(r.value))
  {
    hide SaveToken, AddToLiquidity, AllCovered, Id, IsNft;
    if OnSender(h.env, sh, a, k).Ok? && k.nonce > 0 {
      HeldBy(h, sh, a, k);
      var t := OnSender(h.env, sh, a, k).value;
      SaveAndAdjust(h.env, sh, h.shardOf(a), a, k, t.(value := t.value + q), SaveArgs(false, rwe, false), q);
    }
  }

  lemma BurnNftCovers(h: Host, sh: Shard, a: Address, k: Key, q: nat, rwe: bool)
    requires Config(h.env.flags) && AllCovered(sh) && Named(k)
    ensures var r := BurnNft(h, sh, a, k, q, rwe);
            Fine(r) && (r.Ok? ==> AllCovered(r.value))
  {
    hide SaveToken, AddToLiquidity, AllCovered, Id, IsNft;
    if OnSender(h.env, sh, a, k).Ok? && k.nonce > 0 {
      HeldBy(h, sh, a, k);
      var t := OnSender(h.env, sh, a, k).value;
      if q <= t.value {
        SaveAndAdjust(h.env, sh, h.shardOf(a), a, k, t.(value := t.value - q), SaveArgs(false, rwe, false), -(q as int));
      }
    }
  }

  lemma UpdateCovers(h: Host, sh: Shard, a: Address, k: Key, u: Update, rwe: bool)
    requires Config(h.env.flags) && AllCovered(sh) && Named(k)
    ensures var r := UpdateMetaData(h, sh, a, k, u, rwe);
            Fine(r) && (r.Ok? ==> AllCovered(r.value))
  {
    hide SaveToken, AllCovered, Id, IsNft;
    if OnSender(h.env, sh, a, k).Ok? && k.nonce > 0 {
      HeldBy(h, sh, a, k);
      var t := OnSender(h.env, sh, a, k).value;
      var meta := match u
        case AddUris(uris) => t.meta.value.(uris := t.meta.value.uris + uris)
        case SetAttributes(attributes) => t.meta.value.(attributes := attributes);
      SaveAndAdjust(h.env, sh, h.shardOf(a), a, k, t.(meta := Some(meta)), SaveArgs(true, rwe, true), 0);
    }
  }

  // AddURI and UpdateAttributes leave the entry untracked: from then on the
  // total does not move.
  lemma UpdateUntracks(h: Host, sh: Shard, a: Address, k: Key, u: Update, rwe: bool)
    requires Config(h.env.flags) && AllCovered(sh) && IsNft(Id(k)) && UpdateMetaData(h, sh, a, k, u, rwe).Ok?
    ensures !Tracked(SystemAt(UpdateMetaData(h, sh, a, k, u, rwe).value, Id(k)))
  {
    hide AllCovered, Id, IsNft;
    HeldBy(h, sh, a, k);
    Exists(sh, a, Id(k));
  }

  lemma Exists(sh: Shard, a: Address, id: bytes)
    requires AllCovered(sh) && IsNft(id) && Holding(sh, a, Esdt(id)) > 0
    ensures SystemAt(sh, id).Some? && SystemAt(sh, id).value.meta.Some?
  {
    hide NonNegative, IsNft;
    assert Covered(sh, id, 0);
    HoldingAtMostTotal(sh, a, id);
  }

  lemma FreezeCovers(sh: Shard, a: Address, id: bytes, frozen: bool)
    requires AllCovered(sh) && (IsNft(id) ==> RecordAt(sh, a, id).Some?)
    ensures AllCovered(SetFrozen(sh, a, id, frozen))
  {
    hide Covered, NonNegative, IsNft;
    var t := FungibleRecord(sh, a, id);
    var t' := t.(properties := FrozenProperties(frozen));
    var record := if t'.value == 0 && PropertiesEmpty(t'.properties) then None else Some(t');
    var after := PutRecord(sh, a, id, record);
    assert after == SetFrozen(sh, a, id, frozen);
    NonNegativeHolding(sh, a, id);
    RecordBalanced(sh, a, id, record, Esdt(id));
    PutRecordOnlyId(sh, a, id, record);
    if IsNft(id) {
      assert Covered(sh, id, 0);
      SameAmountCovered(sh, a, id, record);
    }
    CoveredAll(sh, after, id);
  }

  lemma NonNegativeHolding(sh: Shard, a: Address, id: bytes)
    requires NonNegative(sh)
    ensures Holding(sh, a, Esdt(id)) >= 0
  {
  }

  lemma SameAmountCovered(sh: Shard, a: Address, id: bytes, t: Option<Token>)
    requires NonNegative(sh) && Covered(sh, id, 0) && RecordAt(sh, a, id).Some?
    requires t.Some? ==> t.value.kind == RecordAt(sh, a, id).value.kind
    requires ValueOf(t) == Holding(sh, a, Esdt(id))
    ensures Covered(PutRecord(sh, a, id, t), id, 0)
  {
    assert GoodRecord(RecordAt(sh, a, id));
    var after := PutRecord(sh, a, id, t);
    PutRecordShift(sh, a, id, t, Esdt(id));
    ShiftTotal(sh, after, Esdt(id), a, 0, a, 0);
    forall b: Address
      ensures GoodRecord(RecordAt(after, b, id))
    {
      assert GoodRecord(RecordAt(sh, b, id));
    }
  }

  // ---- wiping ----

  // The call's argument reads back as the NFT it names, or as no NFT.
  ghost predicate WipeReadsBack(id: bytes) {
    if IsNft(id) then WipeKey(id).nonce > 0 && Id(WipeKey(id)) == id else WipeKey(id).nonce == 0
  }

  // It does for valid token identifiers, and for NFTs exactly when no byte of
  // the nonce is a dash.
  lemma WipeReadsBackIff(token: bytes, nonce: nat)
    requires ValidToken(token) && nonce < TWO64
    ensures WipeReadsBack(Id(Key(token, nonce))) <==> DASH !in ToBytes(nonce)
  {
    hide ValidToken, IndexOf, Extract;
    var b := ToBytes(nonce);
    var id := token + b;
    ExtractIffNoDash(token, nonce);
    ExtractValue(token, b);
    FromToBytes(nonce);
    if nonce == 0 {
      NoNonceId(token);
      TokenIsNotNft(token);
    } else {
      assert NftId(token, nonce, id);
      var e := Extract(id);
      if e.nonce > 0 && Id(WipeKey(id)) == id {
        SuffixEqual(token, ToBytes(e.nonce), b);
        FromToBytes(e.nonce);
      }
    }
  }

  lemma SuffixEqual(t: bytes, a: bytes, b: bytes)
    ensures t + a == t + b <==> a == b
  {
    assert (t + a)[|t|..] == a && (t + b)[|t|..] == b;
  }

  lemma RemovedCovered(sh: Shard, a: Address, id: bytes)
    requires Covered(sh, id, 0) && NonNegative(sh)
    ensures Covered(PutRecord(sh, a, id, None), id, Holding(sh, a, Esdt(id)))
    ensures ShardTotal(PutRecord(sh, a, id, None), Esdt(id)) == ShardTotal(sh, Esdt(id)) - Holding(sh, a, Esdt(id)) >= 0
  {
    var after := PutRecord(sh, a, id, None);
    PutRecordShift(sh, a, id, None, Esdt(id));
    ShiftTotal(sh, after, Esdt(id), a, -Holding(sh, a, Esdt(id)), a, 0);
    HoldingAtMostTotal(sh, a, id);
    forall b: Address
      ensures GoodRecord(RecordAt(after, b, id))
    {
      assert GoodRecord(RecordAt(sh, b, id));
    }
  }

  lemma WipeCovers(h: Host, sh: Shard, a: Address, id: bytes)
    requires Config(h.env.flags) && AllCovered(sh) && WipeReadsBack(id)
    ensures var r := Wipe(h, sh, a, id);
            Fine(r) && (r.Ok? ==> AllCovered(r.value))
  {
    hide AddToLiquidity, Covered, NonNegative, WipeKey, OnlyId, Id, IsNft;
    var t, k := FungibleRecord(sh, a, id), WipeKey(id);
    var removed := PutRecord(sh, a, id, None);
    if Frozen(t.properties) {
      PutRecordOnlyId(sh, a, id, None);
      RecordBalanced(sh, a, id, None, Esdt(id));
      if IsNft(id) {
        assert Covered(sh, id, 0);
        WipedRecord(sh, a, id);
        RemovedCovered(sh, a, id);
        Exists(sh, a, id);
        LiquidityCovers(h.env, removed, k, -t.value, false, t.value);
        var after := AddToLiquidity(h.env, removed, k, t.kind, -t.value, false).value;
        LiquidityOnlyId(h.env, removed, k, t.kind, -t.value, false);
        SameHoldings(removed, after);
        OnlyIdThen(sh, removed, after, id);
        CoveredAll(sh, after, id);
      } else {
        NoNonce(h.env, removed, k, t.kind, -t.value, false);
        CoveredAll(sh, removed, id);
      }
    }
  }

  // Of a token with a tracked total, a wipe keeps the total right exactly when
  // no byte of the nonce is a dash; otherwise it lowers some other total.
  lemma WipeCoversIff(h: Host, sh: Shard, a: Address, token: bytes, nonce: nat)
    requires Config(h.env.flags) && AllCovered(sh) && ValidToken(token) && 0 < nonce < TWO64
    requires var id := Id(Key(token, nonce)); Wipe(h, sh, a, id).Ok? && Tracked(SystemAt(sh, id))
    ensures var id := Id(Key(token, nonce));
            Covered(Wipe(h, sh, a, id).value, id, 0) <==> DASH !in ToBytes(nonce)
  {
    hide AddToLiquidity, Covered, NonNegative, WipeKey, OnlyId, ValidToken;
    var id := Id(Key(token, nonce));
    assert NftId(token, nonce, id);
    var after := Wipe(h, sh, a, id).value;
    WipeReadsBackIff(token, nonce);
    if DASH !in ToBytes(nonce) {
      WipeCovers(h, sh, a, id);
      assert Covered(after, id, 0);
    } else {
      var t, removed := FungibleRecord(sh, a, id), PutRecord(sh, a, id, None);
      assert Covered(sh, id, 0);
      WipedRecord(sh, a, id);
      RemovedCovered(sh, a, id);
      WipedElsewhere(h.env, removed, WipeKey(id), t.kind, -t.value, id);
      SameTotal(removed, after, id);
      StaleTotal(sh, after, id);
    }
  }

  lemma WipedElsewhere(env: Env, sh: Shard, k: Key, kind: TokenType, delta: int, id: bytes)
    requires k.nonce == 0 || Id(k) != id
    ensures var r := AddToLiquidity(env, sh, k, kind, delta, false); r.Ok? ==> SameAt(sh, r.value, id)
  {
    hide Id;
  }

  // What a wipe with a dash in the nonce does instead: it looks for the total
  // of the NFT its argument reads back as, and fails when there is none or it
  // is too small.
  lemma MisreadWipe(h: Host, sh: Shard, a: Address, id: bytes)
    requires Config(h.env.flags) && AllCovered(sh) && IsNft(id) && Frozen(FungibleRecord(sh, a, id).properties)
    requires WipeKey(id).nonce > 0 && Id(WipeKey(id)) != id && IsNft(Id(WipeKey(id)))
    ensures var other, v := Id(WipeKey(id)), Holding(sh, a, Esdt(id));
            var r, total := Wipe(h, sh, a, id), ShardTotal(sh, Esdt(other));
            && (r == Fail(NilESDTData) <==> SystemAt(sh, other).None?)
            && (r == Fail(InvalidLiquidity)
                <==> Tracked(SystemAt(sh, other)) && total < v && !(h.env.flags.fixOldTokenLiquidity && total == 0))
            && (r.Fail? ==> r.error == NilESDTData || r.error == InvalidLiquidity)
  {
    hide Covered, NonNegative, WipeKey, Id, IsNft;
    var k, t := WipeKey(id), FungibleRecord(sh, a, id);
    assert Covered(sh, id, 0) && Covered(sh, Id(k), 0);
    WipedRecord(sh, a, id);
    if Tracked(SystemAt(sh, Id(k))) {
      TrackedTotal(sh, Id(k));
    }
  }

  lemma TrackedTotal(sh: Shard, id: bytes)
    requires Covered(sh, id, 0) && Tracked(SystemAt(sh, id))
    ensures SystemAt(sh, id).value.value == ShardTotal(sh, Esdt(id))
  {
  }

  lemma WipedRecord(sh: Shard, a: Address, id: bytes)
    requires Covered(sh, id, 0) && Frozen(FungibleRecord(sh, a, id).properties)
    ensures FungibleRecord(sh, a, id).kind == NonFungible && Holding(sh, a, Esdt(id)) > 0
  {
    assert GoodRecord(RecordAt(sh, a, id));
  }

  lemma NoNonce(env: Env, sh: Shard, k: Key, kind: TokenType, delta: int, keep: bool)
    requires k.nonce == 0
    ensures AddToLiquidity(env, sh, k, kind, delta, keep) == Ok(sh)
  {
  }

  // ---- the theorem ----

  // What the environment keeps to on top of Admissible: calls run on the shard
  // of their sender, NFTs leave a shard under a name with their nonce only, no
  // mint role is given for an NFT's identifier, creates are of valid tokens,
  // freezes are of held NFTs, and wipes read back.
  ghost predicate Guarded(shardOf: Address -> nat, net: Net, s: Step) {
    var h, i := s.host, s.host.env.selfShard;
    && Admissible(net, s) && Located(h, net) && Config(h.env.flags) && h.shardOf == shardOf
    && match s.op
       case TransferFungible(a, _, _, _, _) => shardOf(a) == i
       case TransferNft(a, _, k, _, _) => shardOf(a) == i && Named(k)
       case TransferMulti(a, b, list, _) => shardOf(a) == i && AllWellNamed(h, b, list)
       case MintTokens(_, id, _, _) => !IsNft(id)
       case Create(_, k, _, _, _) => k.nonce > 0 && Named(k)
       case AddMore(_, k, _, _) => Named(k)
       case BurnSome(_, k, _, _) => Named(k)
       case Update(_, k, _, _) => Named(k)
       case Freeze(a, id, _) => IsNft(id) ==> RecordAt(net.shards[i], a, id).Some?
       case WipeOut(_, id) => WipeReadsBack(id)
       case _ => true
  }

  ghost predicate AllGuarded(shardOf: Address -> nat, net: Net, steps: seq<Step>) {
    forall i :: 0 <= i < |steps| ==> Guarded(shardOf, Run(net, steps[..i]), steps[i])
  }

  ghost predicate NetCovered(shardOf: Address -> nat, net: Net) {
    && WellFormed(net) && Backed(net)
    && (forall i :: 0 <= i < |net.shards| ==> AllCovered(net.shards[i]))
    && (forall i :: 0 <= i < |net.inFlight| ==> GoodMessage(shardOf, net.inFlight[i]))
  }

  // Where every run starts: shards without accounts, nothing sent or issued.
  function Genesis(shards: nat): Net {
    Net(seq(shards, i => Shard(map[], map[])), [], [])
  }

  lemma GenesisCovered(shardOf: Address -> nat, shards: nat)
    ensures NetCovered(shardOf, Genesis(shards))
  {
    var net := Genesis(shards);
    forall x
      ensures NetTotal(net, x) == 0
    {
      EmptyTotal(net.shards, x);
    }
    forall i, id: bytes | 0 <= i < shards
      ensures Covered(net.shards[i], id, 0)
    {
      assert ShardTotal(net.shards[i], Esdt(id)) == 0;
    }
  }

  lemma {:induction false} EmptyTotal(shards: seq<Shard>, x: Asset)
    requires forall i :: 0 <= i < |shards| ==> shards[i] == Shard(map[], map[])
    ensures ShardsTotal(shards, x) == 0
  {
    if |shards| > 0 {
      EmptyTotal(shards[..|shards| - 1], x);
      assert ShardTotal(shards[|shards| - 1], x) == 0;
    }
  }

  ghost predicate GoodMessages(shardOf: Address -> nat, ms: seq<Message>) {
    forall i :: 0 <= i < |ms| ==> GoodMessage(shardOf, ms[i])
  }

  lemma CallCovers(shardOf: Address -> nat, net: Net, s: Step)
    requires NetCovered(shardOf, net) && Guarded(shardOf, net, s) && !s.op.Deliver?
    ensures var r := Execute(s.host, net.shards[s.host.env.selfShard], s.op);
            Fine(r) && (r.Ok? ==> AllCovered(r.value.shard) && GoodMessages(shardOf, r.value.messages))
  {
    hide AllCovered, GoodItems, ItemsNonNegative, SendFungible, SendNft, SendMulti, Mint, BurnFungible, CreateNft, AddQuantity,
         BurnNft, UpdateMetaData, SetFrozen, Wipe, WellFormed, Backed, WipeReadsBack, Balanced, IsNft, Id, AllWellNamed;
    var h, sh := s.host, net.shards[s.host.env.selfShard];
    if Execute(h, sh, s.op).Ok? {
      CallMessages(shardOf, net, s);
    }
    match s.op {
      case TransferFungible(a, b, id, q, rwe) => SendFungibleCovers(h, sh, a, b, id, q, rwe);
      case TransferNft(a, b, k, q, rwe) => SendNftCovers(h, sh, a, b, k, q, rwe);
      case TransferMulti(a, b, list, rwe) => SendMultiCovers(h, sh, a, b, list, rwe);
      case MintTokens(a, id, q, rwe) => MintCovers(h, sh, a, id, q, rwe);
      case BurnTokens(a, id, q, rwe) => BurnFungibleCovers(h, sh, a, id, q, rwe);
      case Create(a, k, q, meta, rwe) => CreateCovers(h, sh, a, k, q, meta, rwe);
      case AddMore(a, k, q, rwe) => AddQuantityCovers(h, sh, a, k, q, rwe);
      case BurnSome(a, k, q, rwe) => BurnNftCovers(h, sh, a, k, q, rwe);
      case Update(a, k, u, rwe) => UpdateCovers(h, sh, a, k, u, rwe);
      case Freeze(a, id, frozen) => FreezeCovers(sh, a, id, frozen);
      case WipeOut(a, id) => WipeCovers(h, sh, a, id);
    }
  }

  lemma MintCovers(h: Host, sh: Shard, a: Address, id: bytes, q: nat, rwe: bool)
    requires AllCovered(sh) && !IsNft(id)
    ensures var r := Mint(h, sh, a, id, q, rwe); Fine(r) && (r.Ok? ==> AllCovered(r.value))
  {
    hide AddToBalance, AllCovered;
    BalanceCovers(h.env, sh, a, id, q, rwe);
  }

  lemma BurnFungibleCovers(h: Host, sh: Shard, a: Address, id: bytes, q: nat, rwe: bool)
    requires AllCovered(sh)
    ensures var r := BurnFungible(h, sh, a, id, q, rwe); Fine(r) && (r.Ok? ==> AllCovered(r.value))
  {
    hide AddToBalance, AllCovered;
    BalanceCovers(h.env, sh, a, id, -(q as int), rwe);
  }

  // What a call sends is in order: the amounts are not negative, by
  // conservation.
  lemma CallMessages(shardOf: Address -> nat, net: Net, s: Step)
    requires NetCovered(shardOf, net) && Guarded(shardOf, net, s) && !s.op.Deliver?
    requires Execute(s.host, net.shards[s.host.env.selfShard], s.op).Ok?
    ensures MessagesNonNegative(Execute(s.host, net.shards[s.host.env.selfShard], s.op).value.messages)
  {
    hide Execute, AllCovered, GoodMessage, NonNegative, Id, IsNft;
    CallBalanced(s.host, net.shards[s.host.env.selfShard], s.op, Base);
  }

  // No step fails with a liquidity error, and every step keeps every total.
  lemma StepCovers(shardOf: Address -> nat, net: Net, s: Step)
    requires NetCovered(shardOf, net) && Guarded(shardOf, net, s)
    ensures Fine(Perform(s.host, net, s.op)) && NetCovered(shardOf, Next(net, s))
  {
    hide Execute, Receive, AllCovered, GoodMessage, WellFormed, Backed, WipeReadsBack, IsNft, Id, AllWellNamed;
    StepConserves(net, s);
    if s.op.Deliver? {
      if s.op.index < |net.inFlight| {
        DeliveryCovers(s.host, net.shards[s.host.env.selfShard], net.inFlight[s.op.index], s.op.rwe);
      }
    } else {
      CallCovers(shardOf, net, s);
    }
  }

  // Over any run: every tracked total equals the sum of its token's balances
  // on the shard, a positive sum has its metadata, and the next step cannot
  // fail with a liquidity error.
  lemma {:induction false} RunCovers(shardOf: Address -> nat, net: Net, steps: seq<Step>)
    requires NetCovered(shardOf, net) && AllGuarded(shardOf, net, steps)
    ensures NetCovered(shardOf, Run(net, steps))
    ensures forall i :: 0 <= i < |steps| ==> Fine(Perform(steps[i].host, Run(net, steps[..i]), steps[i].op))
  {
    hide NetCovered, Perform, Guarded;
    if |steps| > 0 {
      var n := |steps| - 1;
      assert forall i :: 0 <= i < n ==> steps[..n][..i] == steps[..i];
      RunCovers(shardOf, net, steps[..n]);
      StepCovers(shardOf, Run(net, steps[..n]), steps[n]);
    }
  }
}
