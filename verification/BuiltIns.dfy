// The built-in functions as they run, step by step on one shard's storage:
// what each does to every balance, and that none of them upsets a liquidity
// total.
module BuiltIns {
  import opened Bytes
  import opened Tokens
  import opened EsdtStorage
  import opened MetaDataMerge
  import opened Ledger
  import opened Network
  import opened Conservation
  import opened Liquidity
  import opened Metadata
  import opened Permissions
  import Keys
  import Wire = TransferWire

  // ---- effects ----

  // Account p has u more of what is stored under id, account q has v more, and
  // no balance changes otherwise.
  ghost predicate Moved(before: Shard, after: Shard, id: bytes, p: Address, u: int, q: Address, v: int) {
    NonNegative(before) ==>
      NonNegative(after) && forall x: Asset :: Shift(before, after, x, p, Of(id, x, u), q, Of(id, x, v))
  }

  // Every liquidity total stays right, and no liquidity error is returned.
  ghost predicate KeepsTotals(h: Host, before: Shard, r: Result<Shard>) {
    Config(h.env.flags) && AllCovered(before) ==> Fine(r) && (r.Ok? ==> AllCovered(r.value))
  }

  // A call at its sender's shard, where every total is right.
  ghost predicate Orderly(h: Host, sh: Shard, snd: Address) {
    Config(h.env.flags) && AllCovered(sh) && Here(h, snd)
  }

  function ShardOf<T>(r: Result<T>, sh: Shard): Result<Shard> {
    if r.Ok? then Ok(sh) else Fail(r.error)
  }

  // Nothing but one record changes, and of it the amount alone; a record goes
  // only when it holds nothing and is not frozen.
  ghost predicate OnlyAmount(before: Shard, after: Shard, a: Address, id: bytes) {
    var was, now := FungibleRecord(before, a, id), RecordAt(after, a, id);
    && after == PutRecord(before, a, id, now)
    && (now.Some? ==> now.value == was.(value := now.value.value))
    && (now.None? ==> !FrozenBit(was.properties))
  }

  lemma BalanceEffects(h: Host, sh: Shard, a: Address, id: bytes, delta: int, rwe: bool)
    ensures var r := AddToBalance(h.env, sh, a, id, delta, rwe);
            && (r.Ok? <==> MayChange(h.env, sh, a, id, delta, rwe))
            && (r.Ok? ==> Moved(sh, r.value, id, a, delta, a, 0) && OnlyAmount(sh, r.value, a, id))
            && ((Keys.IsNft(id) ==> delta <= 0) ==> KeepsTotals(h, sh, r))
  {
    hide AddToBalance, Shift, NonNegative, AllCovered, Keys.IsNft, MayChange, OnlyAmount;
    var r := AddToBalance(h.env, sh, a, id, delta, rwe);
    BalanceIff(h.env, sh, a, id, delta, rwe);
    if r.Ok? {
      ChangedAmount(h.env, sh, a, id, delta, rwe);
    }
    if r.Ok? && NonNegative(sh) {
      BalanceKeeps(h.env, sh, a, id, delta, rwe);
      forall x: Asset ensures Shift(sh, r.value, x, a, Of(id, x, delta), a, Of(id, x, 0)) {
        BalanceShift(h.env, sh, a, id, delta, rwe, x);
      }
    }
    if AllCovered(sh) && (Keys.IsNft(id) ==> delta <= 0) {
      BalanceCovers(h.env, sh, a, id, delta, rwe);
    }
  }

  lemma ChangedAmount(env: Env, sh: Shard, a: Address, id: bytes, delta: int, rwe: bool)
    requires AddToBalance(env, sh, a, id, delta, rwe).Ok?
    ensures OnlyAmount(sh, AddToBalance(env, sh, a, id, delta, rwe).value, a, id)
  {
  }

  // An NFT that comes from another shard under its own name.
  ghost predicate Arrives(h: Host, snd: Address, dst: Address, k: Key, t: Token) {
    h.shardOf(snd) != h.shardOf(dst) && k.nonce > 0 && Named(k) && GoodToken(k.nonce, t) && t.value >= 0
  }

  // An NFT with metadata, for an account and a shard in order.
  ghost predicate WithMetaData(h: Host, sh: Shard, dst: Address, k: Key, t: Token) {
    LawfulVersions(h.vc) && k.nonce > 0 && t.value > 0 && t.meta.Some? && InOrder(sh, dst, k)
  }

  lemma ArrivalEffects(h: Host, sh: Shard, snd: Address, dst: Address, k: Key, t: Token, rwe: bool)
    requires t.value >= 0
    ensures var r := AddNft(h, sh, snd, dst, k, t, rwe);
            && (r.Ok? ==> Moved(sh, r.value, Id(k), dst, t.value, dst, 0))
            && (Arrives(h, snd, dst, k, t) ==> KeepsTotals(h, sh, r))
            && (r.Ok? && WithMetaData(h, sh, dst, k, t) ==> ArrivalReads(h, sh, r.value, dst, k, t))
  {
    hide AddNft, Shift, NonNegative, AllCovered, Id, Keys.IsNft, ArrivalReads, LawfulVersions, InOrder;
    var r := AddNft(h, sh, snd, dst, k, t, rwe);
    if r.Ok? && WithMetaData(h, sh, dst, k, t) {
      ArrivalKeepsBest(h, sh, snd, dst, k, t, rwe);
    }
    if r.Ok? && NonNegative(sh) {
      AddNftKeeps(h, sh, snd, dst, k, t, rwe);
      forall x: Asset ensures Shift(sh, r.value, x, dst, Of(Id(k), x, t.value), dst, Of(Id(k), x, 0)) {
        AddNftShift(h, sh, snd, dst, k, t, rwe, x);
      }
    }
    if Arrives(h, snd, dst, k, t) && Config(h.env.flags) && AllCovered(sh) {
      ArrivalCovers(h, sh, snd, dst, k, t, rwe);
    }
  }

  lemma HandOverEffects(h: Host, sh: Shard, snd: Address, dst: Address, k: Key, t: Token, rwe: bool)
    requires t.value >= 0 && HandOver(h, sh, snd, dst, k, t, rwe).Ok?
    ensures Moved(sh, HandOver(h, sh, snd, dst, k, t, rwe).value, Id(k), dst, Arriving(h, dst, t.value), dst, 0)
  {
    hide AddNft, AddToLiquidity, Shift, NonNegative, Id;
    if Here(h, dst) {
      ArrivalEffects(h, sh, snd, dst, k, t, rwe);
    } else {
      LiquidityKeepsAccounts(h.env, sh, k, t.kind, -t.value, KeepsMetaData(h, snd, k.token, t.kind));
      NothingMoved(sh, HandOver(h, sh, snd, dst, k, t, rwe).value, Id(k), dst);
    }
  }

  lemma NothingMoved(before: Shard, after: Shard, id: bytes, a: Address)
    requires before.accounts == after.accounts
    ensures Moved(before, after, id, a, 0, a, 0)
  {
    SameHoldings(before, after);
  }

  lemma SendNftEffects(h: Host, sh: Shard, snd: Address, dst: Address, k: Key, q: nat, rwe: bool)
    ensures var r := SendNft(h, sh, snd, dst, k, q, rwe);
            && (r.Ok? ==>
                  && Moved(sh, r.value.shard, Id(k), snd, -(q as int), dst, Arriving(h, dst, q))
                  && (if Here(h, dst) then r.value.items == [] else CarriesOne(r.value.items, k, q))
                  && (Here(h, snd) && !Here(h, dst) ==> CarriesToken(h, sh, snd, dst, k, q, r.value.items[0].data))
                  && MaySendNft(h, sh, snd, dst, k, q, rwe))
            && (Here(h, snd) && Named(k) ==> KeepsTotals(h, sh, ShardOf(r, if r.Ok? then r.value.shard else sh)))
            && (Orderly(h, sh, snd) && Named(k) && MaySendNft(h, sh, snd, dst, k, q, rwe) ==> r.Ok?)
  {
    hide TakeNft, HandOver, Shift, NonNegative, AllCovered, Id, Keys.IsNft, MarkSent, MaySendNft, CarriesToken, AsItem;
    var r := SendNft(h, sh, snd, dst, k, q, rwe);
    if Config(h.env.flags) && AllCovered(sh) && Here(h, snd) && Named(k) {
      SendNftIff(h, sh, snd, dst, k, q, rwe);
    }
    if r.Ok? {
      SendNftNeeds(h, sh, snd, dst, k, q, rwe);
      if Here(h, snd) && !Here(h, dst) {
        MessageCarries(h, sh, snd, dst, k, q, rwe);
      }
    }
    if r.Ok? {
      ItemOf(h, sh, snd, dst, k, q, rwe);
      var t := OnSender(h.env, sh, snd, k).value;
      var taken := TakeNft(h, sh, snd, k, t, q, rwe).value;
      var after := HandOver(h, taken.shard, snd, dst, k, taken.token, rwe).value;
      TakenValue(h, sh, snd, k, t, q, rwe);
      if NonNegative(sh) {
        forall x: Asset
          ensures Shift(sh, after, x, snd, Of(Id(k), x, -(q as int)), dst, Of(Id(k), x, Arriving(h, dst, q)))
          ensures NonNegative(after)
        {
          TakeAndHandOver(h, sh, snd, dst, k, t, q, rwe, x);
        }
        assert Shift(sh, after, Base, snd, Of(Id(k), Base, -(q as int)), dst, Of(Id(k), Base, Arriving(h, dst, q)));
      }
      if !Here(h, dst) {
        MarkKeepsAccounts(h, after, k, dst);
        SameMoved(sh, after, r.value.shard, Id(k), snd, -(q as int), dst, Arriving(h, dst, q));
      }
    }
    if Config(h.env.flags) && AllCovered(sh) && Here(h, snd) && Named(k) {
      SendNftCovers(h, sh, snd, dst, k, q, rwe);
    }
  }

  lemma ItemOf(h: Host, sh: Shard, snd: Address, dst: Address, k: Key, q: nat, rwe: bool)
    requires SendNft(h, sh, snd, dst, k, q, rwe).Ok?
    ensures var items := SendNft(h, sh, snd, dst, k, q, rwe).value.items;
            if Here(h, dst) then items == [] else CarriesOne(items, k, q)
  {
    hide SaveToken, HandOver, OnSender, MarkSent, Id;
  }

  lemma TakenValue(h: Host, sh: Shard, a: Address, k: Key, t: Token, q: nat, rwe: bool)
    requires TakeNft(h, sh, a, k, t, q, rwe).Ok?
    ensures TakeNft(h, sh, a, k, t, q, rwe).value.token.value == q
  {
    hide SaveToken;
  }

  predicate CarriesOne(items: seq<Wire.Received>, k: Key, q: nat) {
    |items| == 1 && items[0].token == k.token && items[0].nonce == k.nonce && items[0].data.value == q
  }

  lemma SameMoved(before: Shard, mid: Shard, after: Shard, id: bytes, p: Address, u: int, q: Address, v: int)
    requires Moved(before, mid, id, p, u, q, v) && mid.accounts == after.accounts
    ensures Moved(before, after, id, p, u, q, v)
  {
    SameHoldings(mid, after);
    if NonNegative(before) {
      forall x: Asset
        ensures Shift(before, after, x, p, Of(id, x, u), q, Of(id, x, v))
      {
        assert Shift(before, mid, x, p, Of(id, x, u), q, Of(id, x, v));
      }
    }
  }

  // What one item of a list moves, of any asset.
  ghost predicate MovedAs(h: Host, before: Shard, after: Shard, snd: Address, dst: Address, tr: Wire.Transfer) {
    NonNegative(before) ==>
      && NonNegative(after)
      && forall x: Asset :: Shift(before, after, x, snd, -(Moves(tr, x) as int), dst, Arriving(h, dst, Moves(tr, x)))
  }

  lemma SentToken(h: Host, sh: Shard, snd: Address, dst: Address, tr: Wire.Transfer, rwe: bool)
    requires SendOne(h, sh, snd, dst, tr, rwe).Ok? && tr.token != BASE_TOKEN
    ensures TakenFrom(h.env, sh, snd, KeyOf(tr), tr.value, SendOne(h, sh, snd, dst, tr, rwe).value.token)
  {
    hide TakeNft, HandOver, OnSender, TakenFrom, Id;
    TakenToken(h, sh, snd, KeyOf(tr), OnSender(h.env, sh, snd, KeyOf(tr)).value, tr.value, rwe);
  }

  lemma SendOneEffects(h: Host, sh: Shard, snd: Address, dst: Address, tr: Wire.Transfer, rwe: bool)
    requires snd != dst
    ensures var r := SendOne(h, sh, snd, dst, tr, rwe);
            && (r.Ok? ==>
                  && MovedAs(h, sh, r.value.shard, snd, dst, tr) && MaySendOne(h, sh, snd, dst, tr, rwe)
                  && (tr.token != BASE_TOKEN ==> TakenFrom(h.env, sh, snd, KeyOf(tr), tr.value, r.value.token)))
            && (Orderly(h, sh, snd) && WellNamed(h, dst, tr) && MaySendOne(h, sh, snd, dst, tr, rwe) ==> r.Ok?)
            && (Here(h, snd) && WellNamed(h, dst, tr) ==> KeepsTotals(h, sh, ShardOf(r, if r.Ok? then r.value.shard else sh)))
  {
    hide SendOne, Shift, NonNegative, AllCovered, WellNamed, Moves, MaySendOne, TakenFrom;
    var r := SendOne(h, sh, snd, dst, tr, rwe);
    if r.Ok? {
      SendOneNeeds(h, sh, snd, dst, tr, rwe);
      if tr.token != BASE_TOKEN {
        SentToken(h, sh, snd, dst, tr, rwe);
      }
    }
    if Config(h.env.flags) && AllCovered(sh) && Here(h, snd) && WellNamed(h, dst, tr) {
      SendOneIff(h, sh, snd, dst, tr, rwe);
    }
    if r.Ok? && NonNegative(sh) {
      forall x: Asset
        ensures Shift(sh, r.value.shard, x, snd, -(Moves(tr, x) as int), dst, Arriving(h, dst, Moves(tr, x)))
        ensures NonNegative(r.value.shard)
      {
        SendOneShift(h, sh, snd, dst, tr, rwe, x);
      }
      assert Shift(sh, r.value.shard, Base, snd, -(Moves(tr, Base) as int), dst, Arriving(h, dst, Moves(tr, Base)));
    }
    if Config(h.env.flags) && AllCovered(sh) && Here(h, snd) && WellNamed(h, dst, tr) {
      SendOneCovers(h, sh, snd, dst, tr, rwe);
    }
  }

  // The base token moves, and no other.
  ghost predicate BaseMoved(h: Host, before: Shard, after: Shard, snd: Address, dst: Address, amount: nat) {
    forall x: Asset :: Shift(before, after, x, snd, OfBase(x, -(amount as int)), dst, OfBase(x, Arriving(h, dst, amount)))
  }

  function OfBase(x: Asset, amount: int): int {
    if x == Base then amount else 0
  }

  lemma BaseEffects(h: Host, sh: Shard, snd: Address, dst: Address, tr: Wire.Transfer)
    ensures var r := MoveBaseToken(h, sh, snd, dst, tr);
            && (snd != dst && r.Ok? ==> BaseMoved(h, sh, r.value.shard, snd, dst, tr.value))
            && (r.Ok? <==> h.env.flags.baseTokenInMultiTransfer && tr.nonce == 0 && tr.value <= Holding(sh, snd, Base))
  {
    hide Shift;
    var r, q := MoveBaseToken(h, sh, snd, dst, tr), tr.value as int;
    if snd != dst && r.Ok? {
      var debited := PutBalance(sh, snd, AccountAt(sh, snd).balance - q);
      forall x: Asset
        ensures Shift(sh, r.value.shard, x, snd, OfBase(x, -q), dst, OfBase(x, Arriving(h, dst, q)))
      {
        PutBalanceShift(sh, snd, -q, x);
        ShiftOne(sh, debited, x, snd, OfBase(x, -q), dst);
        if Here(h, dst) {
          PutBalanceShift(debited, dst, q, x);
          ShiftOne(debited, r.value.shard, x, dst, OfBase(x, q), snd);
          ShiftThen(sh, debited, r.value.shard, x, snd, OfBase(x, -q), 0, dst, 0, OfBase(x, q));
        }
      }
    }
  }

  ghost predicate MovedList(h: Host, before: Shard, after: Shard, snd: Address, dst: Address,
                            list: seq<Wire.Transfer>) {
    NonNegative(before) ==>
      && NonNegative(after)
      && forall x: Asset :: Shift(before, after, x, snd, -(Listed(list, x) as int), dst, Arriving(h, dst, Listed(list, x)))
  }

  lemma SendMultiEffects(h: Host, sh: Shard, snd: Address, dst: Address, list: seq<Wire.Transfer>, rwe: bool)
    ensures var r := SendMulti(h, sh, snd, dst, list, rwe);
            && (r.Ok? ==>
                  && MovedList(h, sh, r.value.shard, snd, dst, list)
                  && (NonNegative(sh) ==>
                        forall x: Asset ::
                          Carried(MultiMessage, r.value.items, x) == if Here(h, dst) then 0 else Listed(list, x)))
            && (Here(h, snd) && AllWellNamed(h, dst, list) ==>
                  KeepsTotals(h, sh, ShardOf(r, if r.Ok? then r.value.shard else sh)))
  {
    hide SendAll, BuildItems, Shift, NonNegative, AllCovered, AllWellNamed, Carry;
    var r := SendMulti(h, sh, snd, dst, list, rwe);
    if r.Ok? && NonNegative(sh) {
      var sent := SendAll(h, sh, snd, dst, list, rwe).value;
      forall x: Asset
        ensures Shift(sh, r.value.shard, x, snd, -(Listed(list, x) as int), dst, Arriving(h, dst, Listed(list, x)))
        ensures NonNegative(r.value.shard)
        ensures Carried(MultiMessage, r.value.items, x) == if Here(h, dst) then 0 else Listed(list, x)
      {
        SendAllShift(h, sh, snd, dst, list, rwe, x);
        if !Here(h, dst) {
          BuildItemsCarries(h, sent.shard, dst, list, sent.tokens, x);
          SameHoldings(sent.shard, r.value.shard);
          SameShift(sh, sent.shard, r.value.shard, x, snd, -(Listed(list, x) as int), dst);
        }
      }
      assert Carried(MultiMessage, r.value.items, Base) == if Here(h, dst) then 0 else Listed(list, Base);
    }
    if Config(h.env.flags) && AllCovered(sh) && Here(h, snd) && AllWellNamed(h, dst, list) {
      SendMultiCovers(h, sh, snd, dst, list, rwe);
    }
  }

  lemma BuildEffects(h: Host, sh: Shard, dst: Address, list: seq<Wire.Transfer>, tokens: seq<Token>)
    requires |tokens| == |list|
    ensures var r := BuildItems(h, sh, dst, list, tokens);
            r.Ok? && Carry(tokens, list) ==>
              && r.value.shard.accounts == sh.accounts
              && forall x: Asset :: Carried(MultiMessage, r.value.items, x) == Listed(list, x)
  {
    hide BuildItems, Carry;
    var r := BuildItems(h, sh, dst, list, tokens);
    if r.Ok? && Carry(tokens, list) {
      forall x: Asset ensures Carried(MultiMessage, r.value.items, x) == Listed(list, x) {
        BuildItemsCarries(h, sh, dst, list, tokens, x);
      }
      BuildItemsCarries(h, sh, dst, list, tokens, Base);
    }
  }

  lemma SameShift(before: Shard, mid: Shard, after: Shard, x: Asset, p: Address, u: int, q: Address)
    requires Shift(before, mid, x, p, u, q, 0) && mid.accounts == after.accounts
    ensures Shift(before, after, x, p, u, q, 0)
  {
    SameHoldings(mid, after);
  }

  ghost predicate Credited(before: Shard, after: Shard, dst: Address, items: seq<Wire.Received>) {
    NonNegative(before) ==>
      NonNegative(after) && forall x: Asset :: Shift(before, after, x, dst, Carried(MultiMessage, items, x), dst, 0)
  }

  lemma ReceiveMultiEffects(h: Host, sh: Shard, snd: Address, dst: Address, items: seq<Wire.Received>, rwe: bool)
    requires ItemsNonNegative(items)
    ensures var r := ReceiveMulti(h, sh, snd, dst, items, rwe);
            && (r.Ok? ==> Credited(sh, r.value, dst, items))
            && (h.shardOf(snd) != h.shardOf(dst) && GoodItems(MultiMessage, items) ==> KeepsTotals(h, sh, r))
  {
    hide ReceiveAll, Shift, NonNegative, AllCovered, GoodItems, ItemsNonNegative, Carried;
    var r := ReceiveMulti(h, sh, snd, dst, items, rwe);
    if r.Ok? && NonNegative(sh) {
      forall x: Asset
        ensures Shift(sh, r.value, x, dst, Carried(MultiMessage, items, x), dst, 0)
        ensures NonNegative(r.value)
      {
        ReceiveAllShift(h, sh, snd, dst, items, rwe, x);
      }
      assert Shift(sh, r.value, Base, dst, Carried(MultiMessage, items, Base), dst, 0);
    }
    if Config(h.env.flags) && AllCovered(sh) && h.shardOf(snd) != h.shardOf(dst) && GoodItems(MultiMessage, items) {
      ReceiveAllCovers(h, sh, snd, dst, items, rwe);
    }
  }

  lemma SendFungibleEffects(h: Host, sh: Shard, snd: Address, dst: Address, id: bytes, value: nat, rwe: bool)
    ensures var r := SendFungible(h, sh, snd, dst, id, value, rwe);
            && (r.Ok? ==>
                  && Moved(sh, r.value.shard, id, snd, -(value as int), dst, Arriving(h, dst, value))
                  && (if Here(h, dst) then r.value.items == [] else CarriesOne(r.value.items, Key(id, 0), value)))
            && KeepsTotals(h, sh, ShardOf(r, if r.Ok? then r.value.shard else sh))
  {
    hide AddToBalance, Shift, NonNegative, AllCovered;
    var r, d := SendFungible(h, sh, snd, dst, id, value, rwe), -(value as int);
    if r.Ok? {
      BalanceEffects(h, sh, snd, id, d, rwe);
      var mid := AddToBalance(h.env, sh, snd, id, d, rwe).value;
      if Here(h, dst) {
        BalanceEffects(h, mid, dst, id, value, rwe);
        MovedThen(sh, mid, r.value.shard, id, snd, d, dst, value);
      } else {
        MovedOne(sh, mid, id, snd, d, dst);
      }
    }
    if AllCovered(sh) {
      SendFungibleCovers(h, sh, snd, dst, id, value, rwe);
    }
  }

  lemma MovedOne(before: Shard, after: Shard, id: bytes, p: Address, u: int, q: Address)
    requires Moved(before, after, id, p, u, p, 0)
    ensures Moved(before, after, id, p, u, q, 0) && Moved(before, after, id, q, 0, p, u)
  {
    hide NonNegative, Shift;
    if NonNegative(before) {
      forall x: Asset
        ensures Shift(before, after, x, p, Of(id, x, u), q, Of(id, x, 0))
        ensures Shift(before, after, x, q, Of(id, x, 0), p, Of(id, x, u))
      {
        assert Shift(before, after, x, p, Of(id, x, u), p, Of(id, x, 0));
        ShiftOne(before, after, x, p, Of(id, x, u), q);
      }
    }
  }

  lemma MovedThen(s0: Shard, s1: Shard, s2: Shard, id: bytes, p: Address, u: int, q: Address, v: int)
    requires Moved(s0, s1, id, p, u, p, 0) && Moved(s1, s2, id, q, v, q, 0)
    ensures Moved(s0, s2, id, p, u, q, v)
  {
    hide NonNegative, Shift;
    MovedOne(s0, s1, id, p, u, q);
    MovedOne(s1, s2, id, q, v, p);
    if NonNegative(s0) {
      forall x: Asset
        ensures Shift(s0, s2, x, p, Of(id, x, u), q, Of(id, x, v))
      {
        assert Shift(s0, s1, x, p, Of(id, x, u), q, Of(id, x, 0)) && Shift(s1, s2, x, p, Of(id, x, 0), q, Of(id, x, v));
        ShiftThen(s0, s1, s2, x, p, Of(id, x, u), Of(id, x, 0), q, Of(id, x, 0), Of(id, x, v));
      }
    }
  }

  // A save moves the change of the holder's balance, and nothing else.
  lemma SaveEffects(env: Env, sh: Shard, sender: nat, a: Address, k: Key, t: Token, args: SaveArgs, after: Shard)
    requires t.value >= 0 && SaveToken(env, sh, sender, a, k, t, args).Ok?
    requires after.accounts == SaveToken(env, sh, sender, a, k, t, args).value.shard.accounts
    ensures Moved(sh, after, Id(k), a, t.value - Holding(sh, a, Esdt(Id(k))), a, 0)
  {
    hide SaveToken, Shift, NonNegative, Id;
    var saved := SaveToken(env, sh, sender, a, k, t, args).value.shard;
    var u := t.value - Holding(sh, a, Esdt(Id(k)));
    if NonNegative(sh) {
      SaveKeeps(env, sh, sender, a, k, t, args);
      forall x: Asset ensures Shift(sh, saved, x, a, Of(Id(k), x, u), a, Of(Id(k), x, 0)) {
        SaveShift(env, sh, sender, a, k, t, args, x);
      }
    }
    SameMoved(sh, saved, after, Id(k), a, u, a, 0);
  }

  // The holder reads back what was created, of the token's type.
  predicate ReadsNew(env: Env, sh: Shard, a: Address, k: Key, q: nat, meta: MetaData) {
    var read := OnSender(env, sh, a, k);
    && read.Ok? && read.value.value == q && read.value.meta == Some(meta) && read.value.properties == []
    && (if env.flags.dynamicEsdt then env.tokenType(k.token) else Some(NonFungible)) == Some(read.value.kind)
    && SameVersions(read.value.reserved, None)
  }

  // An NFT its creator has none of.
  ghost predicate NewTo(sh: Shard, a: Address, k: Key) {
    k.nonce > 0 && Named(k) && Holding(sh, a, Esdt(Id(k))) == 0
  }

  lemma CreateReads(h: Host, sh: Shard, a: Address, k: Key, q: nat, meta: MetaData, rwe: bool)
    requires k.nonce > 0 && CreateNft(h, sh, a, k, q, meta, rwe).Ok?
    ensures ReadsNew(h.env, CreateNft(h, sh, a, k, q, meta, rwe).value, a, k, q, meta)
  {
    hide SaveToken, AddToLiquidity, OnDestination, Id;
    var kind := if h.env.flags.dynamicEsdt then h.env.tokenType(k.token) else Some(NonFungible);
    var t, args := Token(kind.value, q, Some(meta), [], None), SaveArgs(true, rwe, false);
    var saved := SaveToken(h.env, sh, h.shardOf(a), a, k, t, args).value;
    RewrittenReads(h.env, sh, h.shardOf(a), a, k, t, args);
    SavedEmpty(h.env, sh, h.shardOf(a), a, k, t, args);
    RaisedReads(h.env, saved.shard, a, k, saved.kind, q);
  }

  // A full save starts the total at nothing.
  lemma SavedEmpty(env: Env, sh: Shard, sender: nat, a: Address, k: Key, t: Token, args: SaveArgs)
    requires k.nonce > 0 && t.meta.Some? && args.updateAll && SaveToken(env, sh, sender, a, k, t, args).Ok?
    ensures var saved := SaveToken(env, sh, sender, a, k, t, args).value;
            env.flags.saveToSystemAccount && !MetaDataOnUserAccount(saved.kind) ==>
              SystemAt(saved.shard, Id(k)).Some? && SystemAt(saved.shard, Id(k)).value.value == 0
  {
    hide Id, SaveBlocked;
  }

  // After a create the holder has exactly the quantity created.
  lemma CreateEffects(h: Host, sh: Shard, a: Address, k: Key, q: nat, meta: MetaData, rwe: bool)
    ensures var r := CreateNft(h, sh, a, k, q, meta, rwe);
            && (r.Ok? ==> Moved(sh, r.value, Id(k), a, q - Holding(sh, a, Esdt(Id(k))), a, 0))
            && (r.Ok? && k.nonce > 0 ==> ReadsNew(h.env, r.value, a, k, q, meta))
            && (r.Ok? ==> MayCreate(h, sh, a, k, q, rwe))
            && (Orderly(h, sh, a) && NewTo(sh, a, k) ==> (r.Ok? <==> MayCreate(h, sh, a, k, q, rwe)))
            && (NewTo(sh, a, k) ==> KeepsTotals(h, sh, r))
  {
    hide SaveToken, AddToLiquidity, AllCovered, Id, Keys.IsNft, Moved, ReadsNew, MayCreate;
    var r := CreateNft(h, sh, a, k, q, meta, rwe);
    if r.Ok? {
      CreateNeeds(h, sh, a, k, q, meta, rwe);
    }
    if Orderly(h, sh, a) && NewTo(sh, a, k) {
      CreateIff(h, sh, a, k, q, meta, rwe);
    }
    if r.Ok? && k.nonce > 0 {
      CreateReads(h, sh, a, k, q, meta, rwe);
    }
    if r.Ok? {
      var kind := if h.env.flags.dynamicEsdt then h.env.tokenType(k.token) else Some(NonFungible);
      var t := Token(kind.value, q, Some(meta), [], None);
      var saved := SaveToken(h.env, sh, h.shardOf(a), a, k, t, SaveArgs(true, rwe, false)).value;
      LiquidityKeepsAccounts(h.env, saved.shard, k, saved.kind, q, false);
      SaveEffects(h.env, sh, h.shardOf(a), a, k, t, SaveArgs(true, rwe, false), r.value);
    }
    if NewTo(sh, a, k) && Config(h.env.flags) && AllCovered(sh) {
      CreateCovers(h, sh, a, k, q, meta, rwe);
    }
  }

  lemma AddQuantityEffects(h: Host, sh: Shard, a: Address, k: Key, q: nat, rwe: bool)
    ensures var r := AddQuantity(h, sh, a, k, q, rwe);
            && (r.Ok? && NonNegative(sh) ==> Moved(sh, r.value, Id(k), a, q, a, 0))
            && (Orderly(h, sh, a) && Named(k) ==> (r.Ok? <==> MayAddQuantity(h, sh, a, k, rwe)))
            && (Named(k) ==> KeepsTotals(h, sh, r))
  {
    hide SaveToken, AddToLiquidity, AllCovered, Id, Keys.IsNft, Moved;
    var r := AddQuantity(h, sh, a, k, q, rwe);
    if r.Ok? && NonNegative(sh) {
      var t := OnSender(h.env, sh, a, k).value;
      assert t.value == Holding(sh, a, Esdt(Id(k)));
      var more := t.(value := t.value + q);
      var saved := SaveToken(h.env, sh, h.shardOf(a), a, k, more, SaveArgs(false, rwe, false)).value;
      LiquidityKeepsAccounts(h.env, saved.shard, k, saved.kind, q, false);
      SaveEffects(h.env, sh, h.shardOf(a), a, k, more, SaveArgs(false, rwe, false), r.value);
    }
    if Named(k) && Config(h.env.flags) && AllCovered(sh) {
      AddQuantityIff(h, sh, a, k, q, rwe);
      AddQuantityCovers(h, sh, a, k, q, rwe);
    }
  }

  lemma BurnEffects(h: Host, sh: Shard, a: Address, k: Key, q: nat, rwe: bool)
    ensures var r := BurnNft(h, sh, a, k, q, rwe);
            && (r.Ok? ==> q <= Holding(sh, a, Esdt(Id(k))) && Moved(sh, r.value, Id(k), a, -(q as int), a, 0))
            && (Orderly(h, sh, a) && Named(k) ==> (r.Ok? <==> MayBurn(h, sh, a, k, q, rwe)))
            && (Named(k) ==> KeepsTotals(h, sh, r))
  {
    hide SaveToken, AddToLiquidity, AllCovered, Id, Keys.IsNft, Moved;
    var r := BurnNft(h, sh, a, k, q, rwe);
    if r.Ok? {
      var t := OnSender(h.env, sh, a, k).value;
      assert t.value == Holding(sh, a, Esdt(Id(k)));
      var less := t.(value := t.value - q);
      var saved := SaveToken(h.env, sh, h.shardOf(a), a, k, less, SaveArgs(false, rwe, false)).value;
      LiquidityKeepsAccounts(h.env, saved.shard, k, saved.kind, -(q as int), false);
      SaveEffects(h.env, sh, h.shardOf(a), a, k, less, SaveArgs(false, rwe, false), r.value);
    }
    if Named(k) && Config(h.env.flags) && AllCovered(sh) {
      BurnNftIff(h, sh, a, k, q, rwe);
      BurnNftCovers(h, sh, a, k, q, rwe);
    }
  }

  lemma UpdateEffects(h: Host, sh: Shard, a: Address, k: Key, u: Update, rwe: bool)
    ensures var r := UpdateMetaData(h, sh, a, k, u, rwe);
            && (r.Ok? <==> MayUpdate(h, sh, a, k, u, rwe))
            && (r.Ok? ==> ReadsUpdated(h, sh, r.value, a, k, u))
            && (r.Ok? && NonNegative(sh) ==> Moved(sh, r.value, Id(k), a, 0, a, 0))
            && (Named(k) ==> KeepsTotals(h, sh, r))
  {
    hide SaveToken, AllCovered, Id, Keys.IsNft, Moved, VersionOf, ReadsUpdated, MayUpdate;
    var r, args := UpdateMetaData(h, sh, a, k, u, rwe), SaveArgs(true, rwe, true);
    UpdateIff(h, sh, a, k, u, rwe);
    if r.Ok? {
      var t := OnSender(h.env, sh, a, k).value;
      assert t.value == Holding(sh, a, Esdt(Id(k)));
      var t' :| SaveToken(h.env, sh, h.shardOf(a), a, k, t', args).Ok? && t'.value == t.value
                && r.value == SaveToken(h.env, sh, h.shardOf(a), a, k, t', args).value.shard;
      if NonNegative(sh) {
        SaveEffects(h.env, sh, h.shardOf(a), a, k, t', args, r.value);
      }
      UpdateReads(h, sh, a, k, u, rwe);
    }
    if Named(k) && Config(h.env.flags) && AllCovered(sh) {
      UpdateCovers(h, sh, a, k, u, rwe);
    }
  }

  // Nothing but the frozen bit of one record changes; a record that stays
  // empty is not kept.
  ghost predicate OnlyFrozen(before: Shard, after: Shard, a: Address, id: bytes, frozen: bool) {
    var was, now := FungibleRecord(before, a, id), RecordAt(after, a, id);
    && after == PutRecord(before, a, id, now)
    && (now.Some? ==> now.value == was.(properties := [if frozen then 1 else 0, 0]))
    && (now.None? <==> was.value == 0 && !frozen)
  }

  lemma FreezeEffects(h: Host, sh: Shard, a: Address, id: bytes, frozen: bool)
    ensures var after := SetFrozen(sh, a, id, frozen);
            && FrozenBit(FungibleRecord(after, a, id).properties) == frozen
            && OnlyFrozen(sh, after, a, id, frozen)
            && Moved(sh, after, id, a, 0, a, 0)
            && ((Keys.IsNft(id) ==> RecordAt(sh, a, id).Some?) ==> KeepsTotals(h, sh, Ok(after)))
  {
    hide Shift, AllCovered, Keys.IsNft, NonNegative;
    var t := FungibleRecord(sh, a, id);
    var t' := t.(properties := FrozenProperties(frozen));
    var record := if t'.value == 0 && PropertiesEmpty(t'.properties) then None else Some(t');
    assert FrozenProperties(true)[0] != 0;
    if NonNegative(sh) {
      NonNegativeHolding(sh, a, id);
    }
    RecordEffects(sh, a, id, record);
    if AllCovered(sh) && (Keys.IsNft(id) ==> RecordAt(sh, a, id).Some?) {
      FreezeCovers(sh, a, id, frozen);
    }
  }

  lemma RecordEffects(sh: Shard, a: Address, id: bytes, t: Option<Token>)
    requires NonNegative(sh) ==> ValueOf(t) >= 0
    ensures Moved(sh, PutRecord(sh, a, id, t), id, a, ValueOf(t) - Holding(sh, a, Esdt(id)), a, 0)
  {
    hide Shift, NonNegative;
    if NonNegative(sh) {
      RecordBalanced(sh, a, id, t, Base);
      forall x: Asset
        ensures Shift(sh, PutRecord(sh, a, id, t), x, a, Of(id, x, ValueOf(t) - Holding(sh, a, Esdt(id))), a, Of(id, x, 0))
      {
        PutRecordShift(sh, a, id, t, x);
      }
    }
  }

  lemma WipeEffects(h: Host, sh: Shard, a: Address, id: bytes)
    ensures var r := Wipe(h, sh, a, id);
            && (r.Ok? ==>
                  && FrozenBit(FungibleRecord(sh, a, id).properties) && RecordAt(r.value, a, id).None?
                  && r.value.accounts == PutRecord(sh, a, id, None).accounts
                  && Moved(sh, r.value, id, a, -FungibleRecord(sh, a, id).value, a, 0))
            && (WipeReadsBack(id) ==> KeepsTotals(h, sh, r))
            && (WipeReadsBack(id) && Config(h.env.flags) && AllCovered(sh) && FrozenBit(FungibleRecord(sh, a, id).properties) ==>
                  r.Ok?)
  {
    hide AddToLiquidity, AllCovered, WipeKey, WipeReadsBack, Moved;
    var r := Wipe(h, sh, a, id);
    OnlyLiquidityErrors(h.env, PutRecord(sh, a, id, None), WipeKey(id), FungibleRecord(sh, a, id).kind,
                        -FungibleRecord(sh, a, id).value, false);
    if r.Ok? {
      var t, removed := FungibleRecord(sh, a, id), PutRecord(sh, a, id, None);
      if h.env.flags.wipeLowersLiquidity {
        LiquidityKeepsAccounts(h.env, removed, WipeKey(id), t.kind, -t.value, false);
      }
      RecordEffects(sh, a, id, None);
      SameMoved(sh, removed, r.value, id, a, -t.value, a, 0);
    }
    if WipeReadsBack(id) && Config(h.env.flags) && AllCovered(sh) {
      WipeCovers(h, sh, a, id);
    }
  }

  // ---- results of the methods ----

  function AsSending(r: Result<seq<Wire.Received>>, sh: Shard): Result<Sending> {
    if r.Ok? then Ok(Sending(sh, r.value)) else Fail(r.error)
  }

  function AsTaken(r: Result<Token>, sh: Shard): Result<Taken> {
    if r.Ok? then Ok(Taken(sh, r.value)) else Fail(r.error)
  }

  function AsMarked(r: Result<bool>, sh: Shard): Result<Marked> {
    if r.Ok? then Ok(Marked(r.value, sh)) else Fail(r.error)
  }

  // ---- the functions as they run ----

  class Handler {
    const host: Host
    const store: Storage

    constructor (host: Host, store: Storage)
      ensures this.host == host && this.store == store
    {
      this.host, this.store := host, store;
    }

    ghost predicate Valid()
      reads this
    {
      store.env == host.env
    }

    // ---- balances and arrivals ----

    method SaveFungible(a: Address, id: bytes, t: Token)
      requires Valid()
      modifies store
      ensures store.State() == PutFungible(old(store.State()), a, id, t)
    {
      if t.value == 0 && PropertiesEmpty(t.properties) {
        store.SaveRecord(a, id, None);
        return;
      }
      store.SaveRecord(a, id, Some(t));
    }

    method AddToEsdtBalance(a: Address, id: bytes, delta: int, rwe: bool) returns (r: Result<()>)
      requires Valid()
      modifies store
      ensures r.Ok? <==> MayChange(host.env, old(store.State()), a, id, delta, rwe)
      ensures r.Ok? ==> Moved(old(store.State()), store.State(), id, a, delta, a, 0)
      ensures r.Ok? ==> OnlyAmount(old(store.State()), store.State(), a, id)
      ensures r.Fail? ==> store.State() == old(store.State())
      ensures (Keys.IsNft(id) ==> delta <= 0) ==> KeepsTotals(host, old(store.State()), ShardOf(r, store.State()))
      ensures ShardOf(r, store.State()) == AddToBalance(host.env, old(store.State()), a, id, delta, rwe)
    {
      hide Moved, KeepsTotals, OnlyAmount, MayChange;
      BalanceEffects(host, store.State(), a, id, delta, rwe);
      var stored := store.RetrieveRecord(a, id);
      var t := if stored.None? then NOTHING else stored.value;
      if t.kind != Fungible {
        return Fail(OnlyFungible);
      }
      var blocked := FreezeAndPause(host.env, a, id, t, rwe);
      if blocked.Some? {
        return Fail(blocked.value);
      }
      t := t.(value := t.value + delta);
      if t.value < 0 {
        return Fail(InsufficientFunds);
      }
      SaveFungible(a, id, t);
      r := Ok(());
    }

    method LatestMetaData(k: Key, cur: Token, isNew: bool, t: Token) returns (r: Option<Token>)
      requires Valid()
      ensures r == MergedToken(host, Known(store.State(), k, Read(cur, isNew), t.kind), t)
    {
      hide MergedInto, Id;
      var current := new TokenData(cur);
      var transfer := new TokenData(t);
      if isNew && !MetaDataOnUserAccount(transfer.kind) && Id(k) in store.system {
        current.meta, current.reserved := store.system[Id(k)].meta, store.system[Id(k)].reserved;
      }
      var merged := MergeEsdtData(host.vc, host.env.flags.dynamicEsdt, current, transfer);
      if !merged {
        return None;
      }
      r := Some(transfer.Snapshot());
    }

    method AddNftToDestination(snd: Address, dst: Address, k: Key, t: Token, rwe: bool) returns (r: Result<()>)
      requires Valid()
      modifies store
      ensures r.Ok? && t.value >= 0 ==> Moved(old(store.State()), store.State(), Id(k), dst, t.value, dst, 0)
      ensures Arrives(host, snd, dst, k, t) ==> KeepsTotals(host, old(store.State()), ShardOf(r, store.State()))
      ensures r.Ok? && WithMetaData(host, old(store.State()), dst, k, t) ==>
                ArrivalReads(host, old(store.State()), store.State(), dst, k, t)
      ensures r.Ok? ==> MayArrive(host.env, old(store.State()), dst, k, t.properties, rwe)
      ensures ShardOf(r, store.State()) == AddNft(host, old(store.State()), snd, dst, k, t, rwe)
    {
      hide SaveToken, AddToLiquidity, MergedToken, Known, OnDestination, Moved, KeepsTotals, Named, GoodToken, Id,
           ArrivalReads, MayArrive, LawfulVersions, InOrder;
      if t.value >= 0 {
        ArrivalEffects(host, store.State(), snd, dst, k, t, rwe);
      }
      ghost var spec := AddNft(host, store.State(), snd, dst, k, t, rwe);
      if spec.Ok? {
        ArrivalNeeds(host, store.State(), snd, dst, k, t, rwe);
      }
      var cur, isNew := store.GetTokenOnDestination(dst, k);
      var blocked := FreezeAndPause(host.env, dst, k.token, cur, rwe);
      if blocked.Some? {
        return Fail(blocked.value);
      }
      var transferValue := t.value;
      var latest := LatestMetaData(k, cur, isNew, t.(value := t.value + cur.value));
      if latest.None? {
        return Fail(BadMetaData);
      }
      var kind :- store.Save(host.shardOf(snd), dst, k, latest.value, SaveArgs(false, rwe, false));
      if host.shardOf(snd) != host.shardOf(dst) {
        var error := store.AddToLiquiditySystemAccount(k, kind, transferValue, false);
        if error.Some? {
          return Fail(error.value);
        }
      }
      r := Ok(());
    }

    method HandOverToken(snd: Address, dst: Address, k: Key, t: Token, rwe: bool) returns (r: Result<()>)
      requires Valid()
      modifies store
      ensures r.Ok? && t.value >= 0 ==>
                Moved(old(store.State()), store.State(), Id(k), dst, Arriving(host, dst, t.value), dst, 0)
      ensures ShardOf(r, store.State()) == HandOver(host, old(store.State()), snd, dst, k, t, rwe)
    {
      hide AddNft, AddToLiquidity, Moved, Id;
      ghost var spec := HandOver(host, store.State(), snd, dst, k, t, rwe);
      if t.value >= 0 && spec.Ok? {
        HandOverEffects(host, store.State(), snd, dst, k, t, rwe);
      }
      if Here(host, dst) {
        r := AddNftToDestination(snd, dst, k, t, rwe);
        return;
      }
      var keep := KeepsMetaData(host, snd, k.token, t.kind);
      var error := store.AddToLiquiditySystemAccount(k, t.kind, -t.value, keep);
      r := if error.Some? then Fail(error.value) else Ok(());
    }

    method WasAlreadySent(k: Key, dst: Address) returns (r: Result<bool>)
      requires Valid()
      modifies store
      ensures r.Fail? ==> host.shardOf(dst) >= host.env.shards && !Here(host, dst)
      ensures r.Ok? ==> Remembers(host, old(store.State()), store.State(), k, dst)
      ensures AsMarked(r, store.State()) == MarkSent(host, old(store.State()), k, dst)
    {
      hide Remembers;
      MarkIsRemembered(host, store.State(), k, dst);
      QueryIff(host, store.State(), k, dst);
      if !host.env.flags.saveToSystemAccount {
        return Ok(false);
      }
      if k.nonce == 0 || Here(host, dst) {
        return Ok(true);
      }
      if host.env.flags.sendAlways {
        return Ok(false);
      }
      var d := host.shardOf(dst);
      if d == METACHAIN {
        return Ok(true);
      }
      if Id(k) !in store.system {
        return Ok(false);
      }
      var t := store.system[Id(k)];
      t := t.(properties := Padded(host, t.properties));
      if d >= |t.properties| {
        return Fail(InvalidArguments);
      }
      if t.properties[d] > 0 {
        return Ok(true);
      }
      store.SaveSystem(Id(k), Some(t.(properties := t.properties[d := 1])));
      r := Ok(false);
    }

    // ---- transfers ----

    method NftTransferOnSenderShard(snd: Address, dst: Address, k: Key, q: nat, rwe: bool)
      returns (r: Result<seq<Wire.Received>>)
      requires Valid()
      modifies store
      ensures r.Ok? ==>
                && Moved(old(store.State()), store.State(), Id(k), snd, -(q as int), dst, Arriving(host, dst, q))
                && (if Here(host, dst) then r.value == [] else CarriesOne(r.value, k, q))
                && (Here(host, snd) && !Here(host, dst) ==>
                      CarriesToken(host, old(store.State()), snd, dst, k, q, r.value[0].data))
                && MaySendNft(host, old(store.State()), snd, dst, k, q, rwe)
      ensures Orderly(host, old(store.State()), snd) && Named(k) ==>
                (r.Ok? <==> MaySendNft(host, old(store.State()), snd, dst, k, q, rwe))
      ensures Here(host, snd) && Named(k) ==> KeepsTotals(host, old(store.State()), ShardOf(r, store.State()))
      ensures AsSending(r, store.State()) == SendNft(host, old(store.State()), snd, dst, k, q, rwe)
    {
      hide SaveToken, OnSender, HandOver, MarkSent, Moved, KeepsTotals, Remembers, CarriesOne, Named, AsItem, Id,
           CarriesToken, MaySendNft, Orderly, ArrivalReads, TransferAllowed;
      SendNftEffects(host, store.State(), snd, dst, k, q, rwe);
      if |dst| != |snd| || dst == snd {
        return Fail(InvalidArguments);
      }
      if host.shardOf(dst) == METACHAIN {
        return Fail(InvalidReceiver);
      }
      var t :- store.GetTokenOnSender(snd, k);
      if k.nonce == 0 {
        return Fail(NoMetadata);
      }
      if t.value < q {
        return Fail(InvalidQuantity);
      }
      if host.env.flags.checkTransfer && q == 0 {
        return Fail(InvalidQuantity);
      }
      t := t.(value := t.value - q);
      var kind :- store.Save(host.shardOf(snd), snd, k, t, SaveArgs(false, rwe, false));
      t := t.(kind := kind, value := q);
      if Here(host, dst) && !host.payable(dst) {
        return Fail(NotPayable);
      }
      var _ :- HandOverToken(snd, dst, k, t, rwe);
      if !TransferAllowed(host, snd, dst, Here(host, dst), k.token, rwe) {
        return Fail(TransferNotAllowed);
      }
      if Here(host, dst) {
        return Ok([]);
      }
      var alreadySent :- WasAlreadySent(k, dst);
      r := Ok([AsItem(k, t, !alreadySent || t.value == 1)]);
    }

    method NftTransferOnDestinationShard(snd: Address, dst: Address, item: Wire.Received,
                                         rwe: bool) returns (r: Result<()>)
      requires Valid()
      modifies store
      ensures var k := Key(item.token, item.nonce);
              && (r.Ok? && item.data.value >= 0 ==>
                    Moved(old(store.State()), store.State(), Id(k), dst, item.data.value, dst, 0))
              && (Arrives(host, snd, dst, k, item.data) ==> KeepsTotals(host, old(store.State()), ShardOf(r, store.State())))
              && (r.Ok? && WithMetaData(host, old(store.State()), dst, k, item.data) ==>
                    ArrivalReads(host, old(store.State()), store.State(), dst, k, item.data))
              && (r.Ok? ==> host.payable(dst) && MayArrive(host.env, old(store.State()), dst, k, item.data.properties, rwe))
      ensures ShardOf(r, store.State()) == ReceiveNft(host, old(store.State()), snd, dst, item, rwe)
    {
      hide AddNft, Moved, AllCovered, Config, Arrives, Id, WithMetaData, ArrivalReads, MayArrive;
      if !host.payable(dst) {
        return Fail(NotPayable);
      }
      r := AddNftToDestination(snd, dst, Key(item.token, item.nonce), item.data, rwe);
    }

    method TransferBaseToken(snd: Address, dst: Address, tr: Wire.Transfer) returns (r: Result<Token>)
      requires Valid()
      modifies store
      ensures snd != dst && r.Ok? ==> BaseMoved(host, old(store.State()), store.State(), snd, dst, tr.value)
      ensures r.Ok? <==> host.env.flags.baseTokenInMultiTransfer && tr.nonce == 0
                         && tr.value <= Holding(old(store.State()), snd, Base)
      ensures AsTaken(r, store.State()) == MoveBaseToken(host, old(store.State()), snd, dst, tr)
    {
      hide BaseMoved, Holding;
      BaseEffects(host, store.State(), snd, dst, tr);
      if !host.env.flags.baseTokenInMultiTransfer {
        return Fail(InsufficientFunds);
      }
      if tr.nonce != 0 {
        return Fail(InvalidNonce);
      }
      var acc := AccountAt(store.State(), snd);
      if acc.balance < tr.value {
        return Fail(InsufficientFunds);
      }
      store.accounts := store.accounts[snd := acc.(balance := acc.balance - tr.value)];
      if Here(host, dst) {
        acc := AccountAt(store.State(), dst);
        store.accounts := store.accounts[dst := acc.(balance := acc.balance + tr.value)];
      }
      r := Ok(NOTHING.(value := tr.value));
    }

    method TransferOneTokenOnSenderShard(snd: Address, dst: Address, tr: Wire.Transfer,
                                         rwe: bool) returns (r: Result<Token>)
      requires Valid()
      modifies store
      ensures snd != dst && r.Ok? ==>
                && MovedAs(host, old(store.State()), store.State(), snd, dst, tr)
                && MaySendOne(host, old(store.State()), snd, dst, tr, rwe)
                && (tr.token != BASE_TOKEN ==>
                      TakenFrom(host.env, old(store.State()), snd, KeyOf(tr), tr.value, r.value))
      ensures Orderly(host, old(store.State()), snd) && snd != dst && WellNamed(host, dst, tr) ==>
                (r.Ok? <==> MaySendOne(host, old(store.State()), snd, dst, tr, rwe))
      ensures snd != dst && Here(host, snd) && WellNamed(host, dst, tr) ==>
                KeepsTotals(host, old(store.State()), ShardOf(r, store.State()))
      ensures AsTaken(r, store.State()) == SendOne(host, old(store.State()), snd, dst, tr, rwe)
    {
      hide SaveToken, OnSender, HandOver, Moved, KeepsTotals, MovedAs, BaseMoved, WellNamed, MoveBaseToken, Id, Holding,
           MaySendOne, TakenFrom, Orderly, TransferAllowed;
      if snd != dst {
        SendOneEffects(host, store.State(), snd, dst, tr, rwe);
      }
      if tr.value == 0 {
        return Fail(InvalidQuantity);
      }
      if tr.token == BASE_TOKEN {
        r := TransferBaseToken(snd, dst, tr);
        return;
      }
      var k := Key(tr.token, tr.nonce);
      var t :- store.GetTokenOnSender(snd, k);
      if t.value < tr.value {
        return Fail(InsufficientFunds);
      }
      t := t.(value := t.value - tr.value);
      var kind :- store.Save(host.shardOf(snd), snd, k, t, SaveArgs(false, rwe, false));
      t := t.(kind := kind, value := tr.value);
      if !TransferAllowed(host, snd, dst, Here(host, dst), tr.token, rwe) {
        return Fail(TransferNotAllowed);
      }
      var _ :- HandOverToken(snd, dst, k, t, rwe);
      r := Ok(t);
    }

    method MultiTransferOnSenderShard(snd: Address, dst: Address, list: seq<Wire.Transfer>, rwe: bool)
      returns (r: Result<seq<Wire.Received>>)
      requires Valid()
      modifies store
      ensures r.Ok? ==>
                && MovedList(host, old(store.State()), store.State(), snd, dst, list)
                && (NonNegative(old(store.State())) ==>
                      forall x: Asset :: Carried(MultiMessage, r.value, x) == if Here(host, dst) then 0 else Listed(list, x))
      ensures r.Ok? ==>
                && |dst| == |snd| && dst != snd && host.shardOf(dst) != METACHAIN && |list| > 0
                && (Here(host, dst) ==> host.payable(dst))
                && (!rwe && snd != host.env.esdtAddress ==> NonePaused(host.env, list))
      ensures Here(host, snd) && AllWellNamed(host, dst, list) ==>
                KeepsTotals(host, old(store.State()), ShardOf(r, store.State()))
      ensures AsSending(r, store.State()) == SendMulti(host, old(store.State()), snd, dst, list, rwe)
    {
      hide SendOne, BuildItems, MovedAs, MovedList, KeepsTotals, WellNamed, AllWellNamed, NonNegative, Carried, Listed,
           NonePaused, MaySendOne, TakenFrom, Orderly, CarriesTokens, Carry;
      SendMultiEffects(host, store.State(), snd, dst, list, rwe);
      ghost var spec := SendMulti(host, store.State(), snd, dst, list, rwe);
      if spec.Ok? {
        SendMultiNeeds(host, store.State(), snd, dst, list, rwe);
        if !rwe && snd != host.env.esdtAddress {
          SentUnpaused(host, store.State(), snd, dst, list, rwe);
        }
      }
      if |dst| != |snd| || dst == snd {
        return Fail(InvalidArguments);
      }
      if host.shardOf(dst) == METACHAIN {
        return Fail(InvalidReceiver);
      }
      if |list| == 0 {
        return Fail(InvalidArguments);
      }
      if Here(host, dst) && !host.payable(dst) {
        return Fail(NotPayable);
      }
      ghost var before := store.State();
      var tokens: seq<Token> := [];
      var i := 0;
      while i < |list|
        invariant 0 <= i <= |list|
        invariant SendAll(host, before, snd, dst, list[..i], rwe) == Ok(TakenAll(store.State(), tokens))
      {
        var taken := TransferOneTokenOnSenderShard(snd, dst, list[i], rwe);
        assert list[..i + 1][..i] == list[..i];
        if taken.Fail? {
          SendAllPrefix(host, before, snd, dst, list, i + 1, rwe);
          return Fail(taken.error);
        }
        tokens := tokens + [taken.value];
        i := i + 1;
      }
      assert list[..i] == list;
      if Here(host, dst) {
        return Ok([]);
      }
      r := CreateOutputTransfers(dst, list, tokens);
    }

    method CreateOutputTransfers(dst: Address, list: seq<Wire.Transfer>, tokens: seq<Token>)
      returns (r: Result<seq<Wire.Received>>)
      requires Valid() && |tokens| == |list|
      modifies store
      ensures r.Ok? && !Here(host, dst) ==> CarriesTokens(host, old(store.State()), dst, list, tokens, r.value)
      ensures r.Ok? && Carry(tokens, list) ==>
                && store.accounts == old(store.accounts)
                && forall x: Asset :: Carried(MultiMessage, r.value, x) == Listed(list, x)
      ensures AsSending(r, store.State()) == BuildItems(host, old(store.State()), dst, list, tokens)
    {
      hide MarkSent, Remembers, Carry, Carried, Listed, CarriesTokens;
      ghost var before := store.State();
      BuildEffects(host, before, dst, list, tokens);
      ghost var spec := BuildItems(host, before, dst, list, tokens);
      if spec.Ok? && !Here(host, dst) {
        ItemsCarry(host, before, dst, list, tokens);
      }
      var items: seq<Wire.Received> := [];
      var i := 0;
      while i < |list|
        invariant 0 <= i <= |list|
        invariant BuildItems(host, before, dst, list[..i], tokens[..i]) == Ok(Sending(store.State(), items))
      {
        var tr := list[i];
        assert list[..i + 1][..i] == list[..i] && tokens[..i + 1][..i] == tokens[..i];
        var alreadySent := true;
        if tr.nonce > 0 {
          var sent := WasAlreadySent(Key(tr.token, tr.nonce), dst);
          if sent.Fail? {
            BuildItemsPrefix(host, before, dst, list, tokens, i + 1);
            return Fail(sent.error);
          }
          alreadySent := sent.value;
        }
        items := items + [Wire.AsReceived(Wire.Sent(tr, tokens[i], alreadySent))];
        i := i + 1;
      }
      assert list[..i] == list && tokens[..i] == tokens;
      r := Ok(items);
    }

    method ReceiveToken(snd: Address, dst: Address, item: Wire.Received, rwe: bool) returns (r: Result<()>)
      requires Valid()
      modifies store
      ensures var k := Key(item.token, item.nonce);
              r.Ok? && item.nonce > 0 ==>
                && (WithMetaData(host, old(store.State()), dst, k, item.data) ==>
                      ArrivalReads(host, old(store.State()), store.State(), dst, k, item.data))
                && MayArrive(host.env, old(store.State()), dst, k, item.data.properties, rwe)
      ensures ShardOf(r, store.State()) == ReceiveOne(host, old(store.State()), snd, dst, item, rwe)
    {
      hide AddNft, AddToBalance, Moved, KeepsTotals, Arrives, Id, WithMetaData, ArrivalReads, MayArrive, MayChange, OnlyAmount;
      if item.nonce > 0 {
        r := AddNftToDestination(snd, dst, Key(item.token, item.nonce), item.data, rwe);
      } else if item.token == BASE_TOKEN {
        var acc := AccountAt(store.State(), dst);
        store.accounts := store.accounts[dst := acc.(balance := acc.balance + item.data.value)];
        r := Ok(());
      } else {
        r := AddToEsdtBalance(dst, item.token, item.data.value, rwe);
      }
    }

    method MultiTransferOnDestinationShard(snd: Address, dst: Address, items: seq<Wire.Received>, rwe: bool)
      returns (r: Result<()>)
      requires Valid()
      modifies store
      ensures r.Ok? ==> |items| > 0 && host.payable(dst)
      ensures r.Ok? && ItemsNonNegative(items) ==> Credited(old(store.State()), store.State(), dst, items)
      ensures ItemsNonNegative(items) && GoodItems(MultiMessage, items) && host.shardOf(snd) != host.shardOf(dst) ==>
                KeepsTotals(host, old(store.State()), ShardOf(r, store.State()))
      ensures ShardOf(r, store.State()) == ReceiveMulti(host, old(store.State()), snd, dst, items, rwe)
    {
      hide ReceiveOne, Credited, KeepsTotals, ItemsNonNegative, GoodItems;
      if ItemsNonNegative(items) {
        ReceiveMultiEffects(host, store.State(), snd, dst, items, rwe);
      }
      if |items| == 0 {
        return Fail(InvalidArguments);
      }
      if !host.payable(dst) {
        return Fail(NotPayable);
      }
      ghost var before := store.State();
      var i := 0;
      while i < |items|
        invariant 0 <= i <= |items|
        invariant ReceiveAll(host, before, snd, dst, items[..i], rwe) == Ok(store.State())
      {
        var received := ReceiveToken(snd, dst, items[i], rwe);
        assert items[..i + 1][..i] == items[..i];
        if received.Fail? {
          ReceiveAllPrefix(host, before, snd, dst, items, i + 1, rwe);
          return Fail(received.error);
        }
        i := i + 1;
      }
      assert items[..i] == items;
      r := Ok(());
    }

    method EsdtTransferOnSenderShard(snd: Address, dst: Address, id: bytes, value: nat, rwe: bool)
      returns (r: Result<seq<Wire.Received>>)
      requires Valid()
      modifies store
      ensures r.Ok? ==>
                && Moved(old(store.State()), store.State(), id, snd, -(value as int), dst, Arriving(host, dst, value))
                && (if Here(host, dst) then r.value == [] else CarriesOne(r.value, Key(id, 0), value))
      ensures Holding(old(store.State()), dst, Esdt(id)) >= 0 ==>
                (r.Ok? <==> MaySendFungible(host, old(store.State()), snd, dst, id, value, rwe))
      ensures KeepsTotals(host, old(store.State()), ShardOf(r, store.State()))
      ensures AsSending(r, store.State()) == SendFungible(host, old(store.State()), snd, dst, id, value, rwe)
    {
      hide AddToBalance, Moved, KeepsTotals, CarriesOne, Keys.IsNft, MaySendFungible, MayChange, OnlyAmount, Holding;
      SendFungibleEffects(host, store.State(), snd, dst, id, value, rwe);
      if Holding(store.State(), dst, Esdt(id)) >= 0 {
        SendFungibleIff(host, store.State(), snd, dst, id, value, rwe);
      }
      if host.shardOf(dst) == METACHAIN {
        return Fail(InvalidReceiver);
      }
      if value == 0 {
        return Fail(InvalidQuantity);
      }
      if !TransferAllowed(host, snd, dst, Here(host, dst), id, rwe) {
        return Fail(TransferNotAllowed);
      }
      var _ :- AddToEsdtBalance(snd, id, -(value as int), rwe);
      if !Here(host, dst) {
        return Ok([Wire.Received(id, 0, NOTHING.(value := value))]);
      }
      if !host.payable(dst) {
        return Fail(NotPayable);
      }
      var _ :- AddToEsdtBalance(dst, id, value, rwe);
      r := Ok([]);
    }

    method EsdtTransferOnDestinationShard(dst: Address, item: Wire.Received, rwe: bool) returns (r: Result<()>)
      requires Valid()
      modifies store
      ensures r.Ok? ==> Moved(old(store.State()), store.State(), item.token, dst, item.data.value, dst, 0)
      ensures r.Ok? <==> MayReceiveFungible(host, old(store.State()), dst, item, rwe)
      ensures !Keys.IsNft(item.token) ==> KeepsTotals(host, old(store.State()), ShardOf(r, store.State()))
      ensures ShardOf(r, store.State()) == ReceiveFungible(host, old(store.State()), dst, item, rwe)
    {
      hide AddToBalance, Moved, AllCovered, Config, Keys.IsNft, MayChange, OnlyAmount;
      if item.data.value <= 0 {
        return Fail(InvalidQuantity);
      }
      if !host.payable(dst) {
        return Fail(NotPayable);
      }
      r := AddToEsdtBalance(dst, item.token, item.data.value, rwe);
    }

    // ---- minting and burning ----

    method LocalMintTokens(a: Address, id: bytes, value: nat, rwe: bool) returns (r: Result<()>)
      requires Valid()
      modifies store
      ensures r.Ok? <==> value > 0 && host.hasRole(a, id, LocalMint) && MayChange(host.env, old(store.State()), a, id, value, rwe)
      ensures r.Ok? ==> Moved(old(store.State()), store.State(), id, a, value, a, 0)
      ensures !Keys.IsNft(id) ==> KeepsTotals(host, old(store.State()), ShardOf(r, store.State()))
      ensures ShardOf(r, store.State()) == Mint(host, old(store.State()), a, id, value, rwe)
    {
      hide AddToBalance, Moved, AllCovered, Config, Keys.IsNft, MayChange, OnlyAmount;
      if value == 0 {
        return Fail(NegativeValue);
      }
      if !host.hasRole(a, id, LocalMint) {
        return Fail(NotAllowed);
      }
      r := AddToEsdtBalance(a, id, value, rwe);
    }

    method LocalBurnTokens(a: Address, id: bytes, value: nat, rwe: bool) returns (r: Result<()>)
      requires Valid()
      modifies store
      ensures r.Ok? <==> value > 0 && (host.burnForAll(id) || host.hasRole(a, id, LocalBurn))
                         && MayChange(host.env, old(store.State()), a, id, -(value as int), rwe)
      ensures r.Ok? ==> Moved(old(store.State()), store.State(), id, a, -(value as int), a, 0)
      ensures KeepsTotals(host, old(store.State()), ShardOf(r, store.State()))
      ensures ShardOf(r, store.State()) == BurnFungible(host, old(store.State()), a, id, value, rwe)
    {
      hide AddToBalance, Moved, AllCovered, Config, Keys.IsNft, MayChange, OnlyAmount;
      if value == 0 {
        return Fail(NegativeValue);
      }
      if !host.burnForAll(id) && !host.hasRole(a, id, LocalBurn) {
        return Fail(NotAllowed);
      }
      r := AddToEsdtBalance(a, id, -(value as int), rwe);
    }

    method NftCreate(a: Address, k: Key, q: nat, meta: MetaData, rwe: bool) returns (r: Result<()>)
      requires Valid()
      modifies store
      ensures r.Ok? ==>
                Moved(old(store.State()), store.State(), Id(k), a, q - Holding(old(store.State()), a, Esdt(Id(k))), a, 0)
      ensures r.Ok? && k.nonce > 0 ==> ReadsNew(host.env, store.State(), a, k, q, meta)
      ensures r.Ok? ==> MayCreate(host, old(store.State()), a, k, q, rwe)
      ensures Orderly(host, old(store.State()), a) && NewTo(old(store.State()), a, k) ==>
                (r.Ok? <==> MayCreate(host, old(store.State()), a, k, q, rwe))
      ensures NewTo(old(store.State()), a, k) ==>
                KeepsTotals(host, old(store.State()), ShardOf(r, store.State()))
      ensures ShardOf(r, store.State()) == CreateNft(host, old(store.State()), a, k, q, meta, rwe)
    {
      hide SaveToken, AddToLiquidity, Moved, KeepsTotals, ReadsNew, NewTo, MayCreate, Orderly, Holding, Id;
      CreateEffects(host, store.State(), a, k, q, meta, rwe);
      if !host.hasRole(a, k.token, NFTCreate) {
        return Fail(NotAllowed);
      }
      if q == 0 {
        return Fail(InvalidArguments);
      }
      if q > 1 && !host.hasRole(a, k.token, NFTAddQuantity) {
        return Fail(NotAllowed);
      }
      var tokenKind := Some(NonFungible);
      if host.env.flags.dynamicEsdt {
        tokenKind := host.env.tokenType(k.token);
      }
      if tokenKind.None? {
        return Fail(BadTokenType);
      }
      var t := Token(tokenKind.value, q, Some(meta), [], None);
      var kind :- store.Save(host.shardOf(a), a, k, t, SaveArgs(true, rwe, false));
      var error := store.AddToLiquiditySystemAccount(k, kind, q, false);
      r := if error.Some? then Fail(error.value) else Ok(());
    }

    method NftAddQuantity(a: Address, k: Key, q: nat, rwe: bool) returns (r: Result<()>)
      requires Valid()
      modifies store
      ensures r.Ok? && NonNegative(old(store.State())) ==> Moved(old(store.State()), store.State(), Id(k), a, q, a, 0)
      ensures Orderly(host, old(store.State()), a) && Named(k) ==>
                (r.Ok? <==> MayAddQuantity(host, old(store.State()), a, k, rwe))
      ensures Named(k) ==> KeepsTotals(host, old(store.State()), ShardOf(r, store.State()))
      ensures ShardOf(r, store.State()) == AddQuantity(host, old(store.State()), a, k, q, rwe)
    {
      hide SaveToken, AddToLiquidity, OnSender, Moved, KeepsTotals, Named, NonNegative, Id, Orderly, MayAddQuantity;
      AddQuantityEffects(host, store.State(), a, k, q, rwe);
      if !host.hasRole(a, k.token, NFTAddQuantity) {
        return Fail(NotAllowed);
      }
      var t :- store.GetTokenOnSender(a, k);
      if k.nonce == 0 {
        return Fail(NoMetadata);
      }
      t := t.(value := t.value + q);
      var kind :- store.Save(host.shardOf(a), a, k, t, SaveArgs(false, rwe, false));
      var error := store.AddToLiquiditySystemAccount(k, kind, q, false);
      r := if error.Some? then Fail(error.value) else Ok(());
    }

    method NftBurn(a: Address, k: Key, q: nat, rwe: bool) returns (r: Result<()>)
      requires Valid()
      modifies store
      ensures r.Ok? ==>
                && q <= Holding(old(store.State()), a, Esdt(Id(k)))
                && Moved(old(store.State()), store.State(), Id(k), a, -(q as int), a, 0)
      ensures Orderly(host, old(store.State()), a) && Named(k) ==>
                (r.Ok? <==> MayBurn(host, old(store.State()), a, k, q, rwe))
      ensures Named(k) ==> KeepsTotals(host, old(store.State()), ShardOf(r, store.State()))
      ensures ShardOf(r, store.State()) == BurnNft(host, old(store.State()), a, k, q, rwe)
    {
      hide SaveToken, AddToLiquidity, OnSender, Moved, KeepsTotals, Named, Holding, Id, Orderly, MayBurn;
      BurnEffects(host, store.State(), a, k, q, rwe);
      if !host.burnForAll(k.token) && !host.hasRole(a, k.token, NFTBurn) {
        return Fail(NotAllowed);
      }
      var t :- store.GetTokenOnSender(a, k);
      if k.nonce == 0 {
        return Fail(NoMetadata);
      }
      if t.value < q {
        return Fail(InvalidQuantity);
      }
      t := t.(value := t.value - q);
      var kind :- store.Save(host.shardOf(a), a, k, t, SaveArgs(false, rwe, false));
      var error := store.AddToLiquiditySystemAccount(k, kind, -(q as int), false);
      r := if error.Some? then Fail(error.value) else Ok(());
    }

    // ---- metadata, freezing and wiping ----

    method NftAddUris(a: Address, k: Key, uris: seq<bytes>, rwe: bool) returns (r: Result<()>)
      requires Valid()
      modifies store
      ensures r.Ok? <==> MayUpdate(host, old(store.State()), a, k, AddUris(uris), rwe)
      ensures r.Ok? ==> ReadsUpdated(host, old(store.State()), store.State(), a, k, AddUris(uris))
      ensures r.Ok? && NonNegative(old(store.State())) ==> Moved(old(store.State()), store.State(), Id(k), a, 0, a, 0)
      ensures Named(k) ==> KeepsTotals(host, old(store.State()), ShardOf(r, store.State()))
      ensures ShardOf(r, store.State()) == UpdateMetaData(host, old(store.State()), a, k, AddUris(uris), rwe)
    {
      hide SaveToken, OnSender, VersionOf, ReadsUpdated, MayUpdate, Moved, KeepsTotals, Named, NonNegative, Id;
      UpdateEffects(host, store.State(), a, k, AddUris(uris), rwe);
      if !host.hasRole(a, k.token, NFTAddURI) {
        return Fail(NotAllowed);
      }
      if k.nonce == 0 {
        return Fail(NoMetadata);
      }
      var t :- store.GetTokenOnSender(a, k);
      var v := VersionOf(host.vc, host.env.flags.dynamicEsdt, t.reserved);
      if v.None? || t.meta.None? {
        return Fail(BadMetaData);
      }
      t := t.(meta := Some(t.meta.value.(uris := t.meta.value.uris + uris)));
      if host.env.flags.dynamicEsdt {
        t := t.(reserved := Some(host.vc.marshal(v.value.versions.(uris := host.round))));
      }
      var _ :- store.Save(host.shardOf(a), a, k, t, SaveArgs(true, rwe, true));
      r := Ok(());
    }

    method NftUpdateAttributes(a: Address, k: Key, attributes: bytes, rwe: bool) returns (r: Result<()>)
      requires Valid()
      modifies store
      ensures r.Ok? <==> MayUpdate(host, old(store.State()), a, k, SetAttributes(attributes), rwe)
      ensures r.Ok? ==> ReadsUpdated(host, old(store.State()), store.State(), a, k, SetAttributes(attributes))
      ensures r.Ok? && NonNegative(old(store.State())) ==> Moved(old(store.State()), store.State(), Id(k), a, 0, a, 0)
      ensures Named(k) ==> KeepsTotals(host, old(store.State()), ShardOf(r, store.State()))
      ensures ShardOf(r, store.State()) == UpdateMetaData(host, old(store.State()), a, k, SetAttributes(attributes), rwe)
    {
      hide SaveToken, OnSender, VersionOf, ReadsUpdated, MayUpdate, Moved, KeepsTotals, Named, NonNegative, Id;
      UpdateEffects(host, store.State(), a, k, SetAttributes(attributes), rwe);
      if !host.hasRole(a, k.token, NFTUpdateAttributes) {
        return Fail(NotAllowed);
      }
      if k.nonce == 0 {
        return Fail(NoMetadata);
      }
      var t :- store.GetTokenOnSender(a, k);
      var v := VersionOf(host.vc, host.env.flags.dynamicEsdt, t.reserved);
      if v.None? || t.meta.None? {
        return Fail(BadMetaData);
      }
      t := t.(meta := Some(t.meta.value.(attributes := attributes)));
      if host.env.flags.dynamicEsdt {
        t := t.(reserved := Some(host.vc.marshal(v.value.versions.(attributes := host.round))));
      }
      var _ :- store.Save(host.shardOf(a), a, k, t, SaveArgs(true, rwe, true));
      r := Ok(());
    }

    method ToggleFreeze(a: Address, id: bytes, frozen: bool)
      requires Valid()
      modifies store
      ensures FrozenBit(FungibleRecord(store.State(), a, id).properties) == frozen
      ensures OnlyFrozen(old(store.State()), store.State(), a, id, frozen)
      ensures Moved(old(store.State()), store.State(), id, a, 0, a, 0)
      ensures (Keys.IsNft(id) ==> RecordAt(old(store.State()), a, id).Some?) ==>
                KeepsTotals(host, old(store.State()), Ok(store.State()))
      ensures store.State() == SetFrozen(old(store.State()), a, id, frozen)
    {
      hide Moved, KeepsTotals, FrozenBit, OnlyFrozen, Keys.IsNft;
      FreezeEffects(host, store.State(), a, id, frozen);
      var stored := store.RetrieveRecord(a, id);
      var t := if stored.None? then NOTHING else stored.value;
      t := t.(properties := FrozenProperties(frozen));
      SaveFungible(a, id, t);
    }

    // The amount wiped is returned for the log.
    method WipeIfApplicable(a: Address, id: bytes) returns (r: Result<int>)
      requires Valid()
      modifies store
      ensures r.Ok? ==>
                && FrozenBit(FungibleRecord(old(store.State()), a, id).properties)
                && store.accounts == PutRecord(old(store.State()), a, id, None).accounts
                && r.value == Holding(old(store.State()), a, Esdt(id)) && RecordAt(store.State(), a, id).None?
                && Moved(old(store.State()), store.State(), id, a, -r.value, a, 0)
      ensures WipeReadsBack(id) ==> KeepsTotals(host, old(store.State()), ShardOf(r, store.State()))
      ensures WipeReadsBack(id) && Config(host.env.flags) && AllCovered(old(store.State())) ==>
                (r.Ok? <==> FrozenBit(FungibleRecord(old(store.State()), a, id).properties))
      ensures ShardOf(r, store.State()) == Wipe(host, old(store.State()), a, id)
    {
      hide AddToLiquidity, Moved, KeepsTotals, WipeReadsBack, WipeKey, Config, AllCovered;
      WipeEffects(host, store.State(), a, id);
      var stored := store.RetrieveRecord(a, id);
      var t := if stored.None? then NOTHING else stored.value;
      if !Frozen(t.properties) {
        return Fail(NotFrozen);
      }
      store.SaveRecord(a, id, None);
      if host.env.flags.wipeLowersLiquidity {
        var target := WipeKey(id);
        var error := store.AddToLiquiditySystemAccount(target, t.kind, -t.value, false);
        if error.Some? {
          return Fail(error.value);
        }
      }
      r := Ok(t.value);
    }
  }
}
