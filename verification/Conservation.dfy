// No step creates or loses tokens: for every asset, what all accounts of all
// shards hold plus what is in flight is what was minted less what was burned
// and wiped.
module Conservation {
  import opened Bytes
  import opened Tokens
  import opened EsdtStorage
  import opened MetaDataMerge
  import opened Ledger
  import opened Network
  import Wire = TransferWire

  // ---- what one account holds, and one shard in all ----

  function Holding(sh: Shard, a: Address, x: Asset): int {
    match x
    case Base => AccountAt(sh, a).balance
    case Esdt(id) => FungibleRecord(sh, a, id).value
  }

  ghost function SumOver(s: set<Address>, sh: Shard, x: Asset): int
    decreases |s|
  {
    if s == {} then 0
    else
      var a :| a in s;
      Holding(sh, a, x) + SumOver(s - {a}, sh, x)
  }

  ghost function ShardTotal(sh: Shard, x: Asset): int {
    SumOver(sh.accounts.Keys, sh, x)
  }

  ghost predicate NonNegative(sh: Shard) {
    forall a: Address, id: bytes :: Holding(sh, a, Esdt(id)) >= 0
  }

  function At(b: Address, p: Address, u: int): int {
    if b == p then u else 0
  }

  // Of asset x, account p has u more and account q has v more, and no other
  // account has more or less.
  ghost predicate Shift(before: Shard, after: Shard, x: Asset, p: Address, u: int, q: Address, v: int) {
    forall b :: Holding(after, b, x) == Holding(before, b, x) + At(b, p, u) + At(b, q, v)
  }

  lemma {:induction false} SumPick(s: set<Address>, sh: Shard, x: Asset, a: Address)
    requires a in s
    ensures SumOver(s, sh, x) == Holding(sh, a, x) + SumOver(s - {a}, sh, x)
    decreases |s|
  {
    var b :| b in s && SumOver(s, sh, x) == Holding(sh, b, x) + SumOver(s - {b}, sh, x);
    if b != a {
      SumPick(s - {b}, sh, x, a);
      SumPick(s - {a}, sh, x, b);
      assert s - {b} - {a} == s - {a} - {b};
    }
  }

  lemma {:induction false} SumShift(s: set<Address>, before: Shard, after: Shard, x: Asset, p: Address, u: int,
                                    q: Address, v: int)
    requires Shift(before, after, x, p, u, q, v)
    ensures SumOver(s, after, x) == SumOver(s, before, x) + (if p in s then u else 0) + (if q in s then v else 0)
    decreases |s|
  {
    if s != {} {
      var a :| a in s;
      SumPick(s, before, x, a);
      SumPick(s, after, x, a);
      SumShift(s - {a}, before, after, x, p, u, q, v);
    }
  }

  lemma {:induction false} SumExtend(s: set<Address>, t: set<Address>, sh: Shard, x: Asset)
    requires s <= t && forall a :: a in t - s ==> Holding(sh, a, x) == 0
    ensures SumOver(s, sh, x) == SumOver(t, sh, x)
    decreases |t|
  {
    if t - s == {} {
      assert s == t;
    } else {
      var a :| a in t - s;
      SumPick(t, sh, x, a);
      SumExtend(s, t - {a}, sh, x);
    }
  }

  // A shard's total moves by exactly what its accounts gain and lose.
  lemma ShiftTotal(before: Shard, after: Shard, x: Asset, p: Address, u: int, q: Address, v: int)
    requires Shift(before, after, x, p, u, q, v)
    ensures ShardTotal(after, x) == ShardTotal(before, x) + u + v
  {
    var all := before.accounts.Keys + after.accounts.Keys + {p, q};
    SumExtend(before.accounts.Keys, all, before, x);
    SumExtend(after.accounts.Keys, all, after, x);
    SumShift(all, before, after, x, p, u, q, v);
  }

  lemma {:induction false} SumNonNegative(s: set<Address>, sh: Shard, id: bytes)
    requires NonNegative(sh)
    ensures SumOver(s, sh, Esdt(id)) >= 0
    decreases |s|
  {
    if s != {} {
      var a :| a in s;
      SumPick(s, sh, Esdt(id), a);
      SumNonNegative(s - {a}, sh, id);
    }
  }

  lemma HoldingAtMostTotal(sh: Shard, a: Address, id: bytes)
    requires NonNegative(sh)
    ensures 0 <= Holding(sh, a, Esdt(id)) <= ShardTotal(sh, Esdt(id))
  {
    SumNonNegative(sh.accounts.Keys, sh, id);
    if a in sh.accounts {
      SumPick(sh.accounts.Keys, sh, Esdt(id), a);
      SumNonNegative(sh.accounts.Keys - {a}, sh, id);
    }
  }

  // ---- what each operation moves ----

  function Of(id: bytes, x: Asset, amount: int): int {
    if x == Esdt(id) then amount else 0
  }

  function ValueOf(t: Option<Token>): int {
    if t.None? then 0 else t.value.value
  }

  lemma PutRecordShift(sh: Shard, a: Address, id: bytes, t: Option<Token>, x: Asset)
    ensures Shift(sh, PutRecord(sh, a, id, t), x, a, Of(id, x, ValueOf(t) - Holding(sh, a, Esdt(id))), a, 0)
  {
  }

  lemma SaveShift(env: Env, sh: Shard, sender: nat, a: Address, k: Key, t: Token, args: SaveArgs, x: Asset)
    requires t.value >= 0 && SaveToken(env, sh, sender, a, k, t, args).Ok?
    ensures Shift(sh, SaveToken(env, sh, sender, a, k, t, args).value.shard, x,
                  a, Of(Id(k), x, t.value - Holding(sh, a, Esdt(Id(k)))), a, 0)
  {
    var after := SaveToken(env, sh, sender, a, k, t, args).value.shard;
    var kind := SavedKind(env, k, t.kind).value;
    var record := HolderRecord(env, t.(kind := kind), args.keepOnZero);
    assert after.accounts == PutRecord(sh, a, Id(k), record).accounts;
    SameAccounts(PutRecord(sh, a, Id(k), record), after, x);
    PutRecordShift(sh, a, Id(k), record, x);
  }

  lemma SameAccounts(before: Shard, after: Shard, x: Asset)
    requires before.accounts == after.accounts
    ensures forall b :: Holding(after, b, x) == Holding(before, b, x)
  {
  }

  lemma LiquidityKeepsAccounts(env: Env, sh: Shard, k: Key, kind: TokenType, delta: int, keep: bool)
    requires AddToLiquidity(env, sh, k, kind, delta, keep).Ok?
    ensures AddToLiquidity(env, sh, k, kind, delta, keep).value.accounts == sh.accounts
  {
  }

  lemma AddNftShift(h: Host, sh: Shard, snd: Address, dst: Address, k: Key, t: Token, rwe: bool, x: Asset)
    requires NonNegative(sh) && t.value >= 0 && AddNft(h, sh, snd, dst, k, t, rwe).Ok?
    ensures Shift(sh, AddNft(h, sh, snd, dst, k, t, rwe).value, x, dst, Of(Id(k), x, t.value), dst, 0)
  {
    hide SaveToken, AddToLiquidity, MergedToken;
    var cur := OnDestination(h.env, sh, dst, k);
    assert cur.token.value == Holding(sh, dst, Esdt(Id(k)));
    var latest := MergedToken(h, Known(sh, k, cur, t.kind), t.(value := t.value + cur.token.value)).value;
    MergeKeepsValue(h, Known(sh, k, cur, t.kind), t.(value := t.value + cur.token.value));
    SaveShift(h.env, sh, h.shardOf(snd), dst, k, latest, SaveArgs(false, rwe, false), x);
    var saved := SaveToken(h.env, sh, h.shardOf(snd), dst, k, latest, SaveArgs(false, rwe, false)).value;
    if h.shardOf(snd) != h.shardOf(dst) {
      LiquidityKeepsAccounts(h.env, saved.shard, k, saved.kind, t.value, false);
      SameAccounts(saved.shard, AddNft(h, sh, snd, dst, k, t, rwe).value, x);
    }
  }

  lemma MergeKeepsValue(h: Host, known: Token, t: Token)
    requires MergedToken(h, known, t).Some?
    ensures MergedToken(h, known, t).value.value == t.value && MergedToken(h, known, t).value.kind == t.kind
  {
  }

  // A shift that leaves every account of the asset at zero or more.
  lemma ShiftKeepsNonNegative(before: Shard, after: Shard, id: bytes, p: Address, u: int)
    requires NonNegative(before)
    requires forall x :: Shift(before, after, x, p, Of(id, x, u), p, 0)
    requires Holding(before, p, Esdt(id)) + u >= 0
    ensures NonNegative(after)
  {
    forall a: Address, j: bytes
      ensures Holding(after, a, Esdt(j)) >= 0
    {
      assert Shift(before, after, Esdt(j), p, Of(id, Esdt(j), u), p, 0);
      assert Holding(before, a, Esdt(j)) >= 0;
    }
  }

  lemma AddNftKeeps(h: Host, sh: Shard, snd: Address, dst: Address, k: Key, t: Token, rwe: bool)
    requires NonNegative(sh) && t.value >= 0 && AddNft(h, sh, snd, dst, k, t, rwe).Ok?
    ensures NonNegative(AddNft(h, sh, snd, dst, k, t, rwe).value)
  {
    hide AddNft;
    forall x ensures Shift(sh, AddNft(h, sh, snd, dst, k, t, rwe).value, x, dst, Of(Id(k), x, t.value), dst, 0) {
      AddNftShift(h, sh, snd, dst, k, t, rwe, x);
    }
    ShiftKeepsNonNegative(sh, AddNft(h, sh, snd, dst, k, t, rwe).value, Id(k), dst, t.value);
  }

  lemma SaveKeeps(env: Env, sh: Shard, sender: nat, a: Address, k: Key, t: Token, args: SaveArgs)
    requires NonNegative(sh) && t.value >= 0 && SaveToken(env, sh, sender, a, k, t, args).Ok?
    ensures NonNegative(SaveToken(env, sh, sender, a, k, t, args).value.shard)
  {
    hide SaveToken;
    var after := SaveToken(env, sh, sender, a, k, t, args).value.shard;
    var u := t.value - Holding(sh, a, Esdt(Id(k)));
    forall x ensures Shift(sh, after, x, a, Of(Id(k), x, u), a, 0) {
      SaveShift(env, sh, sender, a, k, t, args, x);
    }
    ShiftKeepsNonNegative(sh, after, Id(k), a, u);
  }

  lemma BalanceShift(env: Env, sh: Shard, a: Address, id: bytes, delta: int, rwe: bool, x: Asset)
    requires AddToBalance(env, sh, a, id, delta, rwe).Ok?
    ensures Shift(sh, AddToBalance(env, sh, a, id, delta, rwe).value, x, a, Of(id, x, delta), a, 0)
  {
    var t := FungibleRecord(sh, a, id);
    var t' := t.(value := t.value + delta);
    PutRecordShift(sh, a, id, if t'.value == 0 && PropertiesEmpty(t'.properties) then None else Some(t'), x);
  }

  lemma BalanceKeeps(env: Env, sh: Shard, a: Address, id: bytes, delta: int, rwe: bool)
    requires NonNegative(sh) && AddToBalance(env, sh, a, id, delta, rwe).Ok?
    ensures NonNegative(AddToBalance(env, sh, a, id, delta, rwe).value)
  {
    var after := AddToBalance(env, sh, a, id, delta, rwe).value;
    forall x ensures Shift(sh, after, x, a, Of(id, x, delta), a, 0) {
      BalanceShift(env, sh, a, id, delta, rwe, x);
    }
    ShiftKeepsNonNegative(sh, after, id, a, delta);
  }

  lemma PutBalanceShift(sh: Shard, a: Address, delta: int, x: Asset)
    ensures Shift(sh, PutBalance(sh, a, AccountAt(sh, a).balance + delta), x, a, if x == Base then delta else 0, a, 0)
  {
  }

  lemma PutBalanceKeeps(sh: Shard, a: Address, balance: int)
    requires NonNegative(sh)
    ensures NonNegative(PutBalance(sh, a, balance))
  {
    forall b: Address, id: bytes
      ensures Holding(PutBalance(sh, a, balance), b, Esdt(id)) >= 0
    {
      assert Holding(sh, b, Esdt(id)) >= 0;
    }
  }

  // Two shifts in a row.
  lemma ShiftThen(s0: Shard, s1: Shard, s2: Shard, x: Asset, p: Address, u: int, v: int, q: Address, w: int, y: int)
    requires Shift(s0, s1, x, p, u, q, w) && Shift(s1, s2, x, p, v, q, y)
    ensures Shift(s0, s2, x, p, u + v, q, w + y)
  {
    forall b
      ensures Holding(s2, b, x) == Holding(s0, b, x) + At(b, p, u + v) + At(b, q, w + y)
    {
      assert Holding(s1, b, x) == Holding(s0, b, x) + At(b, p, u) + At(b, q, w);
    }
  }

  lemma ShiftOne(s0: Shard, s1: Shard, x: Asset, p: Address, u: int, q: Address)
    requires Shift(s0, s1, x, p, u, p, 0)
    ensures Shift(s0, s1, x, p, u, q, 0) && Shift(s0, s1, x, q, 0, p, u)
  {
    forall b
      ensures Holding(s1, b, x) == Holding(s0, b, x) + At(b, p, u) + At(b, q, 0)
      ensures Holding(s1, b, x) == Holding(s0, b, x) + At(b, q, 0) + At(b, p, u)
    {
      assert Holding(s1, b, x) == Holding(s0, b, x) + At(b, p, u) + At(b, p, 0);
    }
  }

  // ---- transfers ----

  function Arriving(h: Host, dst: Address, amount: int): int {
    if Here(h, dst) then amount else 0
  }

  // Taking q from the holder and handing it over: the receiver gets it, or it
  // leaves the shard.
  lemma TakeAndHandOver(h: Host, sh: Shard, snd: Address, dst: Address, k: Key, t: Token, q: nat, rwe: bool, x: Asset)
    requires NonNegative(sh) && snd != dst && OnSender(h.env, sh, snd, k) == Ok(t) && q <= t.value
    requires TakeNft(h, sh, snd, k, t, q, rwe).Ok?
    requires var taken := TakeNft(h, sh, snd, k, t, q, rwe).value;
             HandOver(h, taken.shard, snd, dst, k, taken.token, rwe).Ok?
    ensures var taken := TakeNft(h, sh, snd, k, t, q, rwe).value;
            var after := HandOver(h, taken.shard, snd, dst, k, taken.token, rwe).value;
            && taken.token.value == q && NonNegative(after)
            && Shift(sh, after, x, snd, Of(Id(k), x, -(q as int)), dst, Of(Id(k), x, Arriving(h, dst, q)))
  {
    hide SaveToken, AddToLiquidity, AddNft;
    var less, args := t.(value := t.value - q), SaveArgs(false, rwe, false);
    var taken := TakeNft(h, sh, snd, k, t, q, rwe).value;
    var after := HandOver(h, taken.shard, snd, dst, k, taken.token, rwe).value;
    assert t.value == Holding(sh, snd, Esdt(Id(k)));
    SaveShift(h.env, sh, h.shardOf(snd), snd, k, less, args, x);
    SaveKeeps(h.env, sh, h.shardOf(snd), snd, k, less, args);
    ShiftOne(sh, taken.shard, x, snd, Of(Id(k), x, -(q as int)), dst);
    if Here(h, dst) {
      AddNftShift(h, taken.shard, snd, dst, k, taken.token, rwe, x);
      AddNftKeeps(h, taken.shard, snd, dst, k, taken.token, rwe);
      ShiftOne(taken.shard, after, x, dst, Of(Id(k), x, q), snd);
      ShiftThen(sh, taken.shard, after, x, snd, Of(Id(k), x, -(q as int)), 0, dst, 0, Of(Id(k), x, q));
    } else {
      LiquidityKeepsAccounts(h.env, taken.shard, k, taken.token.kind, -taken.token.value,
                             KeepsMetaData(h, snd, k.token, taken.token.kind));
      SameHoldings(taken.shard, after);
    }
  }

  lemma SameHoldings(before: Shard, after: Shard)
    requires before.accounts == after.accounts
    ensures forall b, x :: Holding(after, b, x) == Holding(before, b, x)
    ensures NonNegative(before) ==> NonNegative(after)
  {
    if NonNegative(before) {
      forall a: Address, id: bytes
        ensures Holding(after, a, Esdt(id)) >= 0
      {
        assert Holding(before, a, Esdt(id)) >= 0;
      }
    }
  }

  function AssetOf(token: bytes, nonce: nat): Asset {
    if token == BASE_TOKEN && nonce == 0 then Base else Esdt(Id(Key(token, nonce)))
  }

  function Moves(tr: Wire.Transfer, x: Asset): nat {
    if AssetOf(tr.token, tr.nonce) == x then tr.value else 0
  }

  // What a transfer list moves of asset x, counting every mention.
  function Listed(list: seq<Wire.Transfer>, x: Asset): nat {
    if |list| == 0 then 0
    else
      var last := list[|list| - 1];
      Listed(list[..|list| - 1], x) + Moves(last, x)
  }

  function AssetIn(kind: MessageKind, item: Wire.Received): Asset {
    match kind
    case FungibleMessage => Esdt(item.token)
    case NftMessage => Esdt(Id(Key(item.token, item.nonce)))
    case MultiMessage => AssetOf(item.token, item.nonce)
  }

  // What a message carries of asset x.
  function Carried(kind: MessageKind, items: seq<Wire.Received>, x: Asset): int {
    if |items| == 0 then 0
    else
      var last := items[|items| - 1];
      Carried(kind, items[..|items| - 1], x) + if AssetIn(kind, last) == x then last.data.value else 0
  }

  predicate ItemsNonNegative(items: seq<Wire.Received>) {
    forall i :: 0 <= i < |items| ==> items[i].data.value >= 0
  }

  lemma SendOneShift(h: Host, sh: Shard, snd: Address, dst: Address, tr: Wire.Transfer, rwe: bool, x: Asset)
    requires NonNegative(sh) && snd != dst && SendOne(h, sh, snd, dst, tr, rwe).Ok?
    ensures var sent := SendOne(h, sh, snd, dst, tr, rwe).value;
            && sent.token.value == tr.value && NonNegative(sent.shard)
            && Shift(sh, sent.shard, x, snd, -(Moves(tr, x) as int), dst, Arriving(h, dst, Moves(tr, x)))
  {
    hide SaveToken, AddToLiquidity, AddNft, HandOver, TakeNft;
    if tr.token == BASE_TOKEN {
      var debited := PutBalance(sh, snd, AccountAt(sh, snd).balance - tr.value);
      PutBalanceKeeps(sh, snd, AccountAt(sh, snd).balance - tr.value);
      PutBalanceKeeps(debited, dst, AccountAt(debited, dst).balance + tr.value);
    } else {
      var k := Key(tr.token, tr.nonce);
      TakeAndHandOver(h, sh, snd, dst, k, OnSender(h.env, sh, snd, k).value, tr.value, rwe, x);
    }
  }

  lemma SendAllLast(h: Host, sh: Shard, snd: Address, dst: Address, list: seq<Wire.Transfer>, rwe: bool)
    requires |list| > 0 && SendAll(h, sh, snd, dst, list, rwe).Ok?
    ensures var n := |list| - 1;
            && SendAll(h, sh, snd, dst, list[..n], rwe).Ok?
            && var front := SendAll(h, sh, snd, dst, list[..n], rwe).value;
            && SendOne(h, front.shard, snd, dst, list[n], rwe).Ok?
            && var last := SendOne(h, front.shard, snd, dst, list[n], rwe).value;
            && SendAll(h, sh, snd, dst, list, rwe).value == TakenAll(last.shard, front.tokens + [last.token])
  {
    hide SendOne;
  }

  lemma ListedLast(list: seq<Wire.Transfer>, x: Asset)
    ensures |list| == 0 ==> Listed(list, x) == 0
    ensures |list| > 0 ==> Listed(list, x) == Listed(list[..|list| - 1], x) + Moves(list[|list| - 1], x)
  {
  }

  predicate Carry(tokens: seq<Token>, list: seq<Wire.Transfer>) {
    |tokens| == |list| && forall i :: 0 <= i < |list| ==> tokens[i].value == list[i].value
  }

  lemma CarryLast(tokens: seq<Token>, t: Token, list: seq<Wire.Transfer>)
    requires |list| > 0 && Carry(tokens, list[..|list| - 1]) && t.value == list[|list| - 1].value
    ensures Carry(tokens + [t], list)
  {
  }

  lemma SendNone(h: Host, sh: Shard, snd: Address, dst: Address, list: seq<Wire.Transfer>, rwe: bool, x: Asset)
    requires |list| == 0
    ensures SendAll(h, sh, snd, dst, list, rwe) == Ok(TakenAll(sh, [])) && Carry([], list)
    ensures Shift(sh, sh, x, snd, 0, dst, 0)
  {
  }

  // The whole list: the sender loses exactly what is listed of each asset,
  // and a receiver in the shard gains exactly that.
  lemma {:induction false} SendAllShift(h: Host, sh: Shard, snd: Address, dst: Address, list: seq<Wire.Transfer>,
                                        rwe: bool,
                                        x: Asset)
    requires NonNegative(sh) && snd != dst && SendAll(h, sh, snd, dst, list, rwe).Ok?
    ensures var sent := SendAll(h, sh, snd, dst, list, rwe).value;
            && Carry(sent.tokens, list) && NonNegative(sent.shard)
            && Shift(sh, sent.shard, x, snd, -(Listed(list, x) as int), dst, Arriving(h, dst, Listed(list, x)))
    decreases |list|
  {
    hide SendOne, SendAll, Listed, Moves, NonNegative, Shift, Carry;
    ListedLast(list, x);
    if |list| == 0 {
      SendNone(h, sh, snd, dst, list, rwe, x);
    } else {
      var n := |list| - 1;
      SendAllLast(h, sh, snd, dst, list, rwe);
      SendAllShift(h, sh, snd, dst, list[..n], rwe, x);
      var front := SendAll(h, sh, snd, dst, list[..n], rwe).value;
      var last := SendOne(h, front.shard, snd, dst, list[n], rwe).value;
      SendOneShift(h, front.shard, snd, dst, list[n], rwe, x);
      var q := Moves(list[n], x);
      ShiftThen(sh, front.shard, last.shard, x, snd, -(Listed(list[..n], x) as int), -(q as int),
                dst, Arriving(h, dst, Listed(list[..n], x)), Arriving(h, dst, q));
      CarryLast(front.tokens, last.token, list);
    }
  }

  lemma MarkKeepsAccounts(h: Host, sh: Shard, k: Key, dst: Address)
    requires MarkSent(h, sh, k, dst).Ok?
    ensures MarkSent(h, sh, k, dst).value.shard.accounts == sh.accounts
  {
  }

  lemma CarriedStep(kind: MessageKind, items: seq<Wire.Received>, item: Wire.Received, x: Asset)
    ensures Carried(kind, items + [item], x) == Carried(kind, items, x) + if AssetIn(kind, item) == x then item.data.value else 0
    ensures ItemsNonNegative(items) && item.data.value >= 0 ==> ItemsNonNegative(items + [item])
  {
    assert (items + [item])[..|items|] == items;
  }

  lemma ItemCarriesTransfer(tr: Wire.Transfer, t: Token, alreadySent: bool)
    requires t.value == tr.value
    ensures var item := Wire.AsReceived(Wire.Sent(tr, t, alreadySent));
            item.token == tr.token && item.nonce == tr.nonce && item.data.value == tr.value
  {
  }

  function SentBefore(h: Host, sh: Shard, tr: Wire.Transfer, dst: Address): Result<Marked> {
    if tr.nonce == 0 then Ok(Marked(true, sh)) else MarkSent(h, sh, Key(tr.token, tr.nonce), dst)
  }

  lemma BuildItemsLast(h: Host, sh: Shard, dst: Address, list: seq<Wire.Transfer>, tokens: seq<Token>)
    requires |tokens| == |list| > 0 && BuildItems(h, sh, dst, list, tokens).Ok?
    ensures var n := |list| - 1;
            && BuildItems(h, sh, dst, list[..n], tokens[..n]).Ok?
            && var front := BuildItems(h, sh, dst, list[..n], tokens[..n]).value;
            && SentBefore(h, front.shard, list[n], dst).Ok?
            && var marked := SentBefore(h, front.shard, list[n], dst).value;
            && BuildItems(h, sh, dst, list, tokens).value
               == Sending(marked.shard, front.items + [Wire.AsReceived(Wire.Sent(list[n], tokens[n], marked.alreadySent))])
  {
    hide MarkSent, Wire.AsReceived;
  }

  lemma BuildNone(h: Host, sh: Shard, dst: Address, list: seq<Wire.Transfer>, tokens: seq<Token>, x: Asset)
    requires |list| == |tokens| == 0
    ensures BuildItems(h, sh, dst, list, tokens) == Ok(Sending(sh, []))
    ensures Carried(MultiMessage, [], x) == 0 && ItemsNonNegative([])
  {
  }

  lemma CarryFront(tokens: seq<Token>, list: seq<Wire.Transfer>)
    requires Carry(tokens, list)
    ensures |tokens| == |list|
    ensures |list| > 0 ==> var n := |list| - 1; Carry(tokens[..n], list[..n]) && tokens[n].value == list[n].value
  {
  }

  // The message carries exactly what was listed.
  lemma {:induction false} BuildItemsCarries(h: Host, sh: Shard, dst: Address, list: seq<Wire.Transfer>,
                                             tokens: seq<Token>,
                                             x: Asset)
    requires Carry(tokens, list) && BuildItems(h, sh, dst, list, tokens).Ok?
    ensures var built := BuildItems(h, sh, dst, list, tokens).value;
            && built.shard.accounts == sh.accounts && ItemsNonNegative(built.items)
            && Carried(MultiMessage, built.items, x) == Listed(list, x)
    decreases |list|
  {
    hide MarkSent, Wire.AsReceived, BuildItems, Listed, Carried, Carry, ItemsNonNegative;
    ListedLast(list, x);
    CarryFront(tokens, list);
    if |list| == 0 {
      BuildNone(h, sh, dst, list, tokens, x);
    } else {
      var n := |list| - 1;
      BuildItemsLast(h, sh, dst, list, tokens);
      BuildItemsCarries(h, sh, dst, list[..n], tokens[..n], x);
      var front := BuildItems(h, sh, dst, list[..n], tokens[..n]).value;
      var marked := SentBefore(h, front.shard, list[n], dst).value;
      if list[n].nonce > 0 {
        MarkKeepsAccounts(h, front.shard, Key(list[n].token, list[n].nonce), dst);
      }
      ItemCarriesTransfer(list[n], tokens[n], marked.alreadySent);
      CarriedStep(MultiMessage, front.items, Wire.AsReceived(Wire.Sent(list[n], tokens[n], marked.alreadySent)), x);
    }
  }

  // ---- one call ----

  function Messages(messages: seq<Message>, x: Asset): int {
    if |messages| == 0 then 0
    else
      var last := messages[|messages| - 1];
      Messages(messages[..|messages| - 1], x) + Carried(last.kind, last.items, x)
  }

  function Issued(issued: seq<Issue>, x: Asset): int {
    if |issued| == 0 then 0
    else
      var last := issued[|issued| - 1];
      Issued(issued[..|issued| - 1], x) + if last.asset == x then last.amount else 0
  }

  ghost predicate MessagesNonNegative(messages: seq<Message>) {
    forall i :: 0 <= i < |messages| ==> ItemsNonNegative(messages[i].items)
  }

  // A call keeps the shard non-negative, and what leaves or is minted accounts
  // for the change of the shard's total.
  ghost predicate Balanced(before: Shard, e: Effect, x: Asset) {
    && NonNegative(e.shard) && MessagesNonNegative(e.messages)
    && ShardTotal(e.shard, x) + Messages(e.messages, x) == ShardTotal(before, x) + Issued(e.issued, x)
  }

  lemma OneMessage(kind: MessageKind, snd: Address, dst: Address, items: seq<Wire.Received>, x: Asset)
    ensures Messages([], x) == 0
    ensures Messages([Message(kind, snd, dst, items)], x) == Carried(kind, items, x)
  {
    var ms := [Message(kind, snd, dst, items)];
    assert ms[..0] == [];
    assert Messages(ms, x) == Messages(ms[..0], x) + Carried(kind, items, x);
  }

  lemma OneItem(kind: MessageKind, item: Wire.Received, x: Asset)
    ensures Carried(kind, [item], x) == if AssetIn(kind, item) == x then item.data.value else 0
  {
    assert [item][..0] == [];
    assert Carried(kind, [item][..0], x) == 0;
  }

  lemma OneIssue(asset: Asset, amount: int, x: Asset)
    ensures Issued([], x) == 0
    ensures Issued([Issue(asset, amount)], x) == if asset == x then amount else 0
  {
    var one := [Issue(asset, amount)];
    assert one[..0] == [];
    assert Issued(one, x) == Issued(one[..0], x) + if asset == x then amount else 0;
  }

  lemma MultiBalanced(h: Host, sh: Shard, op: Op, x: Asset)
    requires op.TransferMulti? && NonNegative(sh) && Execute(h, sh, op).Ok?
    ensures Balanced(sh, Execute(h, sh, op).value, x)
  {
    hide SendAll, BuildItems;
    var snd, dst, list := op.sender, op.receiver, op.list;
    var sent := SendAll(h, sh, snd, dst, list, op.rwe).value;
    SendAllShift(h, sh, snd, dst, list, op.rwe, x);
    ShiftTotal(sh, sent.shard, x, snd, -(Listed(list, x) as int), dst, Arriving(h, dst, Listed(list, x)));
    OneIssue(x, 0, x);
    OneMessage(MultiMessage, snd, dst, [], x);
    if !Here(h, dst) {
      BuildItemsCarries(h, sent.shard, dst, list, sent.tokens, x);
      var built := BuildItems(h, sent.shard, dst, list, sent.tokens).value;
      SameHoldings(sent.shard, built.shard);
      OneMessage(MultiMessage, snd, dst, built.items, x);
      SumSame(sent.shard, built.shard, x);
    }
  }

  lemma SumSame(before: Shard, after: Shard, x: Asset)
    requires before.accounts == after.accounts
    ensures ShardTotal(after, x) == ShardTotal(before, x)
  {
    SameHoldings(before, after);
    ShiftTotal(before, after, x, [], 0, [], 0);
  }

  lemma NftBalanced(h: Host, sh: Shard, op: Op, x: Asset)
    requires op.TransferNft? && NonNegative(sh) && Execute(h, sh, op).Ok?
    ensures Balanced(sh, Execute(h, sh, op).value, x)
  {
    hide SaveToken, AddToLiquidity, AddNft, HandOver, TakeNft, MarkSent;
    var snd, dst, k, q := op.sender, op.receiver, op.key, op.amount;
    var t := OnSender(h.env, sh, snd, k).value;
    var taken := TakeNft(h, sh, snd, k, t, q, op.rwe).value;
    var after := HandOver(h, taken.shard, snd, dst, k, taken.token, op.rwe).value;
    TakeAndHandOver(h, sh, snd, dst, k, t, q, op.rwe, x);
    ShiftTotal(sh, after, x, snd, Of(Id(k), x, -(q as int)), dst, Of(Id(k), x, Arriving(h, dst, q)));
    OneIssue(x, 0, x);
    OneMessage(NftMessage, snd, dst, [], x);
    if !Here(h, dst) {
      MarkKeepsAccounts(h, after, k, dst);
      var marked := MarkSent(h, after, k, dst).value;
      SameHoldings(after, marked.shard);
      SumSame(after, marked.shard, x);
      var item := AsItem(k, taken.token, !marked.alreadySent || q == 1);
      OneItem(NftMessage, item, x);
      OneMessage(NftMessage, snd, dst, [item], x);
    }
  }

  lemma NoNonceId(token: bytes)
    ensures Id(Key(token, 0)) == token
  {
    assert ToBytes(0) == [];
  }

  lemma FungibleBalanced(h: Host, sh: Shard, op: Op, x: Asset)
    requires op.TransferFungible? && NonNegative(sh) && Execute(h, sh, op).Ok?
    ensures Balanced(sh, Execute(h, sh, op).value, x)
  {
    hide AddToBalance;
    var snd, dst, id, q := op.sender, op.receiver, op.id, op.amount;
    var debited := AddToBalance(h.env, sh, snd, id, -(q as int), op.rwe).value;
    BalanceShift(h.env, sh, snd, id, -(q as int), op.rwe, x);
    BalanceKeeps(h.env, sh, snd, id, -(q as int), op.rwe);
    ShiftTotal(sh, debited, x, snd, Of(id, x, -(q as int)), snd, 0);
    OneIssue(x, 0, x);
    OneMessage(FungibleMessage, snd, dst, [], x);
    if Here(h, dst) {
      BalanceShift(h.env, debited, dst, id, q, op.rwe, x);
      BalanceKeeps(h.env, debited, dst, id, q, op.rwe);
      ShiftTotal(debited, AddToBalance(h.env, debited, dst, id, q, op.rwe).value, x, dst, Of(id, x, q), dst, 0);
    } else {
      var item := Wire.Received(id, 0, NOTHING.(value := q));
      OneItem(FungibleMessage, item, x);
      OneMessage(FungibleMessage, snd, dst, [item], x);
    }
  }

  lemma SupplyBalanced(before: Shard, after: Shard, a: Address, id: bytes, u: int, x: Asset)
    requires NonNegative(after) && Shift(before, after, x, a, Of(id, x, u), a, 0)
    ensures Balanced(before, Effect(after, [], [Issue(Esdt(id), u)]), x)
    ensures u == 0 ==> Balanced(before, Effect(after, [], []), x)
  {
    ShiftTotal(before, after, x, a, Of(id, x, u), a, 0);
    OneIssue(Esdt(id), u, x);
    OneMessage(FungibleMessage, a, a, [], x);
  }

  // A save followed by a change of the liquidity total.
  lemma SaveBalanced(env: Env, sh: Shard, sender: nat, a: Address, k: Key, t: Token, args: SaveArgs, after: Shard,
                     u: int, x: Asset)
    requires NonNegative(sh) && t.value >= 0 && SaveToken(env, sh, sender, a, k, t, args).Ok?
    requires after.accounts == SaveToken(env, sh, sender, a, k, t, args).value.shard.accounts
    requires u == t.value - Holding(sh, a, Esdt(Id(k)))
    ensures Balanced(sh, Effect(after, [], [Issue(Esdt(Id(k)), u)]), x)
    ensures u == 0 ==> Balanced(sh, Effect(after, [], []), x)
  {
    hide SaveToken;
    var saved := SaveToken(env, sh, sender, a, k, t, args).value.shard;
    SaveShift(env, sh, sender, a, k, t, args, x);
    SaveKeeps(env, sh, sender, a, k, t, args);
    SameHoldings(saved, after);
    SupplyBalanced(sh, after, a, Id(k), u, x);
  }

  // A create replaces the holder's record: it conserves when there was none.
  lemma CreateBalanced(h: Host, sh: Shard, op: Op, x: Asset)
    requires op.Create? && NonNegative(sh) && Execute(h, sh, op).Ok?
    requires Holding(sh, op.holder, Esdt(Id(op.key))) == 0
    ensures Balanced(sh, Execute(h, sh, op).value, x)
  {
    hide SaveToken, AddToLiquidity;
    var a, k := op.holder, op.key;
    var kind := if h.env.flags.dynamicEsdt then h.env.tokenType(k.token) else Some(NonFungible);
    var t := Token(kind.value, op.amount, Some(op.meta), [], None);
    var saved := SaveToken(h.env, sh, h.shardOf(a), a, k, t, SaveArgs(true, op.rwe, false)).value;
    LiquidityKeepsAccounts(h.env, saved.shard, k, saved.kind, op.amount, false);
    SaveBalanced(h.env, sh, h.shardOf(a), a, k, t, SaveArgs(true, op.rwe, false), Execute(h, sh, op).value.shard, op.amount, x);
  }

  // And only then: what the holder had is overwritten, and lost.
  lemma CreateBalancedIff(h: Host, sh: Shard, op: Op)
    requires op.Create? && NonNegative(sh) && Execute(h, sh, op).Ok?
    ensures Balanced(sh, Execute(h, sh, op).value, Esdt(Id(op.key))) <==> Holding(sh, op.holder, Esdt(Id(op.key))) == 0
  {
    hide SaveToken, AddToLiquidity, Id;
    var a, k := op.holder, op.key;
    var kind := if h.env.flags.dynamicEsdt then h.env.tokenType(k.token) else Some(NonFungible);
    var t := Token(kind.value, op.amount, Some(op.meta), [], None);
    var args := SaveArgs(true, op.rwe, false);
    var saved := SaveToken(h.env, sh, h.shardOf(a), a, k, t, args).value;
    LiquidityKeepsAccounts(h.env, saved.shard, k, saved.kind, op.amount, false);
    SaveBalanced(h.env, sh, h.shardOf(a), a, k, t, args, Execute(h, sh, op).value.shard,
                 op.amount - Holding(sh, a, Esdt(Id(k))), Esdt(Id(k)));
    OneIssue(Esdt(Id(k)), op.amount, Esdt(Id(k)));
    OneIssue(Esdt(Id(k)), op.amount - Holding(sh, a, Esdt(Id(k))), Esdt(Id(k)));
  }

  lemma AddMoreBalanced(h: Host, sh: Shard, op: Op, x: Asset)
    requires op.AddMore? && NonNegative(sh) && Execute(h, sh, op).Ok?
    ensures Balanced(sh, Execute(h, sh, op).value, x)
  {
    hide SaveToken, AddToLiquidity;
    var a, k := op.holder, op.key;
    var t := OnSender(h.env, sh, a, k).value;
    assert t.value == Holding(sh, a, Esdt(Id(k)));
    var more := t.(value := t.value + op.amount);
    var saved := SaveToken(h.env, sh, h.shardOf(a), a, k, more, SaveArgs(false, op.rwe, false)).value;
    LiquidityKeepsAccounts(h.env, saved.shard, k, saved.kind, op.amount, false);
    SaveBalanced(h.env, sh, h.shardOf(a), a, k, more, SaveArgs(false, op.rwe, false), Execute(h, sh, op).value.shard, op.amount, x);
  }

  lemma BurnSomeBalanced(h: Host, sh: Shard, op: Op, x: Asset)
    requires op.BurnSome? && NonNegative(sh) && Execute(h, sh, op).Ok?
    ensures Balanced(sh, Execute(h, sh, op).value, x)
  {
    hide SaveToken, AddToLiquidity;
    var a, k, u := op.holder, op.key, -(op.amount as int);
    var t := OnSender(h.env, sh, a, k).value;
    assert t.value == Holding(sh, a, Esdt(Id(k)));
    var less := t.(value := t.value + u);
    var saved := SaveToken(h.env, sh, h.shardOf(a), a, k, less, SaveArgs(false, op.rwe, false)).value;
    LiquidityKeepsAccounts(h.env, saved.shard, k, saved.kind, u, false);
    SaveBalanced(h.env, sh, h.shardOf(a), a, k, less, SaveArgs(false, op.rwe, false), Execute(h, sh, op).value.shard, u, x);
  }

  lemma UpdateBalanced(h: Host, sh: Shard, op: Op, x: Asset)
    requires op.Update? && NonNegative(sh) && Execute(h, sh, op).Ok?
    ensures Balanced(sh, Execute(h, sh, op).value, x)
  {
    hide SaveToken, VersionOf;
    var a, k := op.holder, op.key;
    var t := OnSender(h.env, sh, a, k).value;
    assert t.value == Holding(sh, a, Esdt(Id(k)));
    var args := SaveArgs(true, op.rwe, true);
    var t' :| SaveToken(h.env, sh, h.shardOf(a), a, k, t', args).Ok? && t'.value == t.value
              && Execute(h, sh, op).value.shard == SaveToken(h.env, sh, h.shardOf(a), a, k, t', args).value.shard;
    SaveBalanced(h.env, sh, h.shardOf(a), a, k, t', args, Execute(h, sh, op).value.shard, 0, x);
  }

  lemma BalanceBalanced(h: Host, sh: Shard, op: Op, x: Asset)
    requires (op.MintTokens? || op.BurnTokens?) && NonNegative(sh) && Execute(h, sh, op).Ok?
    ensures Balanced(sh, Execute(h, sh, op).value, x)
  {
    hide AddToBalance;
    var a, id := op.holder, op.id;
    var u := if op.MintTokens? then op.amount else -(op.amount as int);
    BalanceShift(h.env, sh, a, id, u, op.rwe, x);
    BalanceKeeps(h.env, sh, a, id, u, op.rwe);
    SupplyBalanced(sh, Execute(h, sh, op).value.shard, a, id, u, x);
  }

  lemma FreezeBalanced(h: Host, sh: Shard, op: Op, x: Asset)
    requires op.Freeze? && NonNegative(sh)
    ensures Balanced(sh, Execute(h, sh, op).value, x)
  {
    var a, id := op.holder, op.id;
    var t := FungibleRecord(sh, a, id);
    var t' := t.(properties := FrozenProperties(op.frozen));
    var record := if t'.value == 0 && PropertiesEmpty(t'.properties) then None else Some(t');
    RecordBalanced(sh, a, id, record, x);
  }

  lemma RecordBalanced(sh: Shard, a: Address, id: bytes, t: Option<Token>, x: Asset)
    requires NonNegative(sh) && ValueOf(t) >= 0
    ensures var u := ValueOf(t) - Holding(sh, a, Esdt(id));
            && NonNegative(PutRecord(sh, a, id, t))
            && Balanced(sh, Effect(PutRecord(sh, a, id, t), [], [Issue(Esdt(id), u)]), x)
            && (u == 0 ==> Balanced(sh, Effect(PutRecord(sh, a, id, t), [], []), x))
  {
    var u := ValueOf(t) - Holding(sh, a, Esdt(id));
    forall y ensures Shift(sh, PutRecord(sh, a, id, t), y, a, Of(id, y, u), a, 0) {
      PutRecordShift(sh, a, id, t, y);
    }
    ShiftKeepsNonNegative(sh, PutRecord(sh, a, id, t), id, a, u);
    SupplyBalanced(sh, PutRecord(sh, a, id, t), a, id, u, x);
  }

  lemma WipeBalanced(h: Host, sh: Shard, op: Op, x: Asset)
    requires op.WipeOut? && NonNegative(sh) && Execute(h, sh, op).Ok?
    ensures Balanced(sh, Execute(h, sh, op).value, x)
  {
    hide AddToLiquidity, WipeKey;
    var a, id := op.holder, op.id;
    var t := FungibleRecord(sh, a, id);
    var removed, after := PutRecord(sh, a, id, None), Execute(h, sh, op).value.shard;
    RecordBalanced(sh, a, id, None, x);
    if h.env.flags.wipeLowersLiquidity {
      LiquidityKeepsAccounts(h.env, removed, WipeKey(id), t.kind, -t.value, false);
    }
    SameHoldings(removed, after);
    SumSame(removed, after, x);
  }

  // Every call that succeeds is balanced.
  lemma CallBalanced(h: Host, sh: Shard, op: Op, x: Asset)
    requires !op.Deliver? && NonNegative(sh) && Execute(h, sh, op).Ok?
    requires op.Create? ==> Holding(sh, op.holder, Esdt(Id(op.key))) == 0
    ensures Balanced(sh, Execute(h, sh, op).value, x)
  {
    hide Execute, Balanced;
    match op {
      case TransferFungible(_, _, _, _, _) => FungibleBalanced(h, sh, op, x);
      case TransferNft(_, _, _, _, _) => NftBalanced(h, sh, op, x);
      case TransferMulti(_, _, _, _) => MultiBalanced(h, sh, op, x);
      case MintTokens(_, _, _, _) => BalanceBalanced(h, sh, op, x);
      case BurnTokens(_, _, _, _) => BalanceBalanced(h, sh, op, x);
      case Create(_, _, _, _, _) => CreateBalanced(h, sh, op, x);
      case AddMore(_, _, _, _) => AddMoreBalanced(h, sh, op, x);
      case BurnSome(_, _, _, _) => BurnSomeBalanced(h, sh, op, x);
      case Update(_, _, _, _) => UpdateBalanced(h, sh, op, x);
      case Freeze(_, _, _) => FreezeBalanced(h, sh, op, x);
      case WipeOut(_, _) => WipeBalanced(h, sh, op, x);
    }
  }

  // ---- one delivery ----

  lemma ReceiveOneShift(h: Host, sh: Shard, snd: Address, dst: Address, item: Wire.Received, rwe: bool, x: Asset)
    requires NonNegative(sh) && item.data.value >= 0 && ReceiveOne(h, sh, snd, dst, item, rwe).Ok?
    ensures var after := ReceiveOne(h, sh, snd, dst, item, rwe).value;
            && NonNegative(after)
            && Shift(sh, after, x, dst, if AssetIn(MultiMessage, item) == x then item.data.value else 0, dst, 0)
  {
    hide AddNft, AddToBalance;
    if item.nonce > 0 {
      AddNftShift(h, sh, snd, dst, Key(item.token, item.nonce), item.data, rwe, x);
      AddNftKeeps(h, sh, snd, dst, Key(item.token, item.nonce), item.data, rwe);
    } else if item.token == BASE_TOKEN {
      PutBalanceShift(sh, dst, item.data.value, x);
      PutBalanceKeeps(sh, dst, AccountAt(sh, dst).balance + item.data.value);
    } else {
      NoNonceId(item.token);
      BalanceShift(h.env, sh, dst, item.token, item.data.value, rwe, x);
      BalanceKeeps(h.env, sh, dst, item.token, item.data.value, rwe);
    }
  }

  lemma ReceiveNone(h: Host, sh: Shard, snd: Address, dst: Address, items: seq<Wire.Received>, rwe: bool, x: Asset)
    requires |items| == 0
    ensures ReceiveAll(h, sh, snd, dst, items, rwe) == Ok(sh) && Carried(MultiMessage, items, x) == 0
    ensures Shift(sh, sh, x, dst, 0, dst, 0)
  {
  }

  lemma ReceiveLast(h: Host, sh: Shard, snd: Address, dst: Address, items: seq<Wire.Received>, rwe: bool, x: Asset)
    requires |items| > 0 && ReceiveAll(h, sh, snd, dst, items, rwe).Ok? && ItemsNonNegative(items)
    ensures var n := |items| - 1;
            && items[n].data.value >= 0 && ItemsNonNegative(items[..n])
            && ReceiveAll(h, sh, snd, dst, items[..n], rwe).Ok?
            && ReceiveAll(h, sh, snd, dst, items, rwe)
               == ReceiveOne(h, ReceiveAll(h, sh, snd, dst, items[..n], rwe).value, snd, dst, items[n], rwe)
            && Carried(MultiMessage, items, x) == Carried(MultiMessage, items[..n], x)
                 + if AssetIn(MultiMessage, items[n]) == x then items[n].data.value else 0
  {
    hide ReceiveOne;
  }

  // The receiver gains exactly what the message carries.
  lemma {:induction false} ReceiveAllShift(h: Host, sh: Shard, snd: Address, dst: Address, items: seq<Wire.Received>,
                                           rwe: bool,
                                           x: Asset)
    requires NonNegative(sh) && ItemsNonNegative(items) && ReceiveAll(h, sh, snd, dst, items, rwe).Ok?
    ensures var after := ReceiveAll(h, sh, snd, dst, items, rwe).value;
            NonNegative(after) && Shift(sh, after, x, dst, Carried(MultiMessage, items, x), dst, 0)
    decreases |items|
  {
    hide ReceiveOne, ReceiveAll, Carried, NonNegative, Shift, ItemsNonNegative;
    if |items| == 0 {
      ReceiveNone(h, sh, snd, dst, items, rwe, x);
    } else {
      var n := |items| - 1;
      ReceiveLast(h, sh, snd, dst, items, rwe, x);
      ReceiveAllShift(h, sh, snd, dst, items[..n], rwe, x);
      var front := ReceiveAll(h, sh, snd, dst, items[..n], rwe).value;
      ReceiveOneShift(h, front, snd, dst, items[n], rwe, x);
      ShiftThen(sh, front, ReceiveOne(h, front, snd, dst, items[n], rwe).value, x,
                dst, Carried(MultiMessage, items[..n], x),
                if AssetIn(MultiMessage, items[n]) == x then items[n].data.value else 0, dst, 0, 0);
    }
  }

  lemma DeliveryShift(h: Host, sh: Shard, m: Message, rwe: bool, x: Asset)
    requires NonNegative(sh) && ItemsNonNegative(m.items) && Receive(h, sh, m, rwe).Ok?
    ensures var after := Receive(h, sh, m, rwe).value;
            NonNegative(after) && ShardTotal(after, x) == ShardTotal(sh, x) + Carried(m.kind, m.items, x)
  {
    hide AddNft, AddToBalance, ReceiveAll;
    var after := Receive(h, sh, m, rwe).value;
    if m.kind == MultiMessage {
      ReceiveAllShift(h, sh, m.sender, m.receiver, m.items, rwe, x);
    } else {
      var item := m.items[0];
      assert m.items == [item];
      OneItem(m.kind, item, x);
      var k := Key(item.token, item.nonce);
      if m.kind == FungibleMessage {
        BalanceShift(h.env, sh, m.receiver, item.token, item.data.value, rwe, x);
        BalanceKeeps(h.env, sh, m.receiver, item.token, item.data.value, rwe);
      } else {
        AddNftShift(h, sh, m.sender, m.receiver, k, item.data, rwe, x);
        AddNftKeeps(h, sh, m.sender, m.receiver, k, item.data, rwe);
      }
    }
    ShiftTotal(sh, after, x, m.receiver, Carried(m.kind, m.items, x), m.receiver, 0);
  }

  // ---- the whole net ----

  ghost function ShardsTotal(shards: seq<Shard>, x: Asset): int {
    if |shards| == 0 then 0 else ShardsTotal(shards[..|shards| - 1], x) + ShardTotal(shards[|shards| - 1], x)
  }

  ghost function NetTotal(net: Net, x: Asset): int {
    ShardsTotal(net.shards, x) + Messages(net.inFlight, x)
  }

  ghost predicate WellFormed(net: Net) {
    (forall i :: 0 <= i < |net.shards| ==> NonNegative(net.shards[i])) && MessagesNonNegative(net.inFlight)
  }

  // Everything held or in flight was issued, and nothing issued is lost.
  ghost predicate Backed(net: Net) {
    forall x :: NetTotal(net, x) == Issued(net.issued, x)
  }

  lemma {:induction false} ShardsUpdate(shards: seq<Shard>, i: nat, sh: Shard, x: Asset)
    requires i < |shards|
    ensures ShardsTotal(shards[i := sh], x) == ShardsTotal(shards, x) - ShardTotal(shards[i], x) + ShardTotal(sh, x)
  {
    var n := |shards| - 1;
    if i < n {
      ShardsUpdate(shards[..n], i, sh, x);
      assert shards[i := sh][..n] == shards[..n][i := sh];
    } else {
      assert shards[i := sh][..n] == shards[..n];
    }
  }

  lemma {:induction false} MessagesAppend(a: seq<Message>, b: seq<Message>, x: Asset)
    ensures Messages(a + b, x) == Messages(a, x) + Messages(b, x)
  {
    if |b| == 0 {
      assert a + b == a;
    } else {
      MessagesAppend(a, b[..|b| - 1], x);
      assert (a + b)[..|a + b| - 1] == a + b[..|b| - 1];
    }
  }

  lemma MessagesRemove(ms: seq<Message>, i: nat, x: Asset)
    requires i < |ms|
    ensures Messages(ms[..i] + ms[i + 1..], x) == Messages(ms, x) - Carried(ms[i].kind, ms[i].items, x)
  {
    var m := ms[i];
    MessagesAppend(ms[..i], ms[i + 1..], x);
    MessagesAppend(ms[..i], [m], x);
    MessagesAppend(ms[..i] + [m], ms[i + 1..], x);
    assert ms[..i] + [m] + ms[i + 1..] == ms;
    OneMessage(m.kind, m.sender, m.receiver, m.items, x);
  }

  lemma {:induction false} IssuedAppend(a: seq<Issue>, b: seq<Issue>, x: Asset)
    ensures Issued(a + b, x) == Issued(a, x) + Issued(b, x)
  {
    if |b| == 0 {
      assert a + b == a;
    } else {
      IssuedAppend(a, b[..|b| - 1], x);
      assert (a + b)[..|a + b| - 1] == a + b[..|b| - 1];
    }
  }

  // ---- a token never created is held by nobody ----

  lemma {:induction false} FreshNotIssued(issued: seq<Issue>, x: Asset)
    requires forall i :: 0 <= i < |issued| ==> issued[i].asset != x
    ensures Issued(issued, x) == 0
  {
    if |issued| > 0 {
      FreshNotIssued(issued[..|issued| - 1], x);
    }
  }

  lemma {:induction false} ShardAtMost(shards: seq<Shard>, i: nat, id: bytes)
    requires i < |shards| && forall j :: 0 <= j < |shards| ==> NonNegative(shards[j])
    ensures 0 <= ShardTotal(shards[i], Esdt(id)) <= ShardsTotal(shards, Esdt(id))
  {
    var n := |shards| - 1;
    SumNonNegative(shards[n].accounts.Keys, shards[n], id);
    if i < n {
      ShardAtMost(shards[..n], i, id);
    } else {
      SumNonNegative(shards[i].accounts.Keys, shards[i], id);
      ShardsNonNegative(shards[..n], id);
    }
  }

  lemma {:induction false} ShardsNonNegative(shards: seq<Shard>, id: bytes)
    requires forall j :: 0 <= j < |shards| ==> NonNegative(shards[j])
    ensures ShardsTotal(shards, Esdt(id)) >= 0
  {
    if |shards| > 0 {
      var n := |shards| - 1;
      SumNonNegative(shards[n].accounts.Keys, shards[n], id);
      ShardsNonNegative(shards[..n], id);
    }
  }

  lemma {:induction false} CarriedNonNegative(kind: MessageKind, items: seq<Wire.Received>, x: Asset)
    requires ItemsNonNegative(items)
    ensures Carried(kind, items, x) >= 0
  {
    if |items| > 0 {
      CarriedNonNegative(kind, items[..|items| - 1], x);
    }
  }

  lemma {:induction false} MessagesTotalNonNegative(ms: seq<Message>, x: Asset)
    requires MessagesNonNegative(ms)
    ensures Messages(ms, x) >= 0
  {
    if |ms| > 0 {
      var last := ms[|ms| - 1];
      MessagesTotalNonNegative(ms[..|ms| - 1], x);
      CarriedNonNegative(last.kind, last.items, x);
    }
  }

  lemma FreshHeldByNobody(net: Net, id: bytes, i: nat, a: Address)
    requires WellFormed(net) && Backed(net) && Fresh(net, id) && i < |net.shards|
    ensures Holding(net.shards[i], a, Esdt(id)) == 0
  {
    FreshNotIssued(net.issued, Esdt(id));
    assert NetTotal(net, Esdt(id)) == Issued(net.issued, Esdt(id));
    MessagesTotalNonNegative(net.inFlight, Esdt(id));
    ShardAtMost(net.shards, i, id);
    HoldingAtMostTotal(net.shards[i], a, id);
  }

  // ---- the theorem ----

  // The one condition on a step: an account creates a token it does not hold.
  predicate Admissible(net: Net, s: Step) {
    s.op.Create? && Located(s.host, net) ==>
      Holding(net.shards[s.host.env.selfShard], s.op.holder, Esdt(Id(s.op.key))) == 0
  }

  predicate AllAdmissible(net: Net, steps: seq<Step>) {
    forall i :: 0 <= i < |steps| ==> Admissible(Run(net, steps[..i]), steps[i])
  }

  lemma CallConserves(h: Host, net: Net, op: Op, x: Asset)
    requires WellFormed(net) && Backed(net) && Located(h, net) && !op.Deliver? && Perform(h, net, op).Ok?
    requires Admissible(net, Step(h, op))
    ensures WellFormed(Perform(h, net, op).value)
    ensures NetTotal(Perform(h, net, op).value, x) == Issued(Perform(h, net, op).value.issued, x)
  {
    hide Execute, NonNegative, ItemsNonNegative;
    var i := h.env.selfShard;
    var e := Execute(h, net.shards[i], op).value;
    CallBalanced(h, net.shards[i], op, x);
    ShardsUpdate(net.shards, i, e.shard, x);
    MessagesAppend(net.inFlight, e.messages, x);
    IssuedAppend(net.issued, e.issued, x);
    assert NetTotal(net, x) == Issued(net.issued, x);
  }

  lemma DeliveryConserves(h: Host, net: Net, op: Op, x: Asset)
    requires WellFormed(net) && Backed(net) && Located(h, net) && op.Deliver? && Perform(h, net, op).Ok?
    ensures WellFormed(Perform(h, net, op).value)
    ensures NetTotal(Perform(h, net, op).value, x) == Issued(Perform(h, net, op).value.issued, x)
  {
    hide Receive, NonNegative, ItemsNonNegative;
    var i := h.env.selfShard;
    var m := net.inFlight[op.index];
    DeliveryShift(h, net.shards[i], m, op.rwe, x);
    ShardsUpdate(net.shards, i, Receive(h, net.shards[i], m, op.rwe).value, x);
    MessagesRemove(net.inFlight, op.index, x);
    assert NetTotal(net, x) == Issued(net.issued, x);
  }

  // Any call or delivery, successful or rolled back, keeps the net backed.
  lemma StepConserves(net: Net, s: Step)
    requires WellFormed(net) && Backed(net) && Admissible(net, s)
    ensures WellFormed(Next(net, s)) && Backed(Next(net, s))
  {
    hide Perform, WellFormed;
    if Located(s.host, net) && Perform(s.host, net, s.op).Ok? {
      forall x
        ensures NetTotal(Next(net, s), x) == Issued(Next(net, s).issued, x)
        ensures WellFormed(Next(net, s))
      {
        if s.op.Deliver? {
          DeliveryConserves(s.host, net, s.op, x);
        } else {
          CallConserves(s.host, net, s.op, x);
        }
      }
      assert NetTotal(Next(net, s), Base) == Issued(Next(net, s).issued, Base);
    }
  }

  // Over any run, on any shards, under any flags: for every asset, what is
  // held and in flight is what was minted less what was burned and wiped.
  lemma {:induction false} RunConserves(net: Net, steps: seq<Step>)
    requires WellFormed(net) && Backed(net) && AllAdmissible(net, steps)
    ensures WellFormed(Run(net, steps)) && Backed(Run(net, steps))
  {
    if |steps| > 0 {
      var n := |steps| - 1;
      assert forall i :: 0 <= i < n ==> steps[..n][..i] == steps[..i];
      RunConserves(net, steps[..n]);
      StepConserves(Run(net, steps[..n]), steps[n]);
    }
  }
}
