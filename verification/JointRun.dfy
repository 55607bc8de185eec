// The ledger and the create protocol together: a create takes its nonce from
// the creator's counter. So no NFT exists that was not numbered, a create
// never meets an older holding, and what the other theorems assume of creates
// is so in every joint run.
module JointRun {
  import opened Bytes
  import opened Tokens
  import opened EsdtStorage
  import opened Ledger
  import opened Network
  import opened Conservation
  import opened Liquidity
  import C = CreateRole
  import Keys
  import Wire = TransferWire

  datatype Joint = Joint(net: Net, creators: C.State)

  datatype JointStep =
    | Call(step: Step)
    | CreateItem(host: Host, cell: C.Cell, amount: nat, meta: MetaData, rwe: bool)
    | PassRole(move: C.Step)

  // The ledger's part of a step.
  function CallOf(j: Joint, s: JointStep): Option<Step> {
    match s
    case Call(step) => Some(step)
    case CreateItem(h, c, q, meta, rwe) =>
      var n := C.CreateNext(j.creators.owners, c);
      if n.None? then None else Some(Step(h, Create(c.holder, Key(c.token, n.value), q, meta, rwe)))
    case PassRole(_) => None
  }

  // A create that fails is rolled back, with the counter.
  function NextJoint(j: Joint, s: JointStep): Joint {
    match s
    case Call(step) => j.(net := Next(j.net, step))
    case PassRole(move) => j.(creators := C.Next(j.creators, move))
    case CreateItem(h, c, _, _, _) =>
      var call := CallOf(j, s);
      if call.None? || !Located(h, j.net) || Perform(h, j.net, call.value.op).Fail? then j
      else Joint(Next(j.net, call.value), C.Next(j.creators, C.Create(c)))
  }

  function RunJoint(j: Joint, steps: seq<JointStep>): Joint {
    if |steps| == 0 then j else NextJoint(RunJoint(j, steps[..|steps| - 1]), steps[|steps| - 1])
  }

  // The ledger's part of a run.
  function CallsOf(j: Joint, steps: seq<JointStep>): seq<Step> {
    if |steps| == 0 then []
    else
      var n := |steps| - 1;
      var call := CallOf(RunJoint(j, steps[..n]), steps[n]);
      CallsOf(j, steps[..n]) + if call.None? then [] else [call.value]
  }

  // The environment: tokens are valid where items are created, no mint role is
  // given for an NFT's identifier, freezes are of held NFTs, and the create
  // role is handed over as its own protocol asks.
  ghost predicate Permitted(j: Joint, s: JointStep) {
    match s
    case Call(step) =>
      !step.op.Create? && (Located(step.host, j.net) ==> Harmless(j.net.shards[step.host.env.selfShard], step.op))
    case CreateItem(_, c, _, _, _) => Keys.ValidToken(c.token) && C.Allowed(j.creators, C.Create(c))
    case PassRole(move) => !move.Create? && C.Allowed(j.creators, move)
  }

  ghost predicate Harmless(sh: Shard, op: Op) {
    && (op.MintTokens? ==> !Keys.IsNft(op.id))
    && (op.Freeze? ==> Keys.IsNft(op.id) ==> RecordAt(sh, op.holder, op.id).Some?)
  }

  ghost predicate AllPermitted(j: Joint, steps: seq<JointStep>) {
    forall i :: 0 <= i < |steps| ==> Permitted(RunJoint(j, steps[..i]), steps[i])
  }

  // ---- every NFT anywhere was numbered ----

  ghost predicate MintedId(minted: seq<C.Minted>, id: bytes) {
    forall token: bytes, nonce: nat :: Keys.NftId(token, nonce, id) ==> C.Minted(token, nonce) in minted
  }

  ghost predicate RecordsMinted(minted: seq<C.Minted>, sh: Shard) {
    forall a: Address, id: bytes :: RecordAt(sh, a, id).Some? ==> MintedId(minted, id)
  }

  function ItemId(kind: MessageKind, item: Wire.Received): bytes {
    if kind == FungibleMessage then item.token else Id(Key(item.token, item.nonce))
  }

  ghost predicate ItemsMinted(minted: seq<C.Minted>, kind: MessageKind, items: seq<Wire.Received>) {
    forall i :: 0 <= i < |items| ==> MintedId(minted, ItemId(kind, items[i]))
  }

  ghost predicate MessagesMinted(minted: seq<C.Minted>, ms: seq<Message>) {
    forall i :: 0 <= i < |ms| ==> ItemsMinted(minted, ms[i].kind, ms[i].items)
  }

  // Whatever was issued of an NFT, the NFT was numbered.
  ghost predicate IssuesMinted(minted: seq<C.Minted>, issued: seq<Issue>) {
    forall i :: 0 <= i < |issued| && issued[i].asset.Esdt? && issued[i].amount != 0 ==> MintedId(minted, issued[i].asset.id)
  }

  ghost predicate NetMinted(minted: seq<C.Minted>, net: Net) {
    && (forall i :: 0 <= i < |net.shards| ==> RecordsMinted(minted, net.shards[i]))
    && MessagesMinted(minted, net.inFlight) && IssuesMinted(minted, net.issued)
  }

  ghost predicate JointInv(j: Joint, granted: set<bytes>) {
    C.AllInv(j.creators, granted) && NetMinted(j.creators.minted, j.net)
  }

  // ---- what each operation leaves ----

  lemma OnlyIdMinted(minted: seq<C.Minted>, before: Shard, after: Shard, id: bytes)
    requires RecordsMinted(minted, before) && OnlyId(before, after, id) && MintedId(minted, id)
    ensures RecordsMinted(minted, after)
  {
    hide MintedId;
    forall a: Address, j: bytes | RecordAt(after, a, j).Some?
      ensures MintedId(minted, j)
    {
      if j != id {
        assert SameAt(before, after, j);
        assert RecordAt(before, a, j).Some?;
      }
    }
  }

  lemma SameRecordsMinted(minted: seq<C.Minted>, before: Shard, after: Shard)
    requires RecordsMinted(minted, before)
    requires forall a: Address, id: bytes :: RecordAt(after, a, id).Some? ==> RecordAt(before, a, id).Some?
    ensures RecordsMinted(minted, after)
  {
    hide MintedId;
  }

  lemma HeldMinted(minted: seq<C.Minted>, sh: Shard, a: Address, id: bytes)
    requires RecordsMinted(minted, sh) && RecordAt(sh, a, id).Some?
    ensures MintedId(minted, id)
  {
  }

  lemma NotNftMinted(minted: seq<C.Minted>, id: bytes)
    requires !Keys.IsNft(id)
    ensures MintedId(minted, id)
  {
    hide Keys.NftId;
  }

  // A debit of something is of a record that is there.
  lemma BalanceMinted(minted: seq<C.Minted>, env: Env, sh: Shard, a: Address, id: bytes, delta: int, rwe: bool)
    requires RecordsMinted(minted, sh) && AddToBalance(env, sh, a, id, delta, rwe).Ok? && (delta <= 0 || MintedId(minted, id))
    ensures RecordsMinted(minted, AddToBalance(env, sh, a, id, delta, rwe).value)
    ensures delta < 0 ==> MintedId(minted, id)
  {
    hide MintedId, RecordsMinted, OnlyId;
    var after := AddToBalance(env, sh, a, id, delta, rwe).value;
    if RecordAt(sh, a, id).Some? {
      HeldMinted(minted, sh, a, id);
    }
    if RecordAt(sh, a, id).Some? || delta > 0 {
      BalanceOnlyId(env, sh, a, id, delta, rwe);
      OnlyIdMinted(minted, sh, after, id);
    } else {
      SameRecordsMinted(minted, sh, after);
    }
  }

  lemma SaveMinted(minted: seq<C.Minted>, env: Env, sh: Shard, sender: nat, a: Address, k: Key, t: Token,
                   args: SaveArgs)
    requires RecordsMinted(minted, sh) && SaveToken(env, sh, sender, a, k, t, args).Ok? && MintedId(minted, Id(k))
    ensures RecordsMinted(minted, SaveToken(env, sh, sender, a, k, t, args).value.shard)
  {
    hide SaveToken, MintedId, RecordsMinted, OnlyId, Id;
    SaveOnlyId(env, sh, sender, a, k, t, args);
    OnlyIdMinted(minted, sh, SaveToken(env, sh, sender, a, k, t, args).value.shard, Id(k));
  }

  lemma LiquidityMinted(minted: seq<C.Minted>, env: Env, sh: Shard, k: Key, kind: TokenType, delta: int, keep: bool)
    requires RecordsMinted(minted, sh) && AddToLiquidity(env, sh, k, kind, delta, keep).Ok?
    ensures RecordsMinted(minted, AddToLiquidity(env, sh, k, kind, delta, keep).value)
  {
    hide AddToLiquidity, MintedId, RecordsMinted;
    LiquidityKeepsAccounts(env, sh, k, kind, delta, keep);
    SameRecordsMinted(minted, sh, AddToLiquidity(env, sh, k, kind, delta, keep).value);
  }

  lemma ArrivalMinted(minted: seq<C.Minted>, h: Host, sh: Shard, snd: Address, dst: Address, k: Key, t: Token,
                      rwe: bool)
    requires RecordsMinted(minted, sh) && AddNft(h, sh, snd, dst, k, t, rwe).Ok? && MintedId(minted, Id(k))
    ensures RecordsMinted(minted, AddNft(h, sh, snd, dst, k, t, rwe).value)
  {
    hide AddNft, MintedId, RecordsMinted, OnlyId, Id;
    AddNftOnlyId(h, sh, snd, dst, k, t, rwe);
    OnlyIdMinted(minted, sh, AddNft(h, sh, snd, dst, k, t, rwe).value, Id(k));
  }

  lemma SenderMinted(minted: seq<C.Minted>, h: Host, sh: Shard, a: Address, k: Key)
    requires RecordsMinted(minted, sh) && OnSender(h.env, sh, a, k).Ok?
    ensures MintedId(minted, Id(k))
  {
    hide MintedId, Id;
    HeldMinted(minted, sh, a, Id(k));
  }

  lemma SendOneMinted(minted: seq<C.Minted>, h: Host, sh: Shard, snd: Address, dst: Address, tr: Wire.Transfer,
                      rwe: bool)
    requires RecordsMinted(minted, sh) && SendOne(h, sh, snd, dst, tr, rwe).Ok?
    ensures RecordsMinted(minted, SendOne(h, sh, snd, dst, tr, rwe).value.shard)
    ensures tr.token != BASE_TOKEN ==> MintedId(minted, Id(KeyOf(tr)))
  {
    hide TakeNft, HandOver, MintedId, RecordsMinted, OnlyId, OnSender, Id;
    var after := SendOne(h, sh, snd, dst, tr, rwe).value.shard;
    if tr.token == BASE_TOKEN {
      SameRecordsMinted(minted, sh, after);
    } else {
      var k, t := KeyOf(tr), OnSender(h.env, sh, snd, KeyOf(tr)).value;
      var taken := TakeNft(h, sh, snd, k, t, tr.value, rwe).value;
      SenderMinted(minted, h, sh, snd, k);
      TakeOnlyId(h, sh, snd, k, t, tr.value, rwe);
      HandOverOnlyId(h, taken.shard, snd, dst, k, taken.token, rwe);
      OnlyIdThen(sh, taken.shard, after, Id(k));
      OnlyIdMinted(minted, sh, after, Id(k));
    }
  }

  ghost predicate ListMinted(minted: seq<C.Minted>, list: seq<Wire.Transfer>) {
    forall i :: 0 <= i < |list| && list[i].token != BASE_TOKEN ==> MintedId(minted, Id(KeyOf(list[i])))
  }

  lemma {:induction false} SendAllMinted(minted: seq<C.Minted>, h: Host, sh: Shard, snd: Address, dst: Address,
                                         list: seq<Wire.Transfer>, rwe: bool)
    requires RecordsMinted(minted, sh) && SendAll(h, sh, snd, dst, list, rwe).Ok?
    ensures RecordsMinted(minted, SendAll(h, sh, snd, dst, list, rwe).value.shard) && ListMinted(minted, list)
    decreases |list|
  {
    hide SendOne, MintedId, RecordsMinted, Id;
    if |list| > 0 {
      var n := |list| - 1;
      SendAllMinted(minted, h, sh, snd, dst, list[..n], rwe);
      SendOneMinted(minted, h, SendAll(h, sh, snd, dst, list[..n], rwe).value.shard, snd, dst, list[n], rwe);
    }
  }

  lemma {:induction false} BuiltNames(h: Host, sh: Shard, dst: Address, list: seq<Wire.Transfer>, tokens: seq<Token>)
    requires |tokens| == |list| && BuildItems(h, sh, dst, list, tokens).Ok?
    ensures var built := BuildItems(h, sh, dst, list, tokens).value;
            && built.shard.accounts == sh.accounts
            && forall i :: 0 <= i < |list| ==> built.items[i].token == list[i].token && built.items[i].nonce == list[i].nonce
    decreases |list|
  {
    hide BuildItems, MarkSent;
    if |list| == 0 {
      BuildNone(h, sh, dst, list, tokens, Base);
    } else {
      var n := |list| - 1;
      BuildItemsLast(h, sh, dst, list, tokens);
      BuiltNames(h, sh, dst, list[..n], tokens[..n]);
      if list[n].nonce > 0 {
        var front := BuildItems(h, sh, dst, list[..n], tokens[..n]).value;
        MarkKeepsAccounts(h, front.shard, Key(list[n].token, list[n].nonce), dst);
      }
    }
  }

  lemma BaseMinted(minted: seq<C.Minted>)
    ensures MintedId(minted, Id(Key(BASE_TOKEN, 0)))
  {
    hide MintedId, Keys.IsNft;
    NoNonceId(BASE_TOKEN);
    BaseIsNotNft();
    NotNftMinted(minted, BASE_TOKEN);
  }

  lemma SendMultiMinted(minted: seq<C.Minted>, h: Host, sh: Shard, snd: Address, dst: Address,
                        list: seq<Wire.Transfer>, rwe: bool)
    requires RecordsMinted(minted, sh) && SendMulti(h, sh, snd, dst, list, rwe).Ok?
    ensures RecordsMinted(minted, SendMulti(h, sh, snd, dst, list, rwe).value.shard)
    ensures ItemsMinted(minted, MultiMessage, SendMulti(h, sh, snd, dst, list, rwe).value.items)
  {
    hide SendAll, BuildItems, MintedId, RecordsMinted, ListMinted, ItemsMinted, BaseUnnumbered;
    var sent := SendAll(h, sh, snd, dst, list, rwe).value;
    SendAllMinted(minted, h, sh, snd, dst, list, rwe);
    if Here(h, dst) {
      NoItemsMinted(minted, MultiMessage);
    } else {
      var built := BuildItems(h, sent.shard, dst, list, sent.tokens).value;
      SentBaseUnnumbered(h, sh, snd, dst, list, rwe);
      BuiltNames(h, sent.shard, dst, list, sent.tokens);
      SameRecordsMinted(minted, sent.shard, built.shard);
      ListedItemsMinted(minted, list, built.items);
    }
  }

  lemma NoItemsMinted(minted: seq<C.Minted>, kind: MessageKind)
    ensures ItemsMinted(minted, kind, [])
  {
  }

  lemma ListedItemsMinted(minted: seq<C.Minted>, list: seq<Wire.Transfer>, items: seq<Wire.Received>)
    requires ListMinted(minted, list) && BaseUnnumbered(list) && |items| == |list|
    requires forall i :: 0 <= i < |list| ==> items[i].token == list[i].token && items[i].nonce == list[i].nonce
    ensures ItemsMinted(minted, MultiMessage, items)
  {
    hide MintedId, Id;
    BaseMinted(minted);
  }

  lemma SendNftMinted(minted: seq<C.Minted>, h: Host, sh: Shard, snd: Address, dst: Address, k: Key, q: nat, rwe: bool)
    requires RecordsMinted(minted, sh) && SendNft(h, sh, snd, dst, k, q, rwe).Ok?
    ensures RecordsMinted(minted, SendNft(h, sh, snd, dst, k, q, rwe).value.shard)
    ensures ItemsMinted(minted, NftMessage, SendNft(h, sh, snd, dst, k, q, rwe).value.items)
  {
    hide TakeNft, HandOver, OnSender, MarkSent, MintedId, RecordsMinted, OnlyId, Id;
    var t := OnSender(h.env, sh, snd, k).value;
    var taken := TakeNft(h, sh, snd, k, t, q, rwe).value;
    var after := HandOver(h, taken.shard, snd, dst, k, taken.token, rwe).value;
    SenderMinted(minted, h, sh, snd, k);
    TakeOnlyId(h, sh, snd, k, t, q, rwe);
    HandOverOnlyId(h, taken.shard, snd, dst, k, taken.token, rwe);
    OnlyIdThen(sh, taken.shard, after, Id(k));
    OnlyIdMinted(minted, sh, after, Id(k));
    if !Here(h, dst) {
      MarkKeepsAccounts(h, after, k, dst);
      SameRecordsMinted(minted, after, MarkSent(h, after, k, dst).value.shard);
    }
  }

  lemma SendFungibleMinted(minted: seq<C.Minted>, h: Host, sh: Shard, snd: Address, dst: Address, id: bytes, q: nat,
                           rwe: bool)
    requires RecordsMinted(minted, sh) && SendFungible(h, sh, snd, dst, id, q, rwe).Ok?
    ensures RecordsMinted(minted, SendFungible(h, sh, snd, dst, id, q, rwe).value.shard)
    ensures ItemsMinted(minted, FungibleMessage, SendFungible(h, sh, snd, dst, id, q, rwe).value.items)
  {
    hide AddToBalance, MintedId, RecordsMinted;
    BalanceMinted(minted, h.env, sh, snd, id, -(q as int), rwe);
    if Here(h, dst) {
      BalanceMinted(minted, h.env, AddToBalance(h.env, sh, snd, id, -(q as int), rwe).value, dst, id, q, rwe);
    }
  }

  lemma CreateMinted(minted: seq<C.Minted>, h: Host, sh: Shard, a: Address, k: Key, q: nat, meta: MetaData, rwe: bool)
    requires RecordsMinted(minted, sh) && CreateNft(h, sh, a, k, q, meta, rwe).Ok? && MintedId(minted, Id(k))
    ensures RecordsMinted(minted, CreateNft(h, sh, a, k, q, meta, rwe).value)
  {
    hide SaveToken, AddToLiquidity, MintedId, RecordsMinted, Id;
    var kind := if h.env.flags.dynamicEsdt then h.env.tokenType(k.token) else Some(NonFungible);
    var t := Token(kind.value, q, Some(meta), [], None);
    var saved := SaveToken(h.env, sh, h.shardOf(a), a, k, t, SaveArgs(true, rwe, false)).value;
    SaveMinted(minted, h.env, sh, h.shardOf(a), a, k, t, SaveArgs(true, rwe, false));
    LiquidityMinted(minted, h.env, saved.shard, k, saved.kind, q, false);
  }

  lemma AddQuantityMinted(minted: seq<C.Minted>, h: Host, sh: Shard, a: Address, k: Key, q: nat, rwe: bool)
    requires RecordsMinted(minted, sh) && AddQuantity(h, sh, a, k, q, rwe).Ok?
    ensures RecordsMinted(minted, AddQuantity(h, sh, a, k, q, rwe).value) && MintedId(minted, Id(k))
  {
    hide SaveToken, AddToLiquidity, OnSender, MintedId, RecordsMinted, Id;
    var t := OnSender(h.env, sh, a, k).value;
    var more := t.(value := t.value + q);
    var saved := SaveToken(h.env, sh, h.shardOf(a), a, k, more, SaveArgs(false, rwe, false)).value;
    SenderMinted(minted, h, sh, a, k);
    SaveMinted(minted, h.env, sh, h.shardOf(a), a, k, more, SaveArgs(false, rwe, false));
    LiquidityMinted(minted, h.env, saved.shard, k, saved.kind, q, false);
  }

  lemma BurnNftMinted(minted: seq<C.Minted>, h: Host, sh: Shard, a: Address, k: Key, q: nat, rwe: bool)
    requires RecordsMinted(minted, sh) && BurnNft(h, sh, a, k, q, rwe).Ok?
    ensures RecordsMinted(minted, BurnNft(h, sh, a, k, q, rwe).value) && MintedId(minted, Id(k))
  {
    hide SaveToken, AddToLiquidity, OnSender, MintedId, RecordsMinted, Id;
    var t := OnSender(h.env, sh, a, k).value;
    var less := t.(value := t.value - q);
    var taken := TakeNft(h, sh, a, k, t, q, rwe).value;
    SenderMinted(minted, h, sh, a, k);
    SaveMinted(minted, h.env, sh, h.shardOf(a), a, k, less, SaveArgs(false, rwe, false));
    LiquidityMinted(minted, h.env, taken.shard, k, taken.token.kind, -(q as int), false);
  }

  lemma UpdateMinted(minted: seq<C.Minted>, h: Host, sh: Shard, a: Address, k: Key, u: Update, rwe: bool)
    requires RecordsMinted(minted, sh) && UpdateMetaData(h, sh, a, k, u, rwe).Ok?
    ensures RecordsMinted(minted, UpdateMetaData(h, sh, a, k, u, rwe).value)
  {
    hide SaveToken, OnSender, MintedId, RecordsMinted, Id;
    SenderMinted(minted, h, sh, a, k);
    var args := SaveArgs(true, rwe, true);
    var t' :| SaveToken(h.env, sh, h.shardOf(a), a, k, t', args).Ok?
              && UpdateMetaData(h, sh, a, k, u, rwe).value == SaveToken(h.env, sh, h.shardOf(a), a, k, t', args).value.shard;
    SaveMinted(minted, h.env, sh, h.shardOf(a), a, k, t', args);
  }

  lemma FreezeMinted(minted: seq<C.Minted>, sh: Shard, a: Address, id: bytes, frozen: bool)
    requires RecordsMinted(minted, sh) && (Keys.IsNft(id) ==> RecordAt(sh, a, id).Some?)
    ensures RecordsMinted(minted, SetFrozen(sh, a, id, frozen))
  {
    hide MintedId, RecordsMinted, OnlyId, Keys.IsNft;
    if RecordAt(sh, a, id).Some? {
      HeldMinted(minted, sh, a, id);
    } else {
      NotNftMinted(minted, id);
    }
    var t := FungibleRecord(sh, a, id).(properties := FrozenProperties(frozen));
    PutRecordOnlyId(sh, a, id, if t.value == 0 && PropertiesEmpty(t.properties) then None else Some(t));
    OnlyIdMinted(minted, sh, SetFrozen(sh, a, id, frozen), id);
  }

  lemma WipeMinted(minted: seq<C.Minted>, h: Host, sh: Shard, a: Address, id: bytes)
    requires RecordsMinted(minted, sh) && Wipe(h, sh, a, id).Ok?
    ensures RecordsMinted(minted, Wipe(h, sh, a, id).value) && MintedId(minted, id)
  {
    hide AddToLiquidity, MintedId, RecordsMinted, WipeKey;
    var removed, t := PutRecord(sh, a, id, None), FungibleRecord(sh, a, id);
    HeldMinted(minted, sh, a, id);
    SameRecordsMinted(minted, sh, removed);
    if h.env.flags.wipeLowersLiquidity {
      LiquidityMinted(minted, h.env, removed, WipeKey(id), t.kind, -t.value, false);
    }
  }

  // ---- deliveries ----

  lemma ReceiveOneMinted(minted: seq<C.Minted>, h: Host, sh: Shard, snd: Address, dst: Address, item: Wire.Received,
                         rwe: bool)
    requires RecordsMinted(minted, sh) && ReceiveOne(h, sh, snd, dst, item, rwe).Ok?
    requires MintedId(minted, ItemId(MultiMessage, item))
    ensures RecordsMinted(minted, ReceiveOne(h, sh, snd, dst, item, rwe).value)
  {
    hide AddNft, AddToBalance, MintedId, RecordsMinted, Id;
    if item.nonce > 0 {
      ArrivalMinted(minted, h, sh, snd, dst, Key(item.token, item.nonce), item.data, rwe);
    } else if item.token == BASE_TOKEN {
      SameRecordsMinted(minted, sh, ReceiveOne(h, sh, snd, dst, item, rwe).value);
    } else {
      NoNonceId(item.token);
      BalanceMinted(minted, h.env, sh, dst, item.token, item.data.value, rwe);
    }
  }

  lemma {:induction false} ReceiveAllMinted(minted: seq<C.Minted>, h: Host, sh: Shard, snd: Address, dst: Address,
                                            items: seq<Wire.Received>, rwe: bool)
    requires RecordsMinted(minted, sh) && ReceiveAll(h, sh, snd, dst, items, rwe).Ok?
    requires ItemsMinted(minted, MultiMessage, items)
    ensures RecordsMinted(minted, ReceiveAll(h, sh, snd, dst, items, rwe).value)
    decreases |items|
  {
    hide ReceiveOne, MintedId, RecordsMinted, ItemId;
    if |items| > 0 {
      var n := |items| - 1;
      ReceiveAllMinted(minted, h, sh, snd, dst, items[..n], rwe);
      ReceiveOneMinted(minted, h, ReceiveAll(h, sh, snd, dst, items[..n], rwe).value, snd, dst, items[n], rwe);
    }
  }

  lemma ReceiveMinted(minted: seq<C.Minted>, h: Host, sh: Shard, m: Message, rwe: bool)
    requires RecordsMinted(minted, sh) && ItemsMinted(minted, m.kind, m.items) && Receive(h, sh, m, rwe).Ok?
    ensures RecordsMinted(minted, Receive(h, sh, m, rwe).value)
  {
    hide ReceiveAll, AddNft, AddToBalance, MintedId, RecordsMinted, Id;
    if m.kind == MultiMessage {
      ReceiveAllMinted(minted, h, sh, m.sender, m.receiver, m.items, rwe);
    } else {
      var item := m.items[0];
      assert MintedId(minted, ItemId(m.kind, item));
      if m.kind == FungibleMessage {
        BalanceMinted(minted, h.env, sh, m.receiver, item.token, item.data.value, rwe);
      } else {
        ArrivalMinted(minted, h, sh, m.sender, m.receiver, Key(item.token, item.nonce), item.data, rwe);
      }
    }
  }

  // ---- one call ----

  lemma ExecuteMinted(minted: seq<C.Minted>, h: Host, sh: Shard, op: Op)
    requires !op.Deliver? && RecordsMinted(minted, sh) && Execute(h, sh, op).Ok? && Harmless(sh, op)
    requires op.Create? ==> MintedId(minted, Id(op.key))
    ensures var e := Execute(h, sh, op).value;
            RecordsMinted(minted, e.shard) && MessagesMinted(minted, e.messages) && IssuesMinted(minted, e.issued)
  {
    hide RecordsMinted, MintedId, ItemsMinted, SendFungible, SendNft, SendMulti, AddToBalance, CreateNft, AddQuantity, BurnNft,
         UpdateMetaData, SetFrozen, Wipe, Keys.IsNft, Id;
    match op {
      case TransferFungible(a, b, id, q, rwe) => SendFungibleMinted(minted, h, sh, a, b, id, q, rwe);
      case TransferNft(a, b, k, q, rwe) => SendNftMinted(minted, h, sh, a, b, k, q, rwe);
      case TransferMulti(a, b, list, rwe) => SendMultiMinted(minted, h, sh, a, b, list, rwe);
      case MintTokens(a, id, q, rwe) =>
        NotNftMinted(minted, id);
        BalanceMinted(minted, h.env, sh, a, id, q, rwe);
      case BurnTokens(a, id, q, rwe) => BalanceMinted(minted, h.env, sh, a, id, -(q as int), rwe);
      case Create(a, k, q, meta, rwe) => CreateMinted(minted, h, sh, a, k, q, meta, rwe);
      case AddMore(a, k, q, rwe) => AddQuantityMinted(minted, h, sh, a, k, q, rwe);
      case BurnSome(a, k, q, rwe) => BurnNftMinted(minted, h, sh, a, k, q, rwe);
      case Update(a, k, u, rwe) => UpdateMinted(minted, h, sh, a, k, u, rwe);
      case Freeze(a, id, frozen) => FreezeMinted(minted, sh, a, id, frozen);
      case WipeOut(a, id) => WipeMinted(minted, h, sh, a, id);
    }
  }

  // A ledger step keeps what was numbered, when what it creates was.
  lemma CallKeepsMinted(minted: seq<C.Minted>, net: Net, s: Step)
    requires NetMinted(minted, net) && Located(s.host, net) && Harmless(net.shards[s.host.env.selfShard], s.op)
    requires s.op.Create? ==> MintedId(minted, Id(s.op.key))
    ensures NetMinted(minted, Next(net, s))
  {
    hide Execute, Receive, RecordsMinted, ItemsMinted, MintedId, Harmless, Id;
    var sh := net.shards[s.host.env.selfShard];
    if Perform(s.host, net, s.op).Ok? {
      if s.op.Deliver? {
        ReceiveMinted(minted, s.host, sh, net.inFlight[s.op.index], s.op.rwe);
      } else {
        ExecuteMinted(minted, s.host, sh, s.op);
      }
    }
  }

  // ---- the next number is new ----

  lemma MoreMinted(minted: seq<C.Minted>, m: C.Minted, net: Net)
    requires NetMinted(minted, net)
    ensures NetMinted(minted + [m], net)
  {
    hide RecordAt, ItemId, Keys.NftId;
    assert forall id: bytes :: MintedId(minted, id) ==> MintedId(minted + [m], id);
  }

  lemma NextIsCount(s: C.State, granted: set<bytes>, c: C.Cell)
    requires C.AllInv(s, granted) && C.Allowed(s, C.Create(c)) && C.CreateNext(s.owners, c).Some?
    ensures C.CreateNext(s.owners, c) == Some(C.CountOf(s.minted, c.token) + 1)
    ensures C.CreateNext(s.owners, c).value < TWO64
  {
    assert C.Inv(s, c.token, c.token in granted);
    var p :| C.InvWith(s, c.token, p);
    C.HolderIsOwner(s.owners, c, C.OwnerAt(p));
    C.CountAtMost(s.minted, c.token);
  }

  lemma MintedAtMostCount(s: C.State, granted: set<bytes>, token: bytes, j: nat)
    requires C.AllInv(s, granted) && j < |s.minted| && s.minted[j].token == token
    ensures s.minted[j].nonce <= C.CountOf(s.minted, token)
  {
    assert C.Inv(s, token, token in granted);
    C.CountGrows(s.minted, j, |s.minted|, token);
    assert s.minted[..|s.minted|] == s.minted;
  }

  // No shard has a record of the item the create role gives out next.
  lemma NextIsNew(j: Joint, granted: set<bytes>, c: C.Cell, i: nat, a: Address)
    requires JointInv(j, granted) && C.Allowed(j.creators, C.Create(c)) && C.CreateNext(j.creators.owners, c).Some?
    requires Keys.ValidToken(c.token) && i < |j.net.shards|
    ensures var k := Key(c.token, C.CreateNext(j.creators.owners, c).value);
            && k.nonce > 0 && Keys.NftId(k.token, k.nonce, Id(k)) && Named(k)
            && RecordAt(j.net.shards[i], a, Id(k)).None?
  {
    hide C.AllInv, C.Inv, Keys.ValidToken, MessagesMinted, IssuesMinted;
    var s := j.creators;
    NextIsCount(s, granted, c);
    var k := Key(c.token, C.CreateNext(s.owners, c).value);
    assert Keys.NftId(k.token, k.nonce, Id(k));
    if RecordAt(j.net.shards[i], a, Id(k)).Some? {
      HeldMinted(s.minted, j.net.shards[i], a, Id(k));
      var m :| 0 <= m < |s.minted| && s.minted[m] == C.Minted(k.token, k.nonce);
      MintedAtMostCount(s, granted, c.token, m);
    }
  }

  lemma NumberedId(minted: seq<C.Minted>, token: bytes, nonce: nat)
    requires Keys.NftId(token, nonce, Id(Key(token, nonce))) && C.Minted(token, nonce) in minted
    ensures MintedId(minted, Id(Key(token, nonce)))
  {
    hide Id;
    var id := Id(Key(token, nonce));
    forall t: bytes, n: nat | Keys.NftId(t, n, id)
      ensures C.Minted(t, n) in minted
    {
      Keys.NftIdUnique(id, token, nonce, t, n);
    }
  }

  // ---- one joint step ----

  lemma CreateItemKeeps(j: Joint, s: JointStep, granted: set<bytes>)
    requires JointInv(j, granted) && Permitted(j, s) && s.CreateItem?
    ensures JointInv(NextJoint(j, s), granted)
    ensures CallOf(j, s).Some? ==> Admissible(j.net, CallOf(j, s).value)
  {
    hide C.AllInv, C.Allowed, NetMinted, Perform, Keys.ValidToken, Keys.NftId, MintedId, Id, RecordAt;
    var h, c := s.host, s.cell;
    if CallOf(j, s).Some? && Located(h, j.net) {
      var n := C.CreateNext(j.creators.owners, c).value;
      NextIsNew(j, granted, c, h.env.selfShard, c.holder);
      NotHeld(j.net.shards[h.env.selfShard], c.holder, Id(Key(c.token, n)));
      if Perform(h, j.net, CallOf(j, s).value.op).Ok? {
        var minted := j.creators.minted + [C.Minted(c.token, n)];
        C.StepKeeps(j.creators, C.Create(c), granted);
        MoreMinted(j.creators.minted, C.Minted(c.token, n), j.net);
        NumberedId(minted, c.token, n);
        CallKeepsMinted(minted, j.net, CallOf(j, s).value);
      }
    }
  }

  lemma NotHeld(sh: Shard, a: Address, id: bytes)
    requires RecordAt(sh, a, id).None?
    ensures Holding(sh, a, Esdt(id)) == 0
  {
  }

  lemma JointStepKeeps(j: Joint, s: JointStep, granted: set<bytes>)
    requires JointInv(j, granted) && Permitted(j, s)
    ensures JointInv(NextJoint(j, s), granted)
    ensures CallOf(j, s).Some? ==> Admissible(j.net, CallOf(j, s).value)
  {
    hide C.AllInv, C.Allowed, NetMinted, Perform, Harmless;
    match s {
      case Call(step) =>
        if Located(step.host, j.net) {
          CallKeepsMinted(j.creators.minted, j.net, step);
        }
      case CreateItem(_, _, _, _, _) => CreateItemKeeps(j, s, granted);
      case PassRole(move) => C.StepKeeps(j.creators, move, granted);
    }
  }

  // ---- runs ----

  // The ledger's part of a joint run is a run of the ledger.
  lemma {:induction false} CallsRun(j: Joint, steps: seq<JointStep>)
    ensures Run(j.net, CallsOf(j, steps)) == RunJoint(j, steps).net
  {
    hide Next, C.Next, Perform;
    if |steps| > 0 {
      var n := |steps| - 1;
      CallsRun(j, steps[..n]);
      var front, call := CallsOf(j, steps[..n]), CallOf(RunJoint(j, steps[..n]), steps[n]);
      if call.Some? {
        assert (front + [call.value])[..|front|] == front;
        JointNext(RunJoint(j, steps[..n]), steps[n]);
      } else {
        assert front + [] == front;
      }
    }
  }

  lemma JointNext(j: Joint, s: JointStep)
    ensures NextJoint(j, s).net == if CallOf(j, s).Some? then Next(j.net, CallOf(j, s).value) else j.net
  {
    hide Execute, Receive;
  }

  // Over any joint run: every record and every item on its way is of an NFT
  // that was numbered, nothing was issued of any other, and so each create the
  // ledger sees is of an NFT its holder has none of.
  lemma {:induction false} JointRunKeeps(j: Joint, steps: seq<JointStep>, granted: set<bytes>)
    requires JointInv(j, granted) && AllPermitted(j, steps)
    ensures JointInv(RunJoint(j, steps), granted)
    ensures AllAdmissible(j.net, CallsOf(j, steps))
  {
    hide JointInv, Permitted, NextJoint, Admissible, Run;
    if |steps| > 0 {
      var n := |steps| - 1;
      assert forall i :: 0 <= i < n ==> steps[..n][..i] == steps[..i];
      JointRunKeeps(j, steps[..n], granted);
      JointStepKeeps(RunJoint(j, steps[..n]), steps[n], granted);
      CallsRun(j, steps[..n]);
      OneMoreCall(j, steps);
    }
  }

  lemma OneMoreCall(j: Joint, steps: seq<JointStep>)
    requires |steps| > 0
    requires var n := |steps| - 1;
             var front := RunJoint(j, steps[..n]);
             && AllAdmissible(j.net, CallsOf(j, steps[..n])) && Run(j.net, CallsOf(j, steps[..n])) == front.net
             && (CallOf(front, steps[n]).Some? ==> Admissible(front.net, CallOf(front, steps[n]).value))
    ensures AllAdmissible(j.net, CallsOf(j, steps))
  {
    hide RunJoint, Run, Admissible, CallOf;
    var front, all := CallsOf(j, steps[..|steps| - 1]), CallsOf(j, steps);
    forall i | 0 <= i < |all|
      ensures Admissible(Run(j.net, all[..i]), all[i])
    {
      assert all[..i] == front[..i];
      if i == |front| {
        assert front[..i] == front;
      }
    }
  }

  // Conservation over joint runs, with no condition on creates left.
  lemma JointRunConserves(j: Joint, steps: seq<JointStep>, granted: set<bytes>)
    requires JointInv(j, granted) && AllPermitted(j, steps) && WellFormed(j.net) && Backed(j.net)
    ensures WellFormed(RunJoint(j, steps).net) && Backed(RunJoint(j, steps).net)
  {
    hide JointInv, AllPermitted, WellFormed, Backed, AllAdmissible, Run, RunJoint, CallsOf;
    JointRunKeeps(j, steps, granted);
    CallsRun(j, steps);
    RunConserves(j.net, CallsOf(j, steps));
  }

  // What the liquidity theorem asks of a step, without its condition on
  // creates.
  ghost predicate Configured(shardOf: Address -> nat, j: Joint, s: JointStep) {
    match s
    case Call(step) => Guarded(shardOf, j.net, step)
    case CreateItem(h, _, _, _, _) => Located(h, j.net) && Config(h.env.flags) && h.shardOf == shardOf
    case PassRole(_) => true
  }

  ghost predicate AllConfigured(shardOf: Address -> nat, j: Joint, steps: seq<JointStep>) {
    forall i :: 0 <= i < |steps| ==> Configured(shardOf, RunJoint(j, steps[..i]), steps[i])
  }

  lemma StepGuarded(shardOf: Address -> nat, j: Joint, s: JointStep, granted: set<bytes>)
    requires JointInv(j, granted) && Permitted(j, s) && Configured(shardOf, j, s)
    ensures CallOf(j, s).Some? ==> Guarded(shardOf, j.net, CallOf(j, s).value)
  {
    hide C.AllInv, C.Allowed, NetMinted, Keys.ValidToken, Keys.NftId, Named, MintedId, Id, Admissible, Perform, JointInv;
    if s.CreateItem? && CallOf(j, s).Some? {
      CreateItemKeeps(j, s, granted);
      NextIsNew(j, granted, s.cell, s.host.env.selfShard, s.cell.holder);
    }
  }

  lemma {:induction false} CallsGuarded(shardOf: Address -> nat, j: Joint, steps: seq<JointStep>, granted: set<bytes>)
    requires JointInv(j, granted) && AllPermitted(j, steps) && AllConfigured(shardOf, j, steps)
    ensures AllGuarded(shardOf, j.net, CallsOf(j, steps))
  {
    hide JointInv, Permitted, Configured, NextJoint, Guarded, Run;
    if |steps| > 0 {
      var n := |steps| - 1;
      assert forall i :: 0 <= i < n ==> steps[..n][..i] == steps[..i];
      CallsGuarded(shardOf, j, steps[..n], granted);
      JointRunKeeps(j, steps[..n], granted);
      StepGuarded(shardOf, RunJoint(j, steps[..n]), steps[n], granted);
      CallsRun(j, steps[..n]);
      OneMoreGuarded(shardOf, j, steps);
    }
  }

  lemma OneMoreGuarded(shardOf: Address -> nat, j: Joint, steps: seq<JointStep>)
    requires |steps| > 0
    requires var n := |steps| - 1;
             var front := RunJoint(j, steps[..n]);
             && AllGuarded(shardOf, j.net, CallsOf(j, steps[..n])) && Run(j.net, CallsOf(j, steps[..n])) == front.net
             && (CallOf(front, steps[n]).Some? ==> Guarded(shardOf, front.net, CallOf(front, steps[n]).value))
    ensures AllGuarded(shardOf, j.net, CallsOf(j, steps))
  {
    hide RunJoint, Run, Guarded, CallOf;
    var front, all := CallsOf(j, steps[..|steps| - 1]), CallsOf(j, steps);
    forall i | 0 <= i < |all|
      ensures Guarded(shardOf, Run(j.net, all[..i]), all[i])
    {
      assert all[..i] == front[..i];
      if i == |front| {
        assert front[..i] == front;
      }
    }
  }

  // And every liquidity total stays right over joint runs.
  lemma JointRunCovers(shardOf: Address -> nat, j: Joint, steps: seq<JointStep>, granted: set<bytes>)
    requires JointInv(j, granted) && AllPermitted(j, steps) && AllConfigured(shardOf, j, steps) && NetCovered(shardOf, j.net)
    ensures NetCovered(shardOf, RunJoint(j, steps).net)
  {
    hide JointInv, AllPermitted, AllConfigured, NetCovered, AllGuarded, Run, RunJoint, CallsOf;
    CallsGuarded(shardOf, j, steps, granted);
    CallsRun(j, steps);
    RunCovers(shardOf, j.net, CallsOf(j, steps));
  }

  // A joint run may start with empty shards and the create role granted once.
  lemma JointStart(shards: nat, grants: map<bytes, Address>, s: C.State)
    requires s.inFlight == [] && s.minted == [] && s.owners.nonces == map[]
    requires forall c: C.Cell ::
               C.RolesOf(s.owners, c)
               == if c.token in grants && grants[c.token] == c.holder then [C.Roles.NFT_CREATE] else []
    ensures JointInv(Joint(Genesis(shards), s), grants.Keys)
    ensures forall shardOf :: NetCovered(shardOf, Genesis(shards))
    ensures WellFormed(Genesis(shards)) && Backed(Genesis(shards))
  {
    hide C.AllInv, WellFormed, Backed;
    C.GrantedOnce(grants, s);
    GenesisCovered(_ => 0, shards);
    forall shardOf
      ensures NetCovered(shardOf, Genesis(shards))
    {
      GenesisCovered(shardOf, shards);
    }
  }
}
