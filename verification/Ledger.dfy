// The built-in functions that move, create and destroy tokens on one shard.
module Ledger {
  import opened Bytes
  import opened Tokens
  import opened EsdtStorage
  import opened MetaDataMerge
  import Keys
  import Wire = TransferWire

  // "EGLD-000000"
  const BASE_TOKEN: bytes := [0x45, 0x47, 0x4C, 0x44, 0x2D, 0x30, 0x30, 0x30, 0x30, 0x30, 0x30]
  const METACHAIN: nat := 0xFFFF_FFFF

  datatype Role =
    | LocalMint | LocalBurn | NFTCreate | NFTAddQuantity | NFTBurn | NFTAddURI | NFTUpdateAttributes
    | MetaDataRecreate | NFTUpdate | ModifyCreator | ModifyRoyalties | SetNewURI | Transferring

  // What one call asks of the other components of its shard.
  datatype Host = Host(
    env: Env, shardOf: Address -> nat, vc: VersionCodec, round: nat,
    hasRole: (Address, bytes, Role) -> bool, burnForAll: bytes -> bool,
    limited: bytes -> bool, transferRoleAddress: (Address, Address, bytes) -> bool,
    payable: Address -> bool)

  predicate Here(h: Host, a: Address) {
    h.shardOf(a) == h.env.selfShard
  }

  predicate HasDynamicRole(h: Host, a: Address, token: bytes) {
    || h.hasRole(a, token, MetaDataRecreate) || h.hasRole(a, token, NFTUpdate)
    || h.hasRole(a, token, ModifyCreator) || h.hasRole(a, token, ModifyRoyalties) || h.hasRole(a, token, SetNewURI)
    || (h.env.flags.dynamicEsdt && (h.hasRole(a, token, NFTAddURI) || h.hasRole(a, token, NFTUpdateAttributes)))
  }

  predicate KeepsMetaData(h: Host, a: Address, token: bytes, kind: TokenType) {
    kind == DynamicSFT || kind == DynamicMeta || HasDynamicRole(h, a, token)
  }

  predicate TransferAllowed(h: Host, snd: Address, dst: Address, dstHere: bool, token: bytes, rwe: bool) {
    || rwe || !h.limited(token) || h.transferRoleAddress(snd, dst, token)
    || h.hasRole(snd, token, Transferring) || (dstHere && h.hasRole(dst, token, Transferring))
  }

  // ---- fungible balances ----

  function FungibleRecord(sh: Shard, a: Address, id: bytes): Token {
    var t := RecordAt(sh, a, id);
    if t.None? then NOTHING else t.value
  }

  predicate PropertiesEmpty(properties: bytes) {
    forall i :: 0 <= i < |properties| ==> properties[i] == 0
  }

  // saveESDTData: a zero balance without properties is removed.
  function PutFungible(sh: Shard, a: Address, id: bytes, t: Token): Shard {
    PutRecord(sh, a, id, if t.value == 0 && PropertiesEmpty(t.properties) then None else Some(t))
  }

  function AddToBalance(env: Env, sh: Shard, a: Address, id: bytes, delta: int, rwe: bool): Result<Shard> {
    var t := FungibleRecord(sh, a, id);
    if t.kind != Fungible then Fail(OnlyFungible)
    else
      var blocked := FreezeAndPause(env, a, id, t, rwe);
      if blocked.Some? then Fail(blocked.value)
      else if t.value + delta < 0 then Fail(InsufficientFunds)
      else Ok(PutFungible(sh, a, id, t.(value := t.value + delta)))
  }

  function PutBalance(sh: Shard, a: Address, balance: int): Shard {
    PutAccount(sh, a, AccountAt(sh, a).(balance := balance))
  }

  // ---- arrival of an NFT ----

  // What the destination knows about the token: its own record, or the shard's
  // metadata when it holds none.
  function Known(sh: Shard, k: Key, cur: Read, kind: TokenType): Token {
    if cur.isNew && !MetaDataOnUserAccount(kind) && SystemAt(sh, Id(k)).Some?
    then cur.token.(meta := SystemAt(sh, Id(k)).value.meta, reserved := SystemAt(sh, Id(k)).value.reserved) else cur.token
  }

  // getLatestMetaData: the arriving token with its metadata merged.
  function MergedToken(h: Host, known: Token, t: Token): Option<Token> {
    var m := MergedInto(h.vc, h.env.flags.dynamicEsdt, known, t);
    if m.None? then None else Some(t.(meta := m.value.meta, reserved := m.value.reserved))
  }

  function AddNft(h: Host, sh: Shard, snd: Address, dst: Address, k: Key, t: Token, rwe: bool): Result<Shard> {
    var cur := OnDestination(h.env, sh, dst, k);
    var blocked := FreezeAndPause(h.env, dst, k.token, cur.token, rwe);
    if blocked.Some? then Fail(blocked.value)
    else
      var latest := MergedToken(h, Known(sh, k, cur, t.kind), t.(value := t.value + cur.token.value));
      if latest.None? then Fail(BadMetaData)
      else
        var saved :- SaveToken(h.env, sh, h.shardOf(snd), dst, k, latest.value, SaveArgs(false, rwe, false));
        if h.shardOf(snd) == h.shardOf(dst) then Ok(saved.shard)
        else AddToLiquidity(h.env, saved.shard, k, saved.kind, t.value, false)
  }

  // ---- leaving a holder ----

  datatype Taken = Taken(shard: Shard, token: Token)

  // The holder's record is saved with q less; the token taken carries q.
  function TakeNft(h: Host, sh: Shard, a: Address, k: Key, t: Token, q: int, rwe: bool): Result<Taken> {
    var saved :- SaveToken(h.env, sh, h.shardOf(a), a, k, t.(value := t.value - q), SaveArgs(false, rwe, false));
    Ok(Taken(saved.shard, t.(kind := saved.kind, value := q)))
  }

  // Onwards from the holder: into the receiver's account, or out of the shard.
  function HandOver(h: Host, sh: Shard, snd: Address, dst: Address, k: Key, t: Token, rwe: bool): Result<Shard> {
    if Here(h, dst) then AddNft(h, sh, snd, dst, k, t, rwe)
    else AddToLiquidity(h.env, sh, k, t.kind, -t.value, KeepsMetaData(h, snd, k.token, t.kind))
  }

  predicate BadDestination(h: Host, snd: Address, dst: Address) {
    |dst| != |snd| || dst == snd
  }

  // WasAlreadySentToDestinationShardAndUpdateState
  datatype Marked = Marked(alreadySent: bool, shard: Shard)

  function Padded(h: Host, properties: bytes): bytes {
    if |properties| < h.env.shards then properties + seq(h.env.shards - |properties|, i => 0) else properties
  }

  function MarkSent(h: Host, sh: Shard, k: Key, dst: Address): Result<Marked> {
    if !h.env.flags.saveToSystemAccount then Ok(Marked(false, sh))
    else if k.nonce == 0 || Here(h, dst) then Ok(Marked(true, sh))
    else if h.env.flags.sendAlways then Ok(Marked(false, sh))
    else if h.shardOf(dst) == METACHAIN then Ok(Marked(true, sh))
    else
      var s := SystemAt(sh, Id(k));
      if s.None? then Ok(Marked(false, sh))
      else
        var p, d := Padded(h, s.value.properties), h.shardOf(dst);
        if d >= |p| then Fail(InvalidArguments)
        else if p[d] > 0 then Ok(Marked(true, sh))
        else Ok(Marked(false, PutSystem(sh, Id(k), Some(s.value.(properties := p[d := 1])))))
  }

  // ---- single NFT transfer ----

  datatype Sending = Sending(shard: Shard, items: seq<Wire.Received>)

  function AsItem(k: Key, t: Token, marshalled: bool): Wire.Received {
    Wire.Received(k.token, k.nonce,
                  if marshalled then t
                  else NOTHING.(value := t.value, kind := if k.nonce > 0 then NonFungible else Fungible))
  }

  function SendNft(h: Host, sh: Shard, snd: Address, dst: Address, k: Key, q: nat, rwe: bool): Result<Sending> {
    if BadDestination(h, snd, dst) then Fail(InvalidArguments)
    else if h.shardOf(dst) == METACHAIN then Fail(InvalidReceiver)
    else
      var t :- OnSender(h.env, sh, snd, k);
      if k.nonce == 0 then Fail(NoMetadata)
      else if t.value < q || (h.env.flags.checkTransfer && q == 0) then Fail(InvalidQuantity)
      else
        var taken :- TakeNft(h, sh, snd, k, t, q, rwe);
        if Here(h, dst) && !h.payable(dst) then Fail(NotPayable)
        else
          var after :- HandOver(h, taken.shard, snd, dst, k, taken.token, rwe);
          if !TransferAllowed(h, snd, dst, Here(h, dst), k.token, rwe) then Fail(TransferNotAllowed)
          else if Here(h, dst) then Ok(Sending(after, []))
          else
            var marked :- MarkSent(h, after, k, dst);
            Ok(Sending(marked.shard, [AsItem(k, taken.token, !marked.alreadySent || q == 1)]))
  }

  function ReceiveNft(h: Host, sh: Shard, snd: Address, dst: Address, item: Wire.Received, rwe: bool): Result<Shard> {
    if !h.payable(dst) then Fail(NotPayable)
    else AddNft(h, sh, snd, dst, Key(item.token, item.nonce), item.data, rwe)
  }

  // ---- multi transfer, sender shard ----

  function MoveBaseToken(h: Host, sh: Shard, snd: Address, dst: Address, tr: Wire.Transfer): Result<Taken> {
    if !h.env.flags.baseTokenInMultiTransfer then Fail(InsufficientFunds)
    else if tr.nonce != 0 then Fail(InvalidNonce)
    else if AccountAt(sh, snd).balance < tr.value then Fail(InsufficientFunds)
    else
      var debited := PutBalance(sh, snd, AccountAt(sh, snd).balance - tr.value);
      var after := if Here(h, dst) then PutBalance(debited, dst, AccountAt(debited, dst).balance + tr.value) else debited;
      Ok(Taken(after, NOTHING.(value := tr.value)))
  }

  function SendOne(h: Host, sh: Shard, snd: Address, dst: Address, tr: Wire.Transfer, rwe: bool): Result<Taken> {
    if tr.value == 0 then Fail(InvalidQuantity)
    else if tr.token == BASE_TOKEN then MoveBaseToken(h, sh, snd, dst, tr)
    else
      var k := Key(tr.token, tr.nonce);
      var t :- OnSender(h.env, sh, snd, k);
      if t.value < tr.value then Fail(InsufficientFunds)
      else
        var taken :- TakeNft(h, sh, snd, k, t, tr.value, rwe);
        if !TransferAllowed(h, snd, dst, Here(h, dst), tr.token, rwe) then Fail(TransferNotAllowed)
        else
          var after :- HandOver(h, taken.shard, snd, dst, k, taken.token, rwe);
          Ok(Taken(after, taken.token))
  }

  datatype TakenAll = TakenAll(shard: Shard, tokens: seq<Token>)

  function SendAll(h: Host, sh: Shard, snd: Address, dst: Address, list: seq<Wire.Transfer>, rwe: bool)
    : (r: Result<TakenAll>)
    ensures r.Ok? ==> |r.value.tokens| == |list|
  {
    if |list| == 0 then Ok(TakenAll(sh, []))
    else
      var front :- SendAll(h, sh, snd, dst, list[..|list| - 1], rwe);
      var last :- SendOne(h, front.shard, snd, dst, list[|list| - 1], rwe);
      Ok(TakenAll(last.shard, front.tokens + [last.token]))
  }

  // The destination shard gets each token marshalled, or only its amount.
  function BuildItems(h: Host, sh: Shard, dst: Address, list: seq<Wire.Transfer>,
                      tokens: seq<Token>): (r: Result<Sending>)
    requires |tokens| == |list|
    ensures r.Ok? ==> |r.value.items| == |list|
  {
    if |list| == 0 then Ok(Sending(sh, []))
    else
      var n := |list| - 1;
      var front :- BuildItems(h, sh, dst, list[..n], tokens[..n]);
      var tr := list[n];
      if tr.nonce == 0 then
        Ok(Sending(front.shard, front.items + [Wire.AsReceived(Wire.Sent(tr, tokens[n], true))]))
      else
        var marked :- MarkSent(h, front.shard, Key(tr.token, tr.nonce), dst);
        Ok(Sending(marked.shard, front.items + [Wire.AsReceived(Wire.Sent(tr, tokens[n], marked.alreadySent))]))
  }

  function SendMulti(h: Host, sh: Shard, snd: Address, dst: Address, list: seq<Wire.Transfer>,
                     rwe: bool): Result<Sending> {
    if BadDestination(h, snd, dst) then Fail(InvalidArguments)
    else if h.shardOf(dst) == METACHAIN then Fail(InvalidReceiver)
    else if |list| == 0 then Fail(InvalidArguments)
    else if Here(h, dst) && !h.payable(dst) then Fail(NotPayable)
    else
      var moved :- SendAll(h, sh, snd, dst, list, rwe);
      if Here(h, dst) then Ok(Sending(moved.shard, [])) else BuildItems(h, moved.shard, dst, list, moved.tokens)
  }

  // ---- multi transfer, destination shard ----

  function ReceiveOne(h: Host, sh: Shard, snd: Address, dst: Address, item: Wire.Received, rwe: bool): Result<Shard> {
    if item.nonce > 0 then AddNft(h, sh, snd, dst, Key(item.token, item.nonce), item.data, rwe)
    else if item.token == BASE_TOKEN then Ok(PutBalance(sh, dst, AccountAt(sh, dst).balance + item.data.value))
    else AddToBalance(h.env, sh, dst, item.token, item.data.value, rwe)
  }

  function ReceiveAll(h: Host, sh: Shard, snd: Address, dst: Address, items: seq<Wire.Received>,
                      rwe: bool): Result<Shard> {
    if |items| == 0 then Ok(sh)
    else
      var front :- ReceiveAll(h, sh, snd, dst, items[..|items| - 1], rwe);
      ReceiveOne(h, front, snd, dst, items[|items| - 1], rwe)
  }

  function ReceiveMulti(h: Host, sh: Shard, snd: Address, dst: Address, items: seq<Wire.Received>,
                        rwe: bool): Result<Shard> {
    if |items| == 0 then Fail(InvalidArguments)
    else if !h.payable(dst) then Fail(NotPayable)
    else ReceiveAll(h, sh, snd, dst, items, rwe)
  }

  // ---- fungible transfer ----

  function SendFungible(h: Host, sh: Shard, snd: Address, dst: Address, id: bytes, value: nat,
                        rwe: bool): Result<Sending> {
    if h.shardOf(dst) == METACHAIN then Fail(InvalidReceiver)
    else if value == 0 then Fail(InvalidQuantity)
    else if !TransferAllowed(h, snd, dst, Here(h, dst), id, rwe) then Fail(TransferNotAllowed)
    else
      var debited :- AddToBalance(h.env, sh, snd, id, -(value as int), rwe);
      if !Here(h, dst) then Ok(Sending(debited, [Wire.Received(id, 0, NOTHING.(value := value))]))
      else if !h.payable(dst) then Fail(NotPayable)
      else
        var credited :- AddToBalance(h.env, debited, dst, id, value, rwe);
        Ok(Sending(credited, []))
  }

  function ReceiveFungible(h: Host, sh: Shard, dst: Address, item: Wire.Received, rwe: bool): Result<Shard> {
    if item.data.value <= 0 then Fail(InvalidQuantity)
    else if !h.payable(dst) then Fail(NotPayable)
    else AddToBalance(h.env, sh, dst, item.token, item.data.value, rwe)
  }

  // ---- minting and burning ----

  function Mint(h: Host, sh: Shard, a: Address, id: bytes, value: nat, rwe: bool): Result<Shard> {
    if value == 0 then Fail(NegativeValue)
    else if !h.hasRole(a, id, LocalMint) then Fail(NotAllowed)
    else AddToBalance(h.env, sh, a, id, value, rwe)
  }

  function BurnFungible(h: Host, sh: Shard, a: Address, id: bytes, value: nat, rwe: bool): Result<Shard> {
    if value == 0 then Fail(NegativeValue)
    else if !h.burnForAll(id) && !h.hasRole(a, id, LocalBurn) then Fail(NotAllowed)
    else AddToBalance(h.env, sh, a, id, -(value as int), rwe)
  }

  function CreateNft(h: Host, sh: Shard, a: Address, k: Key, q: nat, meta: MetaData, rwe: bool): Result<Shard> {
    if !h.hasRole(a, k.token, NFTCreate) then Fail(NotAllowed)
    else if q == 0 then Fail(InvalidArguments)
    else if q > 1 && !h.hasRole(a, k.token, NFTAddQuantity) then Fail(NotAllowed)
    else
      var kind := if h.env.flags.dynamicEsdt then h.env.tokenType(k.token) else Some(NonFungible);
      if kind.None? then Fail(BadTokenType)
      else
        var t := Token(kind.value, q, Some(meta), [], None);
        var saved :- SaveToken(h.env, sh, h.shardOf(a), a, k, t, SaveArgs(true, rwe, false));
        AddToLiquidity(h.env, saved.shard, k, saved.kind, q, false)
  }

  function AddQuantity(h: Host, sh: Shard, a: Address, k: Key, q: nat, rwe: bool): Result<Shard> {
    if !h.hasRole(a, k.token, NFTAddQuantity) then Fail(NotAllowed)
    else
      var t :- OnSender(h.env, sh, a, k);
      if k.nonce == 0 then Fail(NoMetadata)
      else
        var saved :- SaveToken(h.env, sh, h.shardOf(a), a, k, t.(value := t.value + q), SaveArgs(false, rwe, false));
        AddToLiquidity(h.env, saved.shard, k, saved.kind, q, false)
  }

  function BurnNft(h: Host, sh: Shard, a: Address, k: Key, q: nat, rwe: bool): Result<Shard> {
    if !h.burnForAll(k.token) && !h.hasRole(a, k.token, NFTBurn) then Fail(NotAllowed)
    else
      var t :- OnSender(h.env, sh, a, k);
      if k.nonce == 0 then Fail(NoMetadata)
      else if t.value < q then Fail(InvalidQuantity)
      else
        var taken :- TakeNft(h, sh, a, k, t, q, rwe);
        AddToLiquidity(h.env, taken.shard, k, taken.token.kind, -(q as int), false)
  }

  // ---- metadata, freezing and wiping ----

  datatype Update = AddUris(uris: seq<bytes>) | SetAttributes(attributes: bytes)

  function UpdateMetaData(h: Host, sh: Shard, a: Address, k: Key, u: Update, rwe: bool): Result<Shard> {
    if !h.hasRole(a, k.token, if u.AddUris? then NFTAddURI else NFTUpdateAttributes) then Fail(NotAllowed)
    else if k.nonce == 0 then Fail(NoMetadata)
    else
      var t :- OnSender(h.env, sh, a, k);
      var v := VersionOf(h.vc, h.env.flags.dynamicEsdt, t.reserved);
      if v.None? || t.meta.None? then Fail(BadMetaData)
      else
        var meta := match u
          case AddUris(uris) => t.meta.value.(uris := t.meta.value.uris + uris)
          case SetAttributes(attributes) => t.meta.value.(attributes := attributes);
        var versions := match u
          case AddUris(_) => v.value.versions.(uris := h.round)
          case SetAttributes(_) => v.value.versions.(attributes := h.round);
        var reserved := if h.env.flags.dynamicEsdt then Some(h.vc.marshal(versions)) else t.reserved;
        var updated := t.(meta := Some(meta), reserved := reserved);
        var saved :- SaveToken(h.env, sh, h.shardOf(a), a, k, updated, SaveArgs(true, rwe, true));
        Ok(saved.shard)
  }

  // Two bytes, of which only the frozen bit of the first is kept.
  function FrozenProperties(frozen: bool): bytes {
    [if frozen then 1 else 0, 0]
  }

  function SetFrozen(sh: Shard, a: Address, id: bytes, frozen: bool): Shard {
    var t := FungibleRecord(sh, a, id);
    PutFungible(sh, a, id, t.(properties := FrozenProperties(frozen)))
  }

  // The liquidity key is the one read back from the wipe call's argument.
  function WipeKey(id: bytes): Key {
    var e := Keys.Extract(id);
    Key(e.identifier, e.nonce)
  }

  function Wipe(h: Host, sh: Shard, a: Address, id: bytes): Result<Shard> {
    var t := FungibleRecord(sh, a, id);
    if !Frozen(t.properties) then Fail(NotFrozen)
    else
      var removed := PutRecord(sh, a, id, None);
      if !h.env.flags.wipeLowersLiquidity then Ok(removed)
      else AddToLiquidity(h.env, removed, WipeKey(id), t.kind, -t.value, false)
  }

  // A frozen account can neither send nor receive the token, as NFT or as
  // fungible balance; unless the call returns tokens after an error.
  lemma FreezeBlocks(h: Host, sh: Shard, a: Address, k: Key, other: Address, t: Token, q: int)
    requires a != h.env.esdtAddress
    ensures var frozen := SetFrozen(sh, a, Id(k), true);
            && AddNft(h, frozen, other, a, k, t, false) == Fail(FrozenForAccount)
            && OnSender(h.env, frozen, a, k).Ok?
            && TakeNft(h, frozen, a, k, OnSender(h.env, frozen, a, k).value, q, false) == Fail(FrozenForAccount)
            && AddToBalance(h.env, frozen, a, Id(k), q, false).Fail?
  {
    var frozen := SetFrozen(sh, a, Id(k), true);
    assert FrozenProperties(true)[0] != 0;
    assert RecordAt(frozen, a, Id(k)) == Some(FungibleRecord(sh, a, Id(k)).(properties := FrozenProperties(true)));
  }

  // Whether the next query will answer that the destination has the metadata.
  predicate Told(h: Host, sh: Shard, k: Key, dst: Address) {
    && h.env.flags.saveToSystemAccount
    && (k.nonce == 0 || Here(h, dst)
        || (!h.env.flags.sendAlways && (h.shardOf(dst) == METACHAIN || SystemAt(sh, Id(k)).Some?)))
  }

  // A query changes at most the token's list of informed shards: no account,
  // no other entry, nothing else of this one. Asked again, the answer is that
  // the shard has the metadata exactly when such a list is kept, and nothing
  // changes any more.
  ghost predicate Remembers(h: Host, before: Shard, after: Shard, k: Key, dst: Address) {
    && after.accounts == before.accounts
    && (forall id: bytes :: id != Id(k) ==> SystemAt(after, id) == SystemAt(before, id))
    && (SystemAt(before, Id(k)).None? <==> SystemAt(after, Id(k)).None?)
    && (SystemAt(before, Id(k)).Some? ==>
          var was, now := SystemAt(before, Id(k)).value, SystemAt(after, Id(k)).value;
          now == was.(properties := now.properties))
    && MarkSent(h, after, k, dst) == Ok(Marked(Told(h, before, k, dst), after))
  }

  lemma MarkIsRemembered(h: Host, sh: Shard, k: Key, dst: Address)
    ensures var r := MarkSent(h, sh, k, dst); r.Ok? ==> Remembers(h, sh, r.value.shard, k, dst)
  {
    hide Id;
  }

  // ---- a list fails with its first item that fails ----

  lemma SendAllPrefix(h: Host, sh: Shard, snd: Address, dst: Address, list: seq<Wire.Transfer>, k: nat, rwe: bool)
    requires k <= |list| && SendAll(h, sh, snd, dst, list[..k], rwe).Fail?
    ensures SendAll(h, sh, snd, dst, list, rwe) == SendAll(h, sh, snd, dst, list[..k], rwe)
    decreases |list|
  {
    if k < |list| {
      assert list[..|list| - 1][..k] == list[..k];
      SendAllPrefix(h, sh, snd, dst, list[..|list| - 1], k, rwe);
    } else {
      assert list[..k] == list;
    }
  }

  lemma BuildItemsPrefix(h: Host, sh: Shard, dst: Address, list: seq<Wire.Transfer>, tokens: seq<Token>, k: nat)
    requires k <= |list| == |tokens| && BuildItems(h, sh, dst, list[..k], tokens[..k]).Fail?
    ensures BuildItems(h, sh, dst, list, tokens) == BuildItems(h, sh, dst, list[..k], tokens[..k])
    decreases |list|
  {
    var n := |list| - 1;
    if k < |list| {
      assert list[..n][..k] == list[..k] && tokens[..n][..k] == tokens[..k];
      BuildItemsPrefix(h, sh, dst, list[..n], tokens[..n], k);
    } else {
      assert list[..k] == list && tokens[..k] == tokens;
    }
  }

  lemma ReceiveAllPrefix(h: Host, sh: Shard, snd: Address, dst: Address, items: seq<Wire.Received>, k: nat, rwe: bool)
    requires k <= |items| && ReceiveAll(h, sh, snd, dst, items[..k], rwe).Fail?
    ensures ReceiveAll(h, sh, snd, dst, items, rwe) == ReceiveAll(h, sh, snd, dst, items[..k], rwe)
    decreases |items|
  {
    if k < |items| {
      assert items[..|items| - 1][..k] == items[..k];
      ReceiveAllPrefix(h, sh, snd, dst, items[..|items| - 1], k, rwe);
    } else {
      assert items[..k] == items;
    }
  }
}
