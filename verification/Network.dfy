// Several shards and the messages between them: one step is one built-in
// function call on one shard, or the delivery of one message.
module Network {
  import opened Bytes
  import opened Tokens
  import opened EsdtStorage
  import opened MetaDataMerge
  import opened Ledger
  import Wire = TransferWire

  // The base token, or whatever is stored under one identifier.
  datatype Asset = Base | Esdt(id: bytes)

  datatype MessageKind = FungibleMessage | NftMessage | MultiMessage

  datatype Message = Message(kind: MessageKind, sender: Address, receiver: Address, items: seq<Wire.Received>)

  // What was ever minted (positive) or burned and wiped (negative).
  datatype Issue = Issue(asset: Asset, amount: int)

  datatype Net = Net(shards: seq<Shard>, inFlight: seq<Message>, issued: seq<Issue>)

  datatype Op =
    | TransferFungible(sender: Address, receiver: Address, id: bytes, amount: nat, rwe: bool)
    | TransferNft(sender: Address, receiver: Address, key: Key, amount: nat, rwe: bool)
    | TransferMulti(sender: Address, receiver: Address, list: seq<Wire.Transfer>, rwe: bool)
    | MintTokens(holder: Address, id: bytes, amount: nat, rwe: bool)
    | BurnTokens(holder: Address, id: bytes, amount: nat, rwe: bool)
    | Create(holder: Address, key: Key, amount: nat, meta: MetaData, rwe: bool)
    | AddMore(holder: Address, key: Key, amount: nat, rwe: bool)
    | BurnSome(holder: Address, key: Key, amount: nat, rwe: bool)
    | Update(holder: Address, key: Key, update: Update, rwe: bool)
    | Freeze(holder: Address, id: bytes, frozen: bool)
    | WipeOut(holder: Address, id: bytes)
    | Deliver(index: nat, rwe: bool)

  datatype Effect = Effect(shard: Shard, messages: seq<Message>, issued: seq<Issue>)

  function Issuing(sh: Shard, id: bytes, amount: int): Effect {
    Effect(sh, [], [Issue(Esdt(id), amount)])
  }

  function Sent(kind: MessageKind, op: Op, s: Sending): Effect
    requires op.TransferFungible? || op.TransferNft? || op.TransferMulti?
  {
    Effect(s.shard, if |s.items| == 0 then [] else [Message(kind, op.sender, op.receiver, s.items)], [])
  }

  // A call on the shard of its sender or holder.
  function Execute(h: Host, sh: Shard, op: Op): Result<Effect>
    requires !op.Deliver?
  {
    match op
    case TransferFungible(a, b, id, q, rwe) => var s :- SendFungible(h, sh, a, b, id, q, rwe); Ok(Sent(FungibleMessage, op, s))
    case TransferNft(a, b, k, q, rwe) => var s :- SendNft(h, sh, a, b, k, q, rwe); Ok(Sent(NftMessage, op, s))
    case TransferMulti(a, b, list, rwe) => var s :- SendMulti(h, sh, a, b, list, rwe); Ok(Sent(MultiMessage, op, s))
    case MintTokens(a, id, q, rwe) => var s :- Mint(h, sh, a, id, q, rwe); Ok(Issuing(s, id, q))
    case BurnTokens(a, id, q, rwe) => var s :- BurnFungible(h, sh, a, id, q, rwe); Ok(Issuing(s, id, -(q as int)))
    case Create(a, k, q, meta, rwe) => var s :- CreateNft(h, sh, a, k, q, meta, rwe); Ok(Issuing(s, Id(k), q))
    case AddMore(a, k, q, rwe) => var s :- AddQuantity(h, sh, a, k, q, rwe); Ok(Issuing(s, Id(k), q))
    case BurnSome(a, k, q, rwe) => var s :- BurnNft(h, sh, a, k, q, rwe); Ok(Issuing(s, Id(k), -(q as int)))
    case Update(a, k, u, rwe) => var s :- UpdateMetaData(h, sh, a, k, u, rwe); Ok(Effect(s, [], []))
    case Freeze(a, id, frozen) => Ok(Effect(SetFrozen(sh, a, id, frozen), [], []))
    case WipeOut(a, id) => var s :- Wipe(h, sh, a, id); Ok(Issuing(s, id, -FungibleRecord(sh, a, id).value))
  }

  function Receive(h: Host, sh: Shard, m: Message, rwe: bool): Result<Shard> {
    if m.kind == MultiMessage then ReceiveMulti(h, sh, m.sender, m.receiver, m.items, rwe)
    else if |m.items| != 1 then Fail(InvalidArguments)
    else if m.kind == FungibleMessage then ReceiveFungible(h, sh, m.receiver, m.items[0], rwe)
    else ReceiveNft(h, sh, m.sender, m.receiver, m.items[0], rwe)
  }

  // Where a call happens: the host's own shard, which the net must have.
  predicate Located(h: Host, net: Net) {
    h.env.selfShard < |net.shards|
  }

  function Perform(h: Host, net: Net, op: Op): Result<Net>
    requires Located(h, net)
  {
    var i := h.env.selfShard;
    if op.Deliver? then
      if op.index >= |net.inFlight| then Fail(InvalidArguments)
      else
        var sh :- Receive(h, net.shards[i], net.inFlight[op.index], op.rwe);
        Ok(net.(shards := net.shards[i := sh], inFlight := net.inFlight[..op.index] + net.inFlight[op.index + 1..]))
    else
      var e :- Execute(h, net.shards[i], op);
      Ok(Net(net.shards[i := e.shard], net.inFlight + e.messages, net.issued + e.issued))
  }

  datatype Step = Step(host: Host, op: Op)

  // The host rolls a failed call back.
  function Next(net: Net, s: Step): Net {
    if !Located(s.host, net) then net
    else
      var r := Perform(s.host, net, s.op);
      if r.Ok? then r.value else net
  }

  function Run(net: Net, steps: seq<Step>): Net {
    if |steps| == 0 then net else Next(Run(net, steps[..|steps| - 1]), steps[|steps| - 1])
  }

  // Nothing was ever issued under this identifier.
  predicate Fresh(net: Net, id: bytes) {
    forall i :: 0 <= i < |net.issued| ==> net.issued[i].asset != Esdt(id)
  }
}
