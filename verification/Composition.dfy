// Where the ledger and the wire format meet: the ledger's messages are what
// the wire format carries.
module Composition {
  import opened Bytes
  import opened Tokens
  import opened EsdtStorage
  import opened Ledger
  import opened Network
  import opened Conservation
  import opened Liquidity
  import Wire = TransferWire

  // What the sender shard marshals when metadata is always sent: every NFT.
  function AllSent(list: seq<Wire.Transfer>, tokens: seq<Token>): (r: seq<Wire.Sent>)
    requires |tokens| == |list|
    ensures |r| == |list|
    ensures forall i :: 0 <= i < |list| ==> r[i] == Wire.Sent(list[i], tokens[i], list[i].nonce == 0)
  {
    if |list| == 0 then []
    else
      var n := |list| - 1;
      AllSent(list[..n], tokens[..n]) + [Wire.Sent(list[n], tokens[n], list[n].nonce == 0)]
  }

  lemma {:induction false} ItemsAsSent(h: Host, sh: Shard, dst: Address, list: seq<Wire.Transfer>, tokens: seq<Token>)
    requires Config(h.env.flags) && !Here(h, dst) && |tokens| == |list|
    ensures BuildItems(h, sh, dst, list, tokens) == Ok(Sending(sh, Wire.AllReceived(AllSent(list, tokens))))
    decreases |list|
  {
    if |list| > 0 {
      var n := |list| - 1;
      ItemsAsSent(h, sh, dst, list[..n], tokens[..n]);
      var sent := AllSent(list, tokens);
      assert sent[..n] == AllSent(list[..n], tokens[..n]);
    }
  }

  // Tokens with their metadata and amounts are read back as they were sent.
  lemma SentArrives(codec: Codec, list: seq<Wire.Transfer>, tokens: seq<Token>, trailing: seq<bytes>)
    requires Lawful(codec) && GoodTokens(list, tokens) && Carry(tokens, list)
    requires 0 < |list| && 3 * |list| + 2 < TWO64 && forall i :: 0 <= i < |list| ==> list[i].nonce < TWO64
    ensures var sent := AllSent(list, tokens);
            && Wire.TransfersOf(sent) == list
            && Wire.IncomingOf(codec, Wire.MessageArguments(codec, sent, trailing))
               == Wire.Ok(Wire.Incoming(Wire.AllReceived(sent), trailing))
  {
    hide Wire.IncomingOf, Wire.MessageArguments, Lawful, Wire.AllReceived;
    var sent := AllSent(list, tokens);
    assert Wire.TransfersOf(sent) == list;
    forall i | 0 <= i < |sent|
      ensures Wire.Sendable(sent[i])
    {
      assert GoodToken(list[i].nonce, tokens[i]);
    }
    Wire.ExecutorRoundTrip(codec, sent, trailing);
  }

  // What a multi transfer to another shard takes and sends.
  lemma MultiSends(h: Host, sh: Shard, snd: Address, dst: Address, list: seq<Wire.Transfer>, rwe: bool)
    requires Config(h.env.flags) && NonNegative(sh) && !Here(h, dst) && SendMulti(h, sh, snd, dst, list, rwe).Ok?
    ensures |list| > 0 && snd != dst && SendAll(h, sh, snd, dst, list, rwe).Ok?
    ensures var tokens := SendAll(h, sh, snd, dst, list, rwe).value.tokens;
            Carry(tokens, list) && SendMulti(h, sh, snd, dst, list, rwe).value.items == Wire.AllReceived(AllSent(list, tokens))
  {
    hide SendAll, BuildItems, NonNegative, Carry, Wire.AllReceived;
    CarriesAmounts(h, sh, snd, dst, list, rwe);
    var moved := SendAll(h, sh, snd, dst, list, rwe).value;
    ItemsAsSent(h, moved.shard, dst, list, moved.tokens);
  }

  // The message the ledger puts in flight, written out and read by the
  // destination shard's executor, is that very list of tokens, when the NFTs
  // taken had their metadata; and they had, where totals are right and names
  // are in order.
  lemma MessageArrives(codec: Codec, h: Host, sh: Shard, snd: Address, dst: Address, list: seq<Wire.Transfer>,
                       rwe: bool,
                       trailing: seq<bytes>)
    requires Lawful(codec) && Config(h.env.flags) && NonNegative(sh) && !Here(h, dst)
    requires 3 * |list| + 2 < TWO64 && forall i :: 0 <= i < |list| ==> list[i].nonce < TWO64
    ensures var sending, taken := SendMulti(h, sh, snd, dst, list, rwe), SendAll(h, sh, snd, dst, list, rwe);
            sending.Ok? ==>
              && taken.Ok?
              && (Here(h, snd) && AllCovered(sh) && AllWellNamed(h, dst, list) ==> GoodTokens(list, taken.value.tokens))
              && (GoodTokens(list, taken.value.tokens) ==>
                    exists sent: seq<Wire.Sent> ::
                      && Wire.TransfersOf(sent) == list
                      && Wire.IncomingOf(codec, Wire.MessageArguments(codec, sent, trailing))
                         == Wire.Ok(Wire.Incoming(sending.value.items, trailing)))
  {
    hide SendMulti, SendAll, AllCovered, AllWellNamed, NonNegative, GoodTokens, Carry, Wire.AllReceived, Wire.IncomingOf,
         Wire.MessageArguments;
    if SendMulti(h, sh, snd, dst, list, rwe).Ok? {
      MultiSends(h, sh, snd, dst, list, rwe);
      var tokens := SendAll(h, sh, snd, dst, list, rwe).value.tokens;
      if Here(h, snd) && AllCovered(sh) && AllWellNamed(h, dst, list) {
        SendAllCovers(h, sh, snd, dst, list, rwe);
      }
      if GoodTokens(list, tokens) {
        SentArrives(codec, list, tokens, trailing);
      }
    }
  }

  lemma CarriesAmounts(h: Host, sh: Shard, snd: Address, dst: Address, list: seq<Wire.Transfer>, rwe: bool)
    requires NonNegative(sh) && snd != dst && SendAll(h, sh, snd, dst, list, rwe).Ok?
    ensures Carry(SendAll(h, sh, snd, dst, list, rwe).value.tokens, list)
  {
    hide SendAll;
    SendAllShift(h, sh, snd, dst, list, rwe, Base);
  }
}
