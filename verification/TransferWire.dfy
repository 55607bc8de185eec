// The argument lists of a multi-token transfer: what the sender shard reads,
// what it writes for the destination shard, and the two independent readers
// of that message.
module TransferWire {
  import opened Bytes
  import opened Tokens
  import CallData

  datatype Result<+T> = Ok(value: T) | Fail(error: WireError)
  datatype WireError = InvalidArguments | NotEnoughArguments | NotEnoughGas | UnmarshalFailed

  const FUNCTION_NAME := "MultiESDTNFTTransfer"

  datatype Transfer = Transfer(token: bytes, nonce: nat, value: nat)

  // ---- the sender shard's own arguments: address, count, triples, rest ----

  function TransferAt(args: seq<bytes>, at: nat): Transfer
    requires at + 2 < |args|
  {
    Transfer(args[at], ToUint64(args[at + 1]), FromBytes(args[at + 2]))
  }

  function TransfersFrom(args: seq<bytes>, start: nat, n: nat): (ts: seq<Transfer>)
    requires start + 3 * n <= |args|
    ensures |ts| == n
    ensures forall i :: 0 <= i < n ==> ts[i] == TransferAt(args, start + 3 * i)
  {
    if n == 0 then [] else TransfersFrom(args, start, n - 1) + [TransferAt(args, start + 3 * (n - 1))]
  }

  // Transfer counts for which 3 * n + 2 does not wrap.
  predicate CountFits(arg: bytes) {
    3 * ToUint64(arg) + 2 < TWO64
  }

  datatype Outgoing = Outgoing(destination: bytes, transfers: seq<Transfer>, trailing: seq<bytes>)

  function OutgoingOf(args: seq<bytes>): Result<Outgoing> {
    if |args| < 4 || ToUint64(args[1]) == 0 || |args| < 3 * ToUint64(args[1]) + 2 then Fail(InvalidArguments)
    else
      var n := ToUint64(args[1]);
      Ok(Outgoing(args[0], TransfersFrom(args, 2, n), args[3 * n + 2..]))
  }

  // Token, nonce and value, in this order.
  predicate NamedAt(args: seq<bytes>, at: nat, t: Transfer) {
    at + 2 < |args| && t.token == args[at] && t.nonce == ToUint64(args[at + 1]) && t.value == FromBytes(args[at + 2])
  }

  lemma {:induction false} ListedTransfers(args: seq<bytes>, start: nat, n: nat)
    requires start + 3 * n <= |args|
    ensures |TransfersFrom(args, start, n)| == n
    ensures forall i :: 0 <= i < n ==> NamedAt(args, start + 3 * i, TransfersFrom(args, start, n)[i])
  {
    if n > 0 {
      ListedTransfers(args, start, n - 1);
    }
  }

  method ReadOutgoing(args: seq<bytes>) returns (r: Result<Outgoing>)
    requires |args| > 1 ==> CountFits(args[1])
    ensures r.Ok? <==> 4 <= |args| && 0 < ToUint64(args[1]) && 3 * ToUint64(args[1]) + 2 <= |args|
    ensures r.Ok? ==>
              && r.value.destination == args[0] && |r.value.transfers| == ToUint64(args[1])
              && r.value.trailing == args[3 * ToUint64(args[1]) + 2..]
              && forall i :: 0 <= i < ToUint64(args[1]) ==> NamedAt(args, 2 + 3 * i, r.value.transfers[i])
    ensures r == OutgoingOf(args)
  {
    if 4 <= |args| && 3 * ToUint64(args[1]) + 2 <= |args| {
      ListedTransfers(args, 2, ToUint64(args[1]));
    }
    if |args| < 4 {
      return Fail(InvalidArguments);
    }
    var n := ToUint64(args[1]);
    if n == 0 {
      return Fail(InvalidArguments);
    }
    var minArgs := Low64(n * 3 + 2);
    if |args| < minArgs {
      return Fail(InvalidArguments);
    }
    var list: seq<Transfer> := [];
    var i := 0;
    while i < n
      invariant 0 <= i <= n
      invariant list == TransfersFrom(args, 2, i)
    {
      var at := 2 + 3 * i;
      list := list + [Transfer(args[at], ToUint64(args[at + 1]), FromBytes(args[at + 2]))];
      i := i + 1;
    }
    r := Ok(Outgoing(args[0], list, args[minArgs..]));
  }

  // ---- writing the message ----

  // The plain amount is sent only for an amount of at most 32 bytes, other
  // than one, of a token the destination shard already knows.
  predicate SentMarshalled(t: Transfer, alreadySent: bool) {
    t.nonce > 0 && (!alreadySent || t.value == 1 || |ToBytes(t.value)| > MAX_PLAIN_VALUE)
  }

  datatype Sent = Sent(transfer: Transfer, data: Token, alreadySent: bool)

  function NonceBytes(nonce: nat): bytes {
    if nonce > 0 then ToBytes(nonce) else [0]
  }

  function Payload(codec: Codec, s: Sent): bytes {
    if SentMarshalled(s.transfer, s.alreadySent) then codec.marshal(s.data) else ToBytes(s.transfer.value)
  }

  function Triples(codec: Codec, list: seq<Sent>): (args: seq<bytes>)
    ensures |args| == 3 * |list|
  {
    if |list| == 0 then []
    else
      var s := list[|list| - 1];
      Triples(codec, list[..|list| - 1]) + [s.transfer.token, NonceBytes(s.transfer.nonce), Payload(codec, s)]
  }

  function MessageArguments(codec: Codec, list: seq<Sent>, trailing: seq<bytes>): seq<bytes> {
    [ToBytes(|list|)] + Triples(codec, list) + trailing
  }

  datatype Message = Message(arguments: seq<bytes>, gasRemaining: nat)

  // What item s adds to the charge.
  function Charge(codec: Codec, s: Sent, costPerByte: nat): nat {
    if SentMarshalled(s.transfer, s.alreadySent) then |codec.marshal(s.data)| * costPerByte else 0
  }

  function TotalCharge(codec: Codec, list: seq<Sent>, costPerByte: nat): nat {
    if |list| == 0 then 0
    else TotalCharge(codec, list[..|list| - 1], costPerByte) + Charge(codec, list[|list| - 1], costPerByte)
  }

  // Building the message charges for every marshalled byte; it fails exactly
  // when the whole charge is more than the gas left, and never underflows.
  method BuildMessage(codec: Codec, list: seq<Sent>, trailing: seq<bytes>, gas: nat, costPerByte: nat, skipGas: bool)
    returns (r: Result<Message>)
    requires gas < TWO64 && TotalCharge(codec, list, costPerByte) < TWO64
    ensures r.Ok? <==> skipGas || TotalCharge(codec, list, costPerByte) <= gas
    ensures r.Ok? ==> r.value.arguments == MessageArguments(codec, list, trailing)
    ensures r.Ok? && skipGas ==> r.value.gasRemaining == gas
    ensures r.Ok? && !skipGas ==> r.value.gasRemaining == gas - TotalCharge(codec, list, costPerByte)
    ensures r.Fail? ==> r.error == NotEnoughGas
  {
    var arguments := [ToBytes(|list|)];
    var remaining: nat := gas;
    ghost var total := TotalCharge(codec, list, costPerByte);
    ghost var charged := 0;
    var i := 0;
    while i < |list|
      invariant 0 <= i <= |list|
      invariant arguments == [ToBytes(|list|)] + Triples(codec, list[..i])
      invariant charged == TotalCharge(codec, list[..i], costPerByte) <= total
      invariant remaining == if skipGas then gas else gas - charged
    {
      var s := list[i];
      ghost var before := arguments;
      ChargeStep(codec, list, i, costPerByte);
      charged := charged + Charge(codec, s, costPerByte);
      arguments := arguments + [s.transfer.token];
      var nonceAsBytes: bytes := [0];
      if s.transfer.nonce > 0 {
        nonceAsBytes := ToBytes(s.transfer.nonce);
      }
      arguments := arguments + [nonceAsBytes];
      if SentMarshalled(s.transfer, s.alreadySent) {
        var marshalled := codec.marshal(s.data);
        if !skipGas {
          var charge := |marshalled| * costPerByte;
          if charge > remaining {
            return Fail(NotEnoughGas);
          }
          remaining := remaining - charge;
        }
        arguments := arguments + [marshalled];
      } else {
        arguments := arguments + [ToBytes(s.transfer.value)];
      }
      TripleStep(codec, list, i, before, arguments);
      i := i + 1;
    }
    assert list[..i] == list;
    if |trailing| > 0 {
      arguments := arguments + trailing;
    }
    r := Ok(Message(arguments, remaining));
  }

  lemma TripleStep(codec: Codec, list: seq<Sent>, i: nat, before: seq<bytes>, after: seq<bytes>)
    requires i < |list|
    requires before == [ToBytes(|list|)] + Triples(codec, list[..i])
    requires after == before + [list[i].transfer.token] + [NonceBytes(list[i].transfer.nonce)] + [Payload(codec, list[i])]
    ensures after == [ToBytes(|list|)] + Triples(codec, list[..i + 1])
  {
    assert list[..i + 1][..i] == list[..i];
  }

  lemma ChargeStep(codec: Codec, list: seq<Sent>, i: nat, cost: nat)
    requires i < |list|
    ensures TotalCharge(codec, list[..i + 1], cost) == TotalCharge(codec, list[..i], cost) + Charge(codec, list[i], cost)
    ensures TotalCharge(codec, list[..i + 1], cost) <= TotalCharge(codec, list, cost)
  {
    assert list[..i + 1][..i] == list[..i];
    ChargePrefix(codec, list, i + 1, cost);
  }

  lemma {:induction false} ChargePrefix(codec: Codec, list: seq<Sent>, k: nat, cost: nat)
    requires k <= |list|
    ensures TotalCharge(codec, list[..k], cost) <= TotalCharge(codec, list, cost)
    decreases |list| - k
  {
    if k < |list| {
      ChargePrefix(codec, list, k + 1, cost);
      assert list[..k + 1][..k] == list[..k];
    } else {
      assert list[..k] == list;
    }
  }

  // ---- reader 1: the destination shard's executor ----

  datatype Received = Received(token: bytes, nonce: nat, data: Token)

  function ReceivedAt(codec: Codec, args: seq<bytes>, at: nat): Option<Received>
    requires at + 2 < |args|
  {
    var nonce := ToUint64(args[at + 1]);
    if nonce > 0 then
      if |args[at + 2]| > MAX_PLAIN_VALUE then
        var data := codec.unmarshal(args[at + 2]);
        if data.None? then None else Some(Received(args[at], nonce, data.value))
      else Some(Received(args[at], nonce, Token(NonFungible, FromBytes(args[at + 2]), None, [], None)))
    else Some(Received(args[at], nonce, NOTHING.(value := FromBytes(args[at + 2]))))
  }

  function ReceivedFrom(codec: Codec, args: seq<bytes>, n: nat): (r: Option<seq<Received>>)
    requires 3 * n + 1 <= |args|
    ensures r.Some? ==> |r.value| == n
  {
    if n == 0 then Some([])
    else
      var front := ReceivedFrom(codec, args, n - 1);
      var last := ReceivedAt(codec, args, 3 * n - 2);
      if front.None? || last.None? then None else Some(front.value + [last.value])
  }

  datatype Incoming = Incoming(transfers: seq<Received>, trailing: seq<bytes>)

  function IncomingOf(codec: Codec, args: seq<bytes>): Result<Incoming> {
    if |args| < 4 || ToUint64(args[0]) == 0 || |args| < 3 * ToUint64(args[0]) + 1 then Fail(InvalidArguments)
    else
      var n := ToUint64(args[0]);
      var list := ReceivedFrom(codec, args, n);
      if list.None? then Fail(UnmarshalFailed) else Ok(Incoming(list.value, args[3 * n + 1..]))
  }

  lemma {:induction false} ReceivedFails(codec: Codec, args: seq<bytes>, k: nat, n: nat)
    requires k < n && 3 * n + 1 <= |args|
    requires ReceivedAt(codec, args, 3 * k + 1).None?
    ensures ReceivedFrom(codec, args, n).None?
  {
    if k < n - 1 {
      ReceivedFails(codec, args, k, n - 1);
    }
  }

  // A payload of more bytes than a plain amount is a token that can be read.
  predicate PayloadReads(codec: Codec, args: seq<bytes>, at: nat)
    requires at + 2 < |args|
  {
    ToUint64(args[at + 1]) > 0 && |args[at + 2]| > 32 ==> codec.unmarshal(args[at + 2]).Some?
  }

  predicate PayloadsRead(codec: Codec, args: seq<bytes>, start: nat, n: nat)
    requires start + 3 * n <= |args|
  {
    forall i :: 0 <= i < n ==> PayloadReads(codec, args, start + 3 * i)
  }

  lemma {:induction false} ReceivedIff(codec: Codec, args: seq<bytes>, n: nat)
    requires 3 * n + 1 <= |args|
    ensures ReceivedFrom(codec, args, n).Some? <==> PayloadsRead(codec, args, 1, n)
  {
    if n > 0 {
      ReceivedIff(codec, args, n - 1);
      assert ReceivedAt(codec, args, 3 * n - 2).Some? <==> PayloadReads(codec, args, 1 + 3 * (n - 1));
    }
  }

  // A message is read exactly when it has four arguments, counts at least one
  // transfer, has three arguments for each, and its payloads can be read.
  lemma IncomingIff(codec: Codec, args: seq<bytes>)
    ensures IncomingOf(codec, args).Ok?
            <==> 4 <= |args| && 0 < ToUint64(args[0]) && 3 * ToUint64(args[0]) + 1 <= |args|
                 && PayloadsRead(codec, args, 1, ToUint64(args[0]))
  {
    hide PayloadsRead;
    if 4 <= |args| && 3 * ToUint64(args[0]) + 1 <= |args| {
      ReceivedIff(codec, args, ToUint64(args[0]));
    }
  }

  method ReadIncoming(codec: Codec, args: seq<bytes>) returns (r: Result<Incoming>)
    requires |args| > 0 ==> CountFits(args[0])
    ensures r.Ok? <==> 4 <= |args| && 0 < ToUint64(args[0]) && 3 * ToUint64(args[0]) + 1 <= |args|
                       && PayloadsRead(codec, args, 1, ToUint64(args[0]))
    ensures r == IncomingOf(codec, args)
  {
    hide PayloadsRead;
    IncomingIff(codec, args);
    if |args| < 4 {
      return Fail(InvalidArguments);
    }
    var n := ToUint64(args[0]);
    if n == 0 {
      return Fail(InvalidArguments);
    }
    var minArgs := Low64(n * 3 + 1);
    if |args| < minArgs {
      return Fail(InvalidArguments);
    }
    var list: seq<Received> := [];
    var i := 0;
    while i < n
      invariant 0 <= i <= n
      invariant ReceivedFrom(codec, args, i) == Some(list)
    {
      var at := 1 + 3 * i;
      var nonce := ToUint64(args[at + 1]);
      var data := NOTHING;
      if nonce > 0 {
        if |args[at + 2]| > MAX_PLAIN_VALUE {
          var unmarshalled := codec.unmarshal(args[at + 2]);
          if unmarshalled.None? {
            ReceivedFails(codec, args, i, n);
            return Fail(UnmarshalFailed);
          }
          data := unmarshalled.value;
        } else {
          data := data.(value := FromBytes(args[at + 2]), kind := NonFungible);
        }
      } else {
        data := data.(value := FromBytes(args[at + 2]));
      }
      list := list + [Received(args[at], nonce, data)];
      i := i + 1;
    }
    r := Ok(Incoming(list, args[minArgs..]));
  }

  // ---- reader 2: the transfer parser ----

  datatype ParsedTransfer = ParsedTransfer(value: int, token: bytes, kind: TokenType, nonce: nat)

  datatype ParsedTransfers = ParsedTransfers(
    transfers: seq<ParsedTransfer>, receiver: bytes, callFunction: bytes, callArgs: seq<bytes>)

  function ParsedAt(codec: Codec, args: seq<bytes>, at: nat, atSender: bool): Option<ParsedTransfer>
    requires at + 2 < |args|
  {
    var nonce := ToUint64(args[at + 1]);
    var plain := ParsedTransfer(FromBytes(args[at + 2]), args[at], if nonce > 0 then NonFungible else Fungible, nonce);
    if nonce > 0 && !atSender && |args[at + 2]| > MAX_PLAIN_VALUE then
      var data := codec.unmarshal(args[at + 2]);
      if data.None? then None else Some(plain.(value := data.value.value))
    else Some(plain)
  }

  function ParsedFrom(codec: Codec, args: seq<bytes>, start: nat, n: nat,
                      atSender: bool): (r: Option<seq<ParsedTransfer>>)
    requires start + 3 * n <= |args|
    ensures r.Some? ==> |r.value| == n
  {
    if n == 0 then Some([])
    else
      var front := ParsedFrom(codec, args, start, n - 1, atSender);
      var last := ParsedAt(codec, args, start + 3 * (n - 1), atSender);
      if front.None? || last.None? then None else Some(front.value + [last.value])
  }

  predicate StartsWithAddress(receiver: bytes, args: seq<bytes>)
    requires |args| > 0
  {
    |args[0]| == |receiver| && FromBytes(args[0]) >= TWO64
  }

  function CallFunctionOf(trailing: seq<bytes>): bytes {
    if |trailing| > 0 then trailing[0] else []
  }

  function CallArgsOf(trailing: seq<bytes>): seq<bytes> {
    if |trailing| > 0 then trailing[1..] else []
  }

  // n triples from start, then the call.
  function ParsedWith(codec: Codec, args: seq<bytes>, start: nat, n: nat, atSender: bool, receiver: bytes)
    : Result<ParsedTransfers>
  {
    if |args| < start + 3 * n then Fail(NotEnoughArguments)
    else
      var list := ParsedFrom(codec, args, start, n, atSender);
      if list.None? then Fail(UnmarshalFailed)
      else
        var trailing := args[start + 3 * n..];
        Ok(ParsedTransfers(list.value, receiver, CallFunctionOf(trailing), CallArgsOf(trailing)))
  }

  function ParsedOf(codec: Codec, receiver: bytes, args: seq<bytes>): Result<ParsedTransfers> {
    if |args| < 4 then Fail(NotEnoughArguments)
    else if StartsWithAddress(receiver, args) then ParsedWith(codec, args, 2, ToUint64(args[1]), true, args[0])
    else ParsedWith(codec, args, 1, ToUint64(args[0]), false, receiver)
  }

  lemma {:induction false} ParsedFails(codec: Codec, args: seq<bytes>, start: nat, k: nat, n: nat, atSender: bool)
    requires k < n && start + 3 * n <= |args|
    requires ParsedAt(codec, args, start + 3 * k, atSender).None?
    ensures ParsedFrom(codec, args, start, n, atSender).None?
  {
    if k < n - 1 {
      ParsedFails(codec, args, start, k, n - 1, atSender);
    }
  }

  // The parser reads a list at the sender always, and of a message exactly when
  // its payloads can be read.
  lemma {:induction false} ParsedIff(codec: Codec, args: seq<bytes>, start: nat, n: nat, atSender: bool)
    requires start + 3 * n <= |args|
    ensures ParsedFrom(codec, args, start, n, atSender).Some? <==> atSender || PayloadsRead(codec, args, start, n)
  {
    if n > 0 {
      ParsedIff(codec, args, start, n - 1, atSender);
      assert ParsedAt(codec, args, start + 3 * (n - 1), atSender).Some?
             <==> atSender || PayloadReads(codec, args, start + 3 * (n - 1));
    }
  }

  method ParseTransferList(codec: Codec, args: seq<bytes>, start: nat, n: nat, atSender: bool)
    returns (r: Option<seq<ParsedTransfer>>)
    requires start + 3 * n <= |args|
    ensures r.Some? <==> atSender || PayloadsRead(codec, args, start, n)
    ensures r == ParsedFrom(codec, args, start, n, atSender)
  {
    hide PayloadsRead;
    ParsedIff(codec, args, start, n, atSender);
    var list: seq<ParsedTransfer> := [];
    var i := 0;
    while i < n
      invariant 0 <= i <= n
      invariant ParsedFrom(codec, args, start, i, atSender) == Some(list)
    {
      var at := start + 3 * i;
      var t := ParsedTransfer(FromBytes(args[at + 2]), args[at], Fungible, ToUint64(args[at + 1]));
      if t.nonce > 0 {
        t := t.(kind := NonFungible);
        if !atSender && |args[at + 2]| > MAX_PLAIN_VALUE {
          var data := codec.unmarshal(args[at + 2]);
          if data.None? {
            ParsedFails(codec, args, start, i, n, atSender);
            return None;
          }
          t := t.(value := data.value.value);
        }
      }
      list := list + [t];
      i := i + 1;
    }
    r := Some(list);
  }

  method ParseMultiTransfer(codec: Codec, receiver: bytes, args: seq<bytes>) returns (r: Result<ParsedTransfers>)
    requires |args| > 1 ==> CountFits(args[if StartsWithAddress(receiver, args) then 1 else 0])
    ensures r == ParsedOf(codec, receiver, args)
  {
    if |args| < 4 {
      return Fail(NotEnoughArguments);
    }
    var rcv, start, atSender, n := receiver, 1, false, ToUint64(args[0]);
    if |args[0]| == |receiver| && FromBytes(args[0]) >= TWO64 {
      rcv, start, atSender, n := args[0], 2, true, ToUint64(args[1]);
    }
    r := ParseFrom(codec, args, start, n, atSender, rcv);
  }

  method ParseFrom(codec: Codec, args: seq<bytes>, start: nat, n: nat, atSender: bool, receiver: bytes)
    returns (r: Result<ParsedTransfers>)
    requires 3 * n + 2 < TWO64 && start <= 2
    ensures r == ParsedWith(codec, args, start, n, atSender, receiver)
  {
    var minArgs := Low64(3 * n + start);
    if |args| < minArgs {
      return Fail(NotEnoughArguments);
    }
    TailOf(args, minArgs);
    var callFunction, callArgs := [], [];
    if |args| > minArgs {
      callFunction := args[minArgs];
    }
    if |args| > minArgs + 1 {
      callArgs := args[minArgs + 1..];
    }
    var list := ParseTransferList(codec, args, start, n, atSender);
    if list.None? {
      return Fail(UnmarshalFailed);
    }
    r := Ok(ParsedTransfers(list.value, receiver, callFunction, callArgs));
  }

  // ---- the round trip ----

  // What both readers must recover from a transfer.
  function AsReceived(s: Sent): Received {
    var t := s.transfer;
    Received(t.token, t.nonce,
             if SentMarshalled(t, s.alreadySent) then s.data
             else NOTHING.(value := t.value, kind := if t.nonce > 0 then NonFungible else Fungible))
  }

  function AsParsed(t: Transfer): ParsedTransfer {
    ParsedTransfer(t.value, t.token, if t.nonce > 0 then NonFungible else Fungible, t.nonce)
  }

  // What the sender shard hands over: uint64 nonces, and for an NFT a record
  // with metadata whose value is the amount transferred.
  ghost predicate Sendable(s: Sent) {
    s.transfer.nonce < TWO64 && (s.transfer.nonce > 0 ==> s.data.meta.Some? && s.data.value == s.transfer.value)
  }

  lemma {:induction false} TripleAt(codec: Codec, list: seq<Sent>, i: nat)
    requires i < |list|
    ensures var t := Triples(codec, list);
            && t[3 * i] == list[i].transfer.token
            && t[3 * i + 1] == NonceBytes(list[i].transfer.nonce)
            && t[3 * i + 2] == Payload(codec, list[i])
  {
    if i < |list| - 1 {
      TripleAt(codec, list[..|list| - 1], i);
    }
  }

  lemma NonceRoundTrip(nonce: nat)
    requires nonce < TWO64
    ensures ToUint64(NonceBytes(nonce)) == nonce
    ensures |NonceBytes(nonce)| > 0 && (nonce == 0 ==> NonceBytes(nonce) == [0])
  {
    if nonce > 0 {
      Uint64RoundTrip(nonce);
    } else {
      assert PrefixValue([0], 1) == PrefixValue([0], 0) * 256 + 0;
    }
  }

  // Of n triples, the bytes of the payloads with a nonce that are too long for
  // a plain amount.
  function LongBytes(args: seq<bytes>, n: nat): nat
    requires 3 * n <= |args|
  {
    if n == 0 then 0
    else
      var payload := args[3 * n - 1];
      LongBytes(args, n - 1) + if ToUint64(args[3 * n - 2]) > 0 && |payload| > MAX_PLAIN_VALUE then |payload| else 0
  }

  // The sender pays by the byte for the tokens the message carries whole, and
  // for nothing else.
  lemma {:induction false} ChargedAsSent(codec: Codec, list: seq<Sent>, costPerByte: nat)
    requires Lawful(codec) && forall i :: 0 <= i < |list| ==> Sendable(list[i])
    ensures TotalCharge(codec, list, costPerByte) == costPerByte * LongBytes(Triples(codec, list), |list|)
  {
    hide ToBytes, ToUint64;
    if |list| > 0 {
      var n := |list| - 1;
      ChargedAsSent(codec, list[..n], costPerByte);
      TripleAt(codec, list, n);
      NonceRoundTrip(list[n].transfer.nonce);
      LongPrefix(Triples(codec, list[..n]), Triples(codec, list), n);
      var payload := Payload(codec, list[n]);
      Distributes(costPerByte, LongBytes(Triples(codec, list[..n]), n), |payload|);
    }
  }

  lemma Distributes(x: nat, y: nat, z: nat)
    ensures x * (y + z) == x * y + z * x
  {
  }

  lemma {:induction false} LongPrefix(front: seq<bytes>, args: seq<bytes>, n: nat)
    requires 3 * n <= |front| && front <= args
    ensures LongBytes(front, n) == LongBytes(args, n)
  {
    if n > 0 {
      LongPrefix(front, args, n - 1);
    }
  }

  lemma MessageShape(codec: Codec, list: seq<Sent>, trailing: seq<bytes>)
    ensures var m := MessageArguments(codec, list, trailing);
            && |m| == 3 * |list| + 1 + |trailing|
            && m[0] == ToBytes(|list|)
            && m[3 * |list| + 1..] == trailing
  {
  }

  // The three arguments of item i, where the message puts them.
  lemma MessageAt(codec: Codec, list: seq<Sent>, trailing: seq<bytes>, i: nat)
    requires i < |list|
    ensures var m := MessageArguments(codec, list, trailing);
            && |m| == 3 * |list| + 1 + |trailing|
            && m[3 * i + 1] == list[i].transfer.token
            && m[3 * i + 2] == NonceBytes(list[i].transfer.nonce)
            && m[3 * i + 3] == Payload(codec, list[i])
  {
    var m, t := MessageArguments(codec, list, trailing), Triples(codec, list);
    TripleAt(codec, list, i);
    assert m[3 * i + 1] == t[3 * i] && m[3 * i + 2] == t[3 * i + 1] && m[3 * i + 3] == t[3 * i + 2];
  }

  lemma ItemRoundTrip(codec: Codec, list: seq<Sent>, trailing: seq<bytes>, i: nat)
    requires Lawful(codec) && i < |list| && Sendable(list[i])
    ensures var m := MessageArguments(codec, list, trailing);
            && |m| == 3 * |list| + 1 + |trailing|
            && ReceivedAt(codec, m, 3 * i + 1) == Some(AsReceived(list[i]))
            && ParsedAt(codec, m, 1 + 3 * i, false) == Some(AsParsed(list[i].transfer))
  {
    MessageAt(codec, list, trailing, i);
    NonceRoundTrip(list[i].transfer.nonce);
    FromToBytes(list[i].transfer.value);
  }

  function AllReceived(list: seq<Sent>): (r: seq<Received>)
    ensures |r| == |list|
    ensures forall i :: 0 <= i < |list| ==> r[i] == AsReceived(list[i])
  {
    if |list| == 0 then [] else AllReceived(list[..|list| - 1]) + [AsReceived(list[|list| - 1])]
  }

  function AllParsed(ts: seq<Transfer>): (r: seq<ParsedTransfer>)
    ensures |r| == |ts|
    ensures forall i :: 0 <= i < |ts| ==> r[i] == AsParsed(ts[i])
  {
    if |ts| == 0 then [] else AllParsed(ts[..|ts| - 1]) + [AsParsed(ts[|ts| - 1])]
  }

  function TransfersOf(list: seq<Sent>): (ts: seq<Transfer>)
    ensures |ts| == |list|
    ensures forall i :: 0 <= i < |list| ==> ts[i] == list[i].transfer
  {
    if |list| == 0 then [] else TransfersOf(list[..|list| - 1]) + [list[|list| - 1].transfer]
  }

  lemma {:induction false} ReceivedList(codec: Codec, args: seq<bytes>, r: seq<Received>)
    requires 3 * |r| + 1 <= |args|
    requires forall i :: 0 <= i < |r| ==> ReceivedAt(codec, args, 3 * i + 1) == Some(r[i])
    ensures ReceivedFrom(codec, args, |r|) == Some(r)
  {
    if |r| > 0 {
      var n := |r| - 1;
      ReceivedList(codec, args, r[..n]);
      assert ReceivedAt(codec, args, 3 * n + 1) == Some(r[n]);
      assert r == r[..n] + [r[n]];
    }
  }

  lemma {:induction false} ParsedList(codec: Codec, args: seq<bytes>, start: nat, atSender: bool,
                                      r: seq<ParsedTransfer>)
    requires start + 3 * |r| <= |args|
    requires forall i :: 0 <= i < |r| ==> ParsedAt(codec, args, start + 3 * i, atSender) == Some(r[i])
    ensures ParsedFrom(codec, args, start, |r|, atSender) == Some(r)
  {
    if |r| > 0 {
      var n := |r| - 1;
      ParsedList(codec, args, start, atSender, r[..n]);
      assert ParsedAt(codec, args, start + 3 * n, atSender) == Some(r[n]);
      assert r == r[..n] + [r[n]];
    }
  }

  // Both readers, item by item, over the whole message.
  lemma MessageItems(codec: Codec, list: seq<Sent>, trailing: seq<bytes>, m: seq<bytes>)
    requires Lawful(codec) && m == MessageArguments(codec, list, trailing)
    requires forall i :: 0 <= i < |list| ==> Sendable(list[i])
    ensures |m| == 3 * |list| + 1 + |trailing|
    ensures forall i :: 0 <= i < |list| ==> ReceivedAt(codec, m, 3 * i + 1) == Some(AsReceived(list[i]))
    ensures forall i :: 0 <= i < |list| ==> ParsedAt(codec, m, 1 + 3 * i, false) == Some(AsParsed(list[i].transfer))
  {
    MessageShape(codec, list, trailing);
    forall i | 0 <= i < |list|
      ensures ReceivedAt(codec, m, 3 * i + 1) == Some(AsReceived(list[i]))
      ensures ParsedAt(codec, m, 1 + 3 * i, false) == Some(AsParsed(list[i].transfer))
    {
      ItemRoundTrip(codec, list, trailing, i);
    }
  }

  // The data of the output transfer.
  function MessageText(codec: Codec, list: seq<Sent>, trailing: seq<bytes>): string {
    CallData.Join(FUNCTION_NAME, CallData.HexAll(MessageArguments(codec, list, trailing)))
  }

  // The message text parses back to the function name and the arguments.
  lemma TextRoundTrip(codec: Codec, list: seq<Sent>, trailing: seq<bytes>)
    ensures CallData.ParsedCall(MessageText(codec, list, trailing))
            == CallData.Ok(CallData.Call(FUNCTION_NAME, MessageArguments(codec, list, trailing)))
  {
    CallData.CallRoundTrip(FUNCTION_NAME, MessageArguments(codec, list, trailing));
  }

  // The executor recovers every token, nonce and record, and the rest.
  lemma ExecutorRoundTrip(codec: Codec, list: seq<Sent>, trailing: seq<bytes>)
    requires Lawful(codec) && 0 < |list| && 3 * |list| + 2 < TWO64
    requires forall i :: 0 <= i < |list| ==> Sendable(list[i])
    ensures IncomingOf(codec, MessageArguments(codec, list, trailing)) == Ok(Incoming(AllReceived(list), trailing))
  {
    MessageShape(codec, list, trailing);
    FromToBytes(|list|);
    var m := MessageArguments(codec, list, trailing);
    MessageItems(codec, list, trailing, m);
    MessageReads(codec, m, AllReceived(list));
  }

  lemma MessageReads(codec: Codec, m: seq<bytes>, r: seq<Received>)
    requires |m| >= 3 * |r| + 1 && 0 < |r| < TWO64 && FromBytes(m[0]) == |r|
    requires forall i :: 0 <= i < |r| ==> ReceivedAt(codec, m, 3 * i + 1) == Some(r[i])
    ensures IncomingOf(codec, m) == Ok(Incoming(r, m[3 * |r| + 1..]))
  {
    ReceivedList(codec, m, r);
  }

  // The parser recovers the same list, and the trailing call.
  lemma ParserRoundTrip(codec: Codec, list: seq<Sent>, trailing: seq<bytes>, receiver: bytes)
    requires Lawful(codec) && 0 < |list| && 3 * |list| + 2 < TWO64
    requires forall i :: 0 <= i < |list| ==> Sendable(list[i])
    ensures ParsedOf(codec, receiver, MessageArguments(codec, list, trailing)) ==
            Ok(ParsedTransfers(AllParsed(TransfersOf(list)), receiver, CallFunctionOf(trailing), CallArgsOf(trailing)))
  {
    var m := MessageArguments(codec, list, trailing);
    MessageShape(codec, list, trailing);
    FromToBytes(|list|);
    MessageItems(codec, list, trailing, m);
    CountDecides(codec, receiver, m, |list|);
    MessageParses(codec, receiver, m, list);
  }

  lemma MessageParses(codec: Codec, receiver: bytes, m: seq<bytes>, list: seq<Sent>)
    requires |m| >= 3 * |list| + 1
    requires forall i :: 0 <= i < |list| ==> ParsedAt(codec, m, 1 + 3 * i, false) == Some(AsParsed(list[i].transfer))
    ensures ParsedWith(codec, m, 1, |list|, false, receiver) ==
            Ok(ParsedTransfers(AllParsed(TransfersOf(list)), receiver,
                               CallFunctionOf(m[3 * |list| + 1..]), CallArgsOf(m[3 * |list| + 1..])))
  {
    ParsedList(codec, m, 1, false, AllParsed(TransfersOf(list)));
  }

  // A leading count that is a uint64 is not taken for an address.
  lemma CountDecides(codec: Codec, receiver: bytes, m: seq<bytes>, n: nat)
    requires |m| >= 4 && FromBytes(m[0]) == n < TWO64
    ensures ParsedOf(codec, receiver, m) == ParsedWith(codec, m, 1, n, false, receiver)
  {
  }

  lemma TailOf(args: seq<bytes>, min: nat)
    requires min <= |args|
    ensures CallFunctionOf(args[min..]) == if |args| > min then args[min] else []
    ensures CallArgsOf(args[min..]) == if |args| > min + 1 then args[min + 1..] else []
  {
  }

  // The parser, given the sender's own arguments (address first, and not
  // itself a uint64), reads the list and call the sender shard reads.
  lemma SenderArgumentsParse(codec: Codec, sender: bytes, args: seq<bytes>)
    requires OutgoingOf(args).Ok?
    requires StartsWithAddress(sender, args)
    ensures var out := OutgoingOf(args).value;
            ParsedOf(codec, sender, args) ==
            Ok(ParsedTransfers(AllParsed(out.transfers), out.destination, CallFunctionOf(out.trailing), CallArgsOf(out.trailing)))
  {
    var n := ToUint64(args[1]);
    ParsedList(codec, args, 2, true, AllParsed(TransfersFrom(args, 2, n)));
  }

  // From the arguments a sender signs to what the destination shard sees: the
  // message text parses back to the arguments written, the parser reads one
  // and the same list, receiver and call on both sides, and the executor
  // credits those very tokens, nonces and amounts.
  lemma EndToEnd(codec: Codec, sender: bytes, args: seq<bytes>, list: seq<Sent>)
    requires Lawful(codec) && OutgoingOf(args).Ok? && CountFits(args[1])
    requires StartsWithAddress(sender, args)
    requires TransfersOf(list) == OutgoingOf(args).value.transfers
    requires forall i :: 0 <= i < |list| ==> Sendable(list[i])
    ensures var text := MessageText(codec, list, OutgoingOf(args).value.trailing);
            CallData.ParsedCall(text).Ok? && CallData.ParsedCall(text).value.function_ == FUNCTION_NAME
    ensures var message := CallData.ParsedCall(MessageText(codec, list, OutgoingOf(args).value.trailing)).value.arguments;
            && ParsedOf(codec, sender, args).Ok?
            && ParsedOf(codec, sender, args) == ParsedOf(codec, args[0], message)
            && IncomingOf(codec, message).Ok?
            && IncomingOf(codec, message).value.trailing == OutgoingOf(args).value.trailing
            && |IncomingOf(codec, message).value.transfers| == |list|
            && forall i :: 0 <= i < |list| ==>
                 SameAmount(IncomingOf(codec, message).value.transfers[i], OutgoingOf(args).value.transfers[i])
  {
    hide ParsedOf, IncomingOf, MessageArguments, CallData.ParsedCall, CallData.Join, CallData.HexAll;
    var out := OutgoingOf(args).value;
    TextRoundTrip(codec, list, out.trailing);
    SenderArgumentsParse(codec, sender, args);
    ParserRoundTrip(codec, list, out.trailing, args[0]);
    ExecutorRoundTrip(codec, list, out.trailing);
    SameAmounts(list);
  }

  predicate SameAmount(r: Received, t: Transfer) {
    r.token == t.token && r.nonce == t.nonce && r.data.value == t.value
  }

  lemma SameAmounts(list: seq<Sent>)
    requires forall i :: 0 <= i < |list| ==> Sendable(list[i])
    ensures forall i :: 0 <= i < |list| ==> SameAmount(AllReceived(list)[i], TransfersOf(list)[i])
  {
  }
}
