// The text format of a call: function@hex@hex...  Splitting, hex decoding and
// the two text round trips (call data and storage updates).
module CallData {
  import opened Bytes

  const AT: char := '@'

  datatype Parsed<+T> = Ok(value: T) | Fail(error: ParseError)
  datatype ParseError = TokenizeFailed | InvalidDataString

  // ---- hex (base16, RFC 4648 section 8, lower case on output) ----

  function HexDigit(d: nat): (c: char)
    requires d < 16
    ensures c != AT && HexValue(c) == Some(d)
  {
    if d < 10 then '0' + d as char else 'a' + (d - 10) as char
  }

  // encoding/hex accepts both cases when decoding.
  function HexValue(c: char): (r: Option<nat>)
    ensures r.Some? ==> r.value < 16
  {
    if '0' <= c <= '9' then Some((c - '0') as nat)
    else if 'a' <= c <= 'f' then Some((c - 'a') as nat + 10)
    else if 'A' <= c <= 'F' then Some((c - 'A') as nat + 10)
    else None
  }

  function HexEncode(b: bytes): (s: string)
    ensures |s| == 2 * |b|
    ensures AT !in s
  {
    if b == [] then "" else [HexDigit(b[0] / 16), HexDigit(b[0] % 16)] + HexEncode(b[1..])
  }

  function HexDecode(s: string): (r: Parsed<bytes>)
    ensures r.Ok? ==> |s| == 2 * |r.value|
    ensures r.Fail? ==> r.error == TokenizeFailed
  {
    if |s| == 0 then Ok([])
    else if |s| < 2 || HexValue(s[0]).None? || HexValue(s[1]).None? then Fail(TokenizeFailed)
    else
      var rest := HexDecode(s[2..]);
      if rest.Fail? then rest
      else Ok([HexValue(s[0]).value * 16 + HexValue(s[1]).value] + rest.value)
  }

  lemma {:induction false} HexRoundTrip(b: bytes)
    ensures HexDecode(HexEncode(b)) == Ok(b)
  {
    if b != [] {
      HexRoundTrip(b[1..]);
      var s := HexEncode(b);
      assert s[2..] == HexEncode(b[1..]);
      assert b == [b[0]] + b[1..];
    }
  }

  function LowerHex(c: char): char {
    if 'A' <= c <= 'F' then c - 'A' + 'a' else c
  }

  function LowerAll(s: string): (r: string)
    ensures |r| == |s|
    ensures forall i :: 0 <= i < |s| ==> r[i] == LowerHex(s[i])
  {
    if |s| == 0 then "" else [LowerHex(s[0])] + LowerAll(s[1..])
  }

  // A text decodes to the bytes whose encoding it is, in either case of the
  // letters, and to no others.
  lemma {:induction false} HexDecodeIff(s: string, b: bytes)
    ensures HexDecode(s) == Ok(b) <==> LowerAll(s) == HexEncode(b)
    decreases |s|
  {
    hide HexValue, HexDigit, LowerHex;
    if |s| >= 2 && b != [] {
      HexDecodeIff(s[2..], b[1..]);
      DigitIff(s[0], b[0] / 16);
      DigitIff(s[1], b[0] % 16);
      DecodeStep(s, b);
      EncodeStep(s, b);
    }
  }

  lemma {:induction false} DecodeStep(s: string, b: bytes)
    requires |s| >= 2 && b != []
    ensures HexDecode(s) == Ok(b)
            <==> HexValue(s[0]) == Some(b[0] / 16) && HexValue(s[1]) == Some(b[0] % 16) && HexDecode(s[2..]) == Ok(b[1..])
  {
    hide HexValue;
    assert b == [b[0]] + b[1..];
    if HexDecode(s).Ok? {
      var hi, lo := HexValue(s[0]).value, HexValue(s[1]).value;
      assert (hi * 16 + lo) / 16 == hi && (hi * 16 + lo) % 16 == lo;
      assert HexDecode(s).value[1..] == HexDecode(s[2..]).value;
    }
  }

  lemma {:induction false} EncodeStep(s: string, b: bytes)
    requires |s| >= 2 && b != []
    ensures LowerAll(s) == HexEncode(b)
            <==> LowerHex(s[0]) == HexDigit(b[0] / 16) && LowerHex(s[1]) == HexDigit(b[0] % 16)
                 && LowerAll(s[2..]) == HexEncode(b[1..])
  {
    hide LowerHex, HexDigit;
    var x, y := LowerAll(s), HexEncode(b);
    assert x == [x[0], x[1]] + x[2..] && y == [y[0], y[1]] + y[2..];
    assert x[2..] == LowerAll(s[2..]) && y[2..] == HexEncode(b[1..]);
  }

  lemma DigitIff(c: char, v: nat)
    requires v < 16
    ensures HexValue(c) == Some(v) <==> LowerHex(c) == HexDigit(v)
  {
  }

  // ---- strings.Split(data, "@") ----

  function Split(s: string): (tokens: seq<string>)
    ensures |tokens| > 0
  {
    if |s| == 0 then [""]
    else
      var rest := Split(s[1..]);
      if s[0] == AT then [""] + rest else [[s[0]] + rest[0]] + rest[1..]
  }

  // first, then "@" and the next element for each element: the way every
  // producer of call data builds its text.
  function Join(first: string, elements: seq<string>): string {
    if |elements| == 0 then first
    else Join(first, elements[..|elements| - 1]) + [AT] + elements[|elements| - 1]
  }

  lemma {:induction false} SplitPlain(s: string)
    requires AT !in s
    ensures Split(s) == [s]
  {
    if |s| != 0 {
      SplitPlain(s[1..]);
      assert [s[0]] + s[1..] == s;
    }
  }

  lemma {:induction false} SplitAppend(s: string, t: string)
    requires AT !in t
    ensures Split(s + [AT] + t) == Split(s) + [t]
  {
    var whole := s + [AT] + t;
    if s == "" {
      assert whole[1..] == t;
      SplitPlain(t);
    } else {
      assert whole[1..] == s[1..] + [AT] + t;
      SplitAppend(s[1..], t);
    }
  }

  // Splitting undoes joining: no element can swallow or create a separator.
  lemma {:induction false} SplitJoin(first: string, elements: seq<string>)
    requires AT !in first
    requires forall i :: 0 <= i < |elements| ==> AT !in elements[i]
    ensures Split(Join(first, elements)) == [first] + elements
  {
    if elements == [] {
      SplitPlain(first);
    } else {
      var n := |elements| - 1;
      SplitJoin(first, elements[..n]);
      SplitAppend(Join(first, elements[..n]), elements[n]);
      assert elements == elements[..n] + [elements[n]];
    }
  }

  function HexAll(args: seq<bytes>): (r: seq<string>)
    ensures |r| == |args|
    ensures forall i :: 0 <= i < |args| ==> r[i] == HexEncode(args[i])
  {
    seq(|args|, i requires 0 <= i < |args| => HexEncode(args[i]))
  }

  // ---- ParseData ----

  function Tokenize(data: string): Parsed<seq<string>> {
    var tokens := Split(data);
    if |tokens| == 0 || |tokens[0]| == 0 then Fail(TokenizeFailed) else Ok(tokens)
  }

  function DecodeAll(tokens: seq<string>): Parsed<seq<bytes>> {
    if |tokens| == 0 then Ok([])
    else
      var front := DecodeAll(tokens[..|tokens| - 1]);
      if front.Fail? then front
      else
        var last := HexDecode(tokens[|tokens| - 1]);
        if last.Fail? then Fail(last.error) else Ok(front.value + [last.value])
  }

  datatype Call = Call(function_: string, arguments: seq<bytes>)

  function ParsedCall(data: string): Parsed<Call> {
    var tokens := Tokenize(data);
    if tokens.Fail? then Fail(tokens.error)
    else
      var args := DecodeAll(tokens.value[1..]);
      if args.Fail? then Fail(args.error) else Ok(Call(tokens.value[0], args.value))
  }

  lemma {:induction false} DecodeAllFails(tokens: seq<string>, k: nat)
    requires k < |tokens| && HexDecode(tokens[k]).Fail?
    ensures DecodeAll(tokens) == Fail(TokenizeFailed)
  {
    var n := |tokens| - 1;
    if k < n {
      DecodeAllFails(tokens[..n], k);
    } else if DecodeAll(tokens[..n]).Fail? {
      DecodeAllError(tokens[..n]);
    }
  }

  lemma {:induction false} DecodeAllError(tokens: seq<string>)
    requires DecodeAll(tokens).Fail?
    ensures DecodeAll(tokens) == Fail(TokenizeFailed)
  {
    var n := |tokens| - 1;
    if DecodeAll(tokens[..n]).Fail? {
      DecodeAllError(tokens[..n]);
    }
  }

  method ParseArguments(tokens: seq<string>) returns (r: Parsed<seq<bytes>>)
    requires |tokens| > 0
    ensures r == DecodeAll(tokens[1..])
  {
    var arguments: seq<bytes> := [];
    var i := 1;
    while i < |tokens|
      invariant 1 <= i <= |tokens|
      invariant DecodeAll(tokens[1..i]) == Ok(arguments)
    {
      var argument := HexDecode(tokens[i]);
      if argument.Fail? {
        DecodeAllFails(tokens[1..], i - 1);
        return Fail(argument.error);
      }
      assert tokens[1..i + 1][..i - 1] == tokens[1..i];
      arguments := arguments + [argument.value];
      i := i + 1;
    }
    assert tokens[1..i] == tokens[1..];
    r := Ok(arguments);
  }

  method ParseData(data: string) returns (r: Parsed<Call>)
    ensures r == ParsedCall(data)
  {
    var tokens := Tokenize(data);
    if tokens.Fail? {
      return Fail(tokens.error);
    }
    var arguments := ParseArguments(tokens.value);
    if arguments.Fail? {
      return Fail(arguments.error);
    }
    r := Ok(Call(tokens.value[0], arguments.value));
  }

  lemma {:induction false} DecodeHexAll(args: seq<bytes>)
    ensures DecodeAll(HexAll(args)) == Ok(args)
  {
    if args != [] {
      var n := |args| - 1;
      DecodeHexAll(args[..n]);
      assert HexAll(args)[..n] == HexAll(args[..n]);
      HexRoundTrip(args[n]);
      assert args == args[..n] + [args[n]];
    }
  }

  // Text built from a function name and hex arguments parses back to exactly
  // that name and those arguments; a separator in the name, or an empty name,
  // is what breaks it.
  lemma CallRoundTrip(name: string, args: seq<bytes>)
    ensures ParsedCall(Join(name, HexAll(args))) == Ok(Call(name, args)) <==> name != "" && AT !in name
  {
    var data := Join(name, HexAll(args));
    JoinPrefix(name, HexAll(args));
    if AT !in name {
      SplitJoin(name, HexAll(args));
      DecodeHexAll(args);
      assert Split(data)[1..] == HexAll(args);
    } else if ParsedCall(data).Ok? {
      SplitTokensPlain(data);
      assert AT !in Split(data)[0];
    }
  }

  lemma {:induction false} JoinPrefix(first: string, elements: seq<string>)
    ensures first <= Join(first, elements)
    ensures elements != [] ==> |Join(first, elements)| > |first| && Join(first, elements)[|first|] == AT
  {
    if elements != [] {
      JoinPrefix(first, elements[..|elements| - 1]);
    }
  }

  lemma {:induction false} SplitTokensPlain(s: string)
    ensures forall i :: 0 <= i < |Split(s)| ==> AT !in Split(s)[i]
  {
    if |s| != 0 {
      SplitTokensPlain(s[1..]);
    }
  }

  // ---- txDataBuilder ----

  class Builder {
    var name: string
    var elements: seq<string>

    constructor ()
      ensures name == "" && elements == []
    {
      name, elements := "", [];
    }

    ghost predicate Built(f: string, args: seq<bytes>)
      reads this
    {
      name == f && elements == HexAll(args)
    }

    method Clear()
      modifies this
      ensures Built("", [])
    {
      name := "";
      elements := [];
    }

    method Func(f: string)
      modifies this
      ensures name == f && elements == old(elements)
    {
      name := f;
    }

    method AppendBytes(b: bytes)
      modifies this
      ensures name == old(name) && elements == old(elements) + [HexEncode(b)]
    {
      elements := elements + [HexEncode(b)];
    }

    method AppendInt(value: nat)
      modifies this
      ensures name == old(name) && elements == old(elements) + [HexEncode(ToBytes(value))]
    {
      elements := elements + [HexEncode(ToBytes(value))];
    }

    method GetLast() returns (last: string)
      ensures last == if elements == [] then "" else elements[|elements| - 1]
    {
      if |elements| == 0 {
        return "";
      }
      last := elements[|elements| - 1];
    }

    method SetLast(element: string)
      modifies this
      ensures name == old(name)
      ensures elements == (if old(elements) == [] then [] else old(elements)[..|old(elements)| - 1]) + [element]
    {
      if |elements| == 0 {
        elements := [element];
      }
      elements := elements[|elements| - 1 := element];
    }

    // The text of a builder that was given name f and arguments args parses
    // back to them.
    method ToString(ghost f: string, ghost args: seq<bytes>) returns (data: string)
      requires Built(f, args)
      ensures data == Join(name, elements)
      ensures ParsedCall(data) == Ok(Call(f, args)) <==> f != "" && AT !in f
    {
      data := name;
      var i := 0;
      while i < |elements|
        invariant 0 <= i <= |elements|
        invariant data == Join(name, elements[..i])
      {
        assert elements[..i + 1][..i] == elements[..i];
        data := data + [AT] + elements[i];
        i := i + 1;
      }
      assert elements[..i] == elements;
      CallRoundTrip(f, args);
    }
  }

  // ---- storage updates ----

  datatype StorageUpdate = StorageUpdate(offset: bytes, data: bytes)

  function TrimLeadingSeparator(data: string): string {
    if |data| > 0 && data[0] == AT then data[1..] else data
  }

  // Offsets and values in order, as the producer lists them.
  function Flatten(us: seq<StorageUpdate>): (r: seq<bytes>)
    ensures |r| == 2 * |us|
  {
    if |us| == 0 then []
    else Flatten(us[..|us| - 1]) + [us[|us| - 1].offset, us[|us| - 1].data]
  }

  function Pairs(args: seq<bytes>): seq<StorageUpdate> {
    if |args| < 2 then []
    else Pairs(args[..|args| - 2]) + [StorageUpdate(args[|args| - 2], args[|args| - 1])]
  }

  function UpdatesOf(data: string): Parsed<seq<StorageUpdate>> {
    var tokens := Tokenize(TrimLeadingSeparator(data));
    if tokens.Fail? then Fail(tokens.error)
    else if |tokens.value| % 2 != 0 then Fail(InvalidDataString)
    else
      var decoded := DecodeAll(tokens.value);
      if decoded.Fail? then Fail(decoded.error)
      else
        Ok(Pairs(decoded.value))
  }

  lemma DecodeAppend(tokens: seq<string>, decoded: seq<bytes>, token: string, value: bytes)
    requires DecodeAll(tokens) == Ok(decoded) && HexDecode(token) == Ok(value)
    ensures DecodeAll(tokens + [token]) == Ok(decoded + [value])
  {
    assert (tokens + [token])[..|tokens|] == tokens;
  }

  lemma PairsAppend(args: seq<bytes>, offset: bytes, data: bytes)
    ensures Pairs(args + [offset] + [data]) == Pairs(args) + [StorageUpdate(offset, data)]
  {
    assert (args + [offset] + [data])[..|args|] == args;
  }

  lemma DecodePair(tokens: seq<string>, i: nat, decoded: seq<bytes>, offset: bytes, data: bytes)
    requires i + 1 < |tokens|
    requires DecodeAll(tokens[..i]) == Ok(decoded)
    requires HexDecode(tokens[i]) == Ok(offset) && HexDecode(tokens[i + 1]) == Ok(data)
    ensures DecodeAll(tokens[..i + 2]) == Ok(decoded + [offset] + [data])
  {
    DecodeAppend(tokens[..i], decoded, tokens[i], offset);
    assert tokens[..i] + [tokens[i]] == tokens[..i + 1];
    DecodeAppend(tokens[..i + 1], decoded + [offset], tokens[i + 1], data);
    assert tokens[..i + 1] + [tokens[i + 1]] == tokens[..i + 2];
  }

  method GetStorageUpdates(data: string) returns (r: Parsed<seq<StorageUpdate>>)
    ensures r == UpdatesOf(data)
  {
    var trimmed := TrimLeadingSeparator(data);
    var tokenized := Tokenize(trimmed);
    if tokenized.Fail? {
      return Fail(tokenized.error);
    }
    var tokens := tokenized.value;
    if |tokens| % 2 != 0 {
      return Fail(InvalidDataString);
    }
    var updates: seq<StorageUpdate> := [];
    ghost var decoded: seq<bytes> := [];
    var i := 0;
    while i < |tokens|
      invariant 0 <= i <= |tokens| && i % 2 == 0 && |decoded| == i
      invariant DecodeAll(tokens[..i]) == Ok(decoded)
      invariant updates == Pairs(decoded)
    {
      var offset := HexDecode(tokens[i]);
      if offset.Fail? {
        DecodeAllFails(tokens, i);
        return Fail(offset.error);
      }
      var value := HexDecode(tokens[i + 1]);
      if value.Fail? {
        DecodeAllFails(tokens, i + 1);
        return Fail(value.error);
      }
      DecodePair(tokens, i, decoded, offset.value, value.value);
      PairsAppend(decoded, offset.value, value.value);
      decoded := decoded + [offset.value] + [value.value];
      updates := updates + [StorageUpdate(offset.value, value.value)];
      i := i + 2;
    }
    assert tokens[..i] == tokens;
    r := Ok(updates);
  }

  // Every token but the first offset.
  function TokensAfterFirst(us: seq<StorageUpdate>): seq<bytes>
    requires us != []
  {
    var n := |us| - 1;
    if n == 0 then [us[0].data] else TokensAfterFirst(us[..n]) + [us[n].offset] + [us[n].data]
  }

  lemma {:induction false} FlattenSplit(us: seq<StorageUpdate>)
    requires us != []
    ensures Flatten(us) == [us[0].offset] + TokensAfterFirst(us)
  {
    var n := |us| - 1;
    if n > 0 {
      FlattenSplit(us[..n]);
    } else {
      assert us[..0] == [];
    }
  }

  // The text of a list of updates: offsets and values in order, joined.
  function UpdatesText(us: seq<StorageUpdate>): string {
    if |us| == 0 then "" else Join(HexEncode(us[0].offset), HexAll(TokensAfterFirst(us)))
  }

  lemma TextOfOne(u: StorageUpdate)
    ensures UpdatesText([u]) == HexEncode(u.offset) + [AT] + HexEncode(u.data)
  {
    JoinHexAppend(HexEncode(u.offset), [], u.data);
    assert [] + [u.data] == TokensAfterFirst([u]);
  }

  lemma TextOfMore(us: seq<StorageUpdate>, u: StorageUpdate)
    requires |us| > 0
    ensures UpdatesText(us + [u]) == UpdatesText(us) + [AT] + HexEncode(u.offset) + [AT] + HexEncode(u.data)
  {
    var first, before := HexEncode(us[0].offset), TokensAfterFirst(us);
    assert (us + [u])[..|us|] == us;
    JoinHexAppend(first, before, u.offset);
    JoinHexAppend(first, before + [u.offset], u.data);
  }

  // What has been written when the loop reaches update i.
  function TextBefore(us: seq<StorageUpdate>, i: nat): string
    requires i < |us|
  {
    if i == 0 then "" else UpdatesText(us[..i]) + [AT]
  }

  lemma TextStep(us: seq<StorageUpdate>, i: nat)
    requires i < |us|
    ensures UpdatesText(us[..i + 1]) ==
            TextBefore(us, i) + HexEncode(us[i].offset) + [AT] + HexEncode(us[i].data)
  {
    if i == 0 {
      TextOfOne(us[0]);
      assert us[..1] == [us[0]];
      assert "" + HexEncode(us[0].offset) == HexEncode(us[0].offset);
    } else {
      TextOfMore(us[..i], us[i]);
      assert us[..i] + [us[i]] == us[..i + 1];
    }
  }

  method CreateDataFromStorageUpdate(us: seq<StorageUpdate>) returns (data: string)
    ensures data == UpdatesText(us)
  {
    data := "";
    var i := 0;
    while i < |us|
      invariant 0 <= i <= |us|
      invariant data == if i < |us| then TextBefore(us, i) else UpdatesText(us)
    {
      data := data + HexEncode(us[i].offset);
      data := data + [AT];
      data := data + HexEncode(us[i].data);
      TextStep(us, i);
      if i < |us| - 1 {
        data := data + [AT];
      } else {
        assert us[..i + 1] == us;
      }
      i := i + 1;
    }
  }

  lemma JoinHexAppend(first: string, args: seq<bytes>, b: bytes)
    ensures Join(first, HexAll(args + [b])) == Join(first, HexAll(args)) + [AT] + HexEncode(b)
  {
    assert HexAll(args + [b]) == HexAll(args) + [HexEncode(b)];
    JoinAppend(first, HexAll(args), HexEncode(b));
  }

  lemma JoinAppend(first: string, elements: seq<string>, e: string)
    ensures Join(first, elements + [e]) == Join(first, elements) + [AT] + e
  {
    assert (elements + [e])[..|elements|] == elements;
  }

  lemma {:induction false} PairsFlatten(us: seq<StorageUpdate>)
    ensures Pairs(Flatten(us)) == us
  {
    if us != [] {
      var n := |us| - 1;
      PairsFlatten(us[..n]);
      assert Flatten(us)[..2 * n] == Flatten(us[..n]);
      assert us == us[..n] + [us[n]];
    }
  }

  lemma HexAllCons(first: bytes, rest: seq<bytes>)
    ensures HexAll([first] + rest) == [HexEncode(first)] + HexAll(rest)
  {
  }

  // Text starting with a hex digit keeps all its tokens.
  lemma TextWithFirst(first: bytes, rest: seq<bytes>)
    requires |first| > 0
    ensures Tokenize(TrimLeadingSeparator(Join(HexEncode(first), HexAll(rest)))) == Ok(HexAll([first] + rest))
  {
    NotTrimmed(HexEncode(first), HexAll(rest));
    HexAllCons(first, rest);
  }

  lemma TokensDecide(data: string, args: seq<bytes>)
    requires Tokenize(TrimLeadingSeparator(data)) == Ok(HexAll(args))
    requires |args| % 2 == 0
    ensures UpdatesOf(data) == Ok(Pairs(args))
  {
    DecodeHexAll(args);
  }

  // Text starting with the separator, which the parser trims, loses one token.
  lemma TextWithoutFirst(rest: seq<bytes>)
    requires |rest| % 2 == 1
    ensures UpdatesOf(Join("", HexAll(rest))).Fail?
  {
    Trimmed(HexAll(rest));
    var tokens := Tokenize(TrimLeadingSeparator(Join("", HexAll(rest))));
    assert tokens.Ok? ==> |tokens.value| == |rest|;
  }

  lemma NotTrimmed(first: string, elements: seq<string>)
    requires |first| > 0 && AT !in first
    requires forall i :: 0 <= i < |elements| ==> AT !in elements[i]
    ensures Tokenize(TrimLeadingSeparator(Join(first, elements))) == Ok([first] + elements)
  {
    var data := Join(first, elements);
    JoinPrefix(first, elements);
    assert data[0] == first[0];
    SplitJoin(first, elements);
  }

  lemma Trimmed(elements: seq<string>)
    requires |elements| > 0
    requires forall i :: 0 <= i < |elements| ==> AT !in elements[i]
    ensures Split(TrimLeadingSeparator(Join("", elements))) == elements
  {
    var data := Join("", elements);
    JoinPrefix("", elements);
    SplitJoin("", elements);
    assert |data| > 0 && data[0] == AT;
    var rest := Split(data[1..]);
    assert Split(data) == [""] + rest;
    assert rest == Split(data)[1..] == elements;
  }

  // Parsing what was produced gives the same list exactly when it is non-empty
  // and starts with a non-empty offset; otherwise it is an error, never
  // another list.
  lemma UpdatesRoundTrip(us: seq<StorageUpdate>)
    ensures UpdatesOf(UpdatesText(us)) == Ok(us) <==> us != [] && us[0].offset != []
    ensures us == [] || us[0].offset == [] ==> UpdatesOf(UpdatesText(us)).Fail?
  {
    if us != [] {
      var first, rest := us[0].offset, TokensAfterFirst(us);
      FlattenSplit(us);
      assert |[first] + rest| == 2 * |us|;
      if first != [] {
        TextWithFirst(first, rest);
        TokensDecide(UpdatesText(us), [first] + rest);
        PairsFlatten(us);
      } else {
        assert HexEncode(first) == "";
        TextWithoutFirst(rest);
      }
    }
  }
}
