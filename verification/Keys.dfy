// Storage keys: token identifiers, the NFT key built from identifier and
// nonce, and the identifier and nonce a wipe call recovers from its argument.
module Keys {
  import opened Bytes

  const DASH: byte := 0x2D
  const RANDOM_LENGTH := 6
  const TICKER_MIN := 3
  const TICKER_MAX := 10

  // "ELRONDesdt"
  const ESDT_PREFIX: bytes := [0x45, 0x4C, 0x52, 0x4F, 0x4E, 0x44, 0x65, 0x73, 0x64, 0x74]

  // ---- ValidateToken ----

  predicate TickerChar(c: byte) {
    0x41 <= c <= 0x5A || 0x30 <= c <= 0x39
  }

  predicate RandomChar(c: byte) {
    0x61 <= c <= 0x66 || 0x30 <= c <= 0x39
  }

  predicate TickerValid(t: bytes) {
    TICKER_MIN <= |t| <= TICKER_MAX && forall i :: 0 <= i < |t| ==> TickerChar(t[i])
  }

  predicate RandomValid(r: bytes) {
    |r| == RANDOM_LENGTH && forall i :: 0 <= i < |r| ==> RandomChar(r[i])
  }

  predicate ValidToken(t: bytes) {
    && TICKER_MIN + RANDOM_LENGTH + 1 <= |t| <= TICKER_MAX + RANDOM_LENGTH + 1
    && TickerValid(t[..|t| - RANDOM_LENGTH - 1])
    && t[|t| - RANDOM_LENGTH - 1] == DASH
    && RandomValid(t[|t| - RANDOM_LENGTH..])
  }

  // A ticker of three to ten capital letters or digits, a dash, and six small
  // letters up to f or digits.
  lemma ValidTokenIff(t: bytes)
    ensures ValidToken(t)
            <==> exists ticker: bytes, random: bytes ::
                   && t == ticker + [0x2D] + random && 3 <= |ticker| <= 10 && |random| == 6
                   && (forall i :: 0 <= i < |ticker| ==> 0x41 <= ticker[i] <= 0x5A || 0x30 <= ticker[i] <= 0x39)
                   && (forall i :: 0 <= i < |random| ==> 0x61 <= random[i] <= 0x66 || 0x30 <= random[i] <= 0x39)
  {
    if ValidToken(t) {
      var ticker, random := t[..|t| - 7], t[|t| - 6..];
      assert t == ticker + [0x2D] + random;
      assert forall i :: 0 <= i < |ticker| ==> TickerChar(ticker[i]);
      assert forall i :: 0 <= i < |random| ==> RandomChar(random[i]);
    }
    forall ticker: bytes, random: bytes
      | t == ticker + [0x2D] + random && 3 <= |ticker| <= 10 && |random| == 6
        && (forall i :: 0 <= i < |ticker| ==> 0x41 <= ticker[i] <= 0x5A || 0x30 <= ticker[i] <= 0x39)
        && (forall i :: 0 <= i < |random| ==> 0x61 <= random[i] <= 0x66 || 0x30 <= random[i] <= 0x39)
      ensures ValidToken(t)
    {
      assert t[..|t| - 7] == ticker && t[|t| - 6..] == random;
    }
  }

  function StorageKey(id: bytes): bytes {
    ESDT_PREFIX + id
  }

  // computeESDTNFTTokenKey on the prefixed identifier
  function TokenKey(token: bytes, nonce: nat): bytes {
    StorageKey(token + ToBytes(nonce))
  }

  lemma StorageKeyInjective(i: bytes, j: bytes)
    ensures StorageKey(i) == StorageKey(j) <==> i == j
  {
    assert StorageKey(i)[|ESDT_PREFIX|..] == i && StorageKey(j)[|ESDT_PREFIX|..] == j;
  }

  // Position of the first c at or after from, or the length.
  function IndexOf(b: bytes, c: byte, from: nat): (i: nat)
    requires from <= |b|
    ensures from <= i <= |b|
    ensures i < |b| ==> b[i] == c
    ensures forall j :: from <= j < i ==> b[j] != c
    decreases |b| - from
  {
    if from == |b| || b[from] == c then from else IndexOf(b, c, from + 1)
  }

  lemma FirstDash(t: bytes, rest: bytes)
    requires ValidToken(t)
    ensures IndexOf(t + rest, DASH, 0) == |t| - RANDOM_LENGTH - 1
  {
    var p := |t| - RANDOM_LENGTH - 1;
    assert (t + rest)[p] == DASH;
    forall j | 0 <= j < p
      ensures (t + rest)[j] != DASH
    {
      assert TickerChar(t[..p][j]);
    }
  }

  // Valid identifiers and nonces have distinct keys: no identifier followed by
  // nonce bytes reads as another identifier followed by other nonce bytes.
  lemma KeyInjective(s: bytes, m: nat, t: bytes, n: nat)
    requires ValidToken(s) && ValidToken(t)
    ensures TokenKey(s, m) == TokenKey(t, n) <==> s == t && m == n
  {
    if TokenKey(s, m) == TokenKey(t, n) {
      var a, b := s + ToBytes(m), t + ToBytes(n);
      StorageKeyInjective(a, b);
      FirstDash(s, ToBytes(m));
      FirstDash(t, ToBytes(n));
      assert s == a[..|s|] && t == b[..|t|];
      assert ToBytes(m) == a[|s|..] && ToBytes(n) == b[|t|..];
      FromToBytes(m);
      FromToBytes(n);
    }
  }

  // The storage identifiers of NFTs: a valid token identifier and the bytes of
  // a nonce above zero.
  predicate NftId(token: bytes, nonce: nat, id: bytes) {
    ValidToken(token) && 0 < nonce < TWO64 && id == token + ToBytes(nonce)
  }

  ghost predicate IsNft(id: bytes) {
    exists token: bytes, nonce: nat :: NftId(token, nonce, id)
  }

  // One identifier is one NFT, and no valid token identifier is an NFT's.
  lemma NftIdUnique(id: bytes, s: bytes, m: nat, t: bytes, n: nat)
    requires NftId(s, m, id) && NftId(t, n, id)
    ensures s == t && m == n
  {
    KeyInjective(s, m, t, n);
  }

  lemma TokenIsNotNft(t: bytes)
    requires ValidToken(t)
    ensures !IsNft(t)
  {
    if IsNft(t) {
      var s, m :| NftId(s, m, t);
      assert t + ToBytes(0) == t;
      KeyInjective(s, m, t, 0);
    }
  }

  // ---- the wipe argument ----

  datatype Extracted = Extracted(identifier: bytes, nonce: nat)

  // The text up to the first dash, and from there to the second dash or the
  // end: the first two pieces of a split on dashes.
  function Extract(arg: bytes): Extracted {
    var first := IndexOf(arg, DASH, 0);
    if first == |arg| then Extracted(arg, 0)
    else FromPiece(arg, first, arg[first + 1..IndexOf(arg, DASH, first + 1)])
  }

  function FromPiece(arg: bytes, first: nat, piece: bytes): Extracted
    requires first <= |arg|
  {
    if |piece| <= RANDOM_LENGTH then Extracted(arg, 0)
    else Extracted(arg[..first] + [DASH] + piece[..RANDOM_LENGTH], ToUint64(piece[RANDOM_LENGTH..]))
  }

  lemma {:induction false} ShorterValue(b: bytes, p: nat, q: nat)
    requires 0 < p < q <= |b| && b[0] != 0
    ensures PrefixValue(b, p) < PrefixValue(b, q)
  {
    PositiveValue(b, q - 1);
    if p < q - 1 {
      ShorterValue(b, p, q - 1);
    }
  }

  // The second piece is the random characters and the nonce bytes up to the
  // first dash among them.
  lemma SecondPiece(t: bytes, nonceBytes: bytes)
    requires ValidToken(t)
    ensures |t| > RANDOM_LENGTH && t[|t| - RANDOM_LENGTH - 1] == DASH
    ensures var arg := t + nonceBytes;
            var first := |t| - RANDOM_LENGTH - 1;
            && IndexOf(arg, DASH, 0) == first
            && IndexOf(arg, DASH, first + 1) == |t| + IndexOf(nonceBytes, DASH, 0)
            && arg[first + 1..|t| + IndexOf(nonceBytes, DASH, 0)]
               == t[first + 1..] + nonceBytes[..IndexOf(nonceBytes, DASH, 0)]
  {
    FirstDash(t, nonceBytes);
    var arg, first, d := t + nonceBytes, |t| - RANDOM_LENGTH - 1, IndexOf(nonceBytes, DASH, 0);
    forall j | first + 1 <= j < |t| + d
      ensures arg[j] != DASH
    {
      if j < |t| {
        assert RandomChar(t[first + 1..][j - first - 1]);
      } else {
        assert arg[j] == nonceBytes[j - |t|];
      }
    }
    if d < |nonceBytes| {
      assert arg[|t| + d] == DASH;
    }
  }

  // What the wipe call recovers, by where the nonce bytes have their first dash.
  lemma ExtractValue(t: bytes, b: bytes)
    requires ValidToken(t)
    ensures var d := IndexOf(b, DASH, 0);
            Extract(t + b) == if d == 0 then Extracted(t + b, 0) else Extracted(t, ToUint64(b[..d]))
  {
    hide ValidToken, Extract, FromPiece, IndexOf;
    SecondPiece(t, b);
    var d, first := IndexOf(b, DASH, 0), |t| - RANDOM_LENGTH - 1;
    ExtractAt(t + b, first, |t| + d, t[first + 1..] + b[..d]);
    PieceValue(t, b, first, d);
  }

  lemma ExtractAt(arg: bytes, first: nat, second: nat, piece: bytes)
    requires IndexOf(arg, DASH, 0) == first < |arg| && IndexOf(arg, DASH, first + 1) == second
    requires arg[first + 1..second] == piece
    ensures Extract(arg) == FromPiece(arg, first, piece)
  {
  }

  lemma PieceValue(t: bytes, b: bytes, first: nat, d: nat)
    requires first + 1 + RANDOM_LENGTH == |t| && t[first] == DASH && d <= |b|
    ensures FromPiece(t + b, first, t[first + 1..] + b[..d])
            == if d == 0 then Extracted(t + b, 0) else Extracted(t, ToUint64(b[..d]))
  {
    var piece := t[first + 1..] + b[..d];
    assert piece[..RANDOM_LENGTH] == t[first + 1..] && piece[RANDOM_LENGTH..] == b[..d];
    assert (t + b)[..first] + [DASH] + t[first + 1..] == t;
  }

  lemma FirstDashMeans(b: bytes)
    ensures IndexOf(b, DASH, 0) == |b| <==> DASH !in b
  {
  }

  lemma PrefixDiffers(n: nat, d: nat)
    requires n < TWO64 && 0 < d <= |ToBytes(n)|
    ensures ToUint64(ToBytes(n)[..d]) == n <==> d == |ToBytes(n)|
  {
    var b := ToBytes(n);
    FromToBytes(n);
    PrefixOnly(b[..d], b, d);
    if d < |b| {
      ShorterValue(b, d, |b|);
    } else {
      assert b[..d] == b;
    }
  }

  // Extraction recovers the identifier and the nonce exactly when no byte of
  // the nonce is a dash.
  lemma ExtractIffNoDash(t: bytes, n: nat)
    requires ValidToken(t) && n < TWO64
    ensures Extract(t + ToBytes(n)) == Extracted(t, n) <==> DASH !in ToBytes(n)
  {
    var b := ToBytes(n);
    var d := IndexOf(b, DASH, 0);
    ExtractValue(t, b);
    FirstDashMeans(b);
    if d > 0 {
      PrefixDiffers(n, d);
    } else if |b| > 0 {
      assert |t + b| > |t|;
    } else {
      FromToBytes(n);
      assert t + b == t;
    }
  }

  // With nonce 301 (bytes 0x01 0x2D) the wipe call recovers nonce 1.
  lemma ExtractWrongNonce(t: bytes)
    requires ValidToken(t)
    ensures ToBytes(301) == [0x01, 0x2D]
    ensures Extract(t + ToBytes(301)) == Extracted(t, 1)
  {
    Bytes301();
    var b: bytes := [0x01, 0x2D];
    ExtractValue(t, b);
    assert b[1] == DASH;
    assert IndexOf(b, DASH, 1) == 1;
    assert b[..1] == [1];
    assert PrefixValue([1], 1) == PrefixValue([1], 0) * 256 + 1;
  }

  lemma Bytes301()
    ensures ToBytes(301) == [0x01, 0x2D]
  {
    assert ToBytes(1) == ToBytes(0) + [1] && ToBytes(0) == [];
    assert ToBytes(301) == ToBytes(1) + [0x2D];
  }
}
