// The records the built-in functions store, move and send.
module Tokens {
  import opened Bytes

  datatype TokenType =
    | Fungible | NonFungible | NonFungibleV2 | SemiFungible | MetaFungible
    | DynamicNFT | DynamicSFT | DynamicMeta

  // Types whose metadata stays with the holder's record.
  predicate MetaDataOnUserAccount(kind: TokenType) {
    kind == NonFungibleV2 || kind == DynamicNFT || kind == Fungible
  }

  predicate IsDynamic(kind: TokenType) {
    kind == DynamicNFT || kind == DynamicSFT || kind == DynamicMeta
  }

  datatype MetaData = MetaData(
    nonce: nat, name: bytes, creator: bytes, royalties: nat, hash: bytes,
    uris: seq<bytes>, attributes: bytes)

  // esdt.ESDigitalToken; reserved is None for a nil slice.
  datatype Token = Token(
    kind: TokenType, value: int, meta: Option<MetaData>, properties: bytes,
    reserved: Option<bytes>)

  const NOTHING: Token := Token(Fungible, 0, None, [], None)

  type Address = bytes

  // A token and a nonce as a call names them.
  datatype Key = Key(token: bytes, nonce: nat)

  // Records are stored under the name followed by the nonce bytes, nothing for
  // nonce zero. Different pairs may name one record: an NFT is also the pair
  // of its own storage identifier and nonce zero.
  function Id(k: Key): bytes {
    k.token + ToBytes(k.nonce)
  }

  // len(Reserved) == 0
  predicate ReservedEmpty(reserved: Option<bytes>) {
    reserved.None? || |reserved.value| == 0
  }

  // wasMetaDataUpdated
  predicate MetaDataUpdated(reserved: Option<bytes>) {
    reserved.Some? && reserved.value != [0] && reserved.value != [1]
  }

  // The marshaller is outside the model: any pair of functions that decodes
  // what it encoded, and whose encoding of a token with metadata is longer
  // than any amount sent as plain bytes.
  datatype Codec = Codec(marshal: Token -> bytes, unmarshal: bytes -> Option<Token>)

  const MAX_PLAIN_VALUE := 32

  ghost predicate Lawful(codec: Codec) {
    && (forall t :: codec.unmarshal(codec.marshal(t)) == Some(t))
    && (forall t: Token :: t.meta.Some? ==> |codec.marshal(t)| > MAX_PLAIN_VALUE)
  }
}
