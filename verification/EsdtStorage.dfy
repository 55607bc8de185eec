// Token records split between holder accounts and the shard's system account,
// which keeps the metadata and the liquidity total of each NFT.
module EsdtStorage {
  import opened Bytes
  import opened Tokens

  datatype Result<+T> = Ok(value: T) | Fail(error: Error) {
    predicate IsFailure() {
      Fail?
    }

    function PropagateFailure<U>(): Result<U>
      requires Fail?
    {
      Fail(error)
    }

    function Extract(): T
      requires Ok?
    {
      value
    }
  }

  datatype Error =
    | NewNFTDataOnSenderAddress | FrozenForAccount | TokenPaused | BadTokenType
    | NilUserAccount | NilESDTData | InvalidLiquidity | BadMetaData
    | OnlyFungible | InsufficientFunds | NegativeValue | InvalidQuantity | InvalidNonce | NoMetadata
    | InvalidReceiver | TransferNotAllowed | NotPayable | NotFrozen | NotAllowed | InvalidArguments

  datatype Flags = Flags(
    saveToSystemAccount: bool, sendAlways: bool, fixOldTokenLiquidity: bool, alwaysSaveMetaData: bool,
    dynamicEsdt: bool, checkFrozenCollection: bool, wipeLowersLiquidity: bool, checkTransfer: bool,
    baseTokenInMultiTransfer: bool)

  // What the code asks other components: fixed for a run.
  datatype Env = Env(
    flags: Flags, selfShard: nat, shards: nat, esdtAddress: Address,
    paused: set<bytes>, tokenType: bytes -> Option<TokenType>)

  // The account's base-token balance, and its token records by identifier.
  datatype Account = Account(balance: int, tokens: map<bytes, Token>)

  datatype Shard = Shard(accounts: map<Address, Account>, system: map<bytes, Token>)

  // Loading an address that was never used gives an empty account.
  function AccountAt(sh: Shard, a: Address): Account {
    if a in sh.accounts then sh.accounts[a] else Account(0, map[])
  }

  function RecordAt(sh: Shard, a: Address, id: bytes): Option<Token> {
    if id in AccountAt(sh, a).tokens then Some(AccountAt(sh, a).tokens[id]) else None
  }

  function PutAccount(sh: Shard, a: Address, acc: Account): Shard {
    sh.(accounts := sh.accounts[a := acc])
  }

  // SaveKeyValue(key, nil) removes the key.
  function PutRecord(sh: Shard, a: Address, id: bytes, t: Option<Token>): Shard {
    var acc := AccountAt(sh, a);
    PutAccount(sh, a, acc.(tokens := if t.Some? then acc.tokens[id := t.value] else acc.tokens - {id}))
  }

  function PutSystem(sh: Shard, id: bytes, t: Option<Token>): Shard {
    sh.(system := if t.Some? then sh.system[id := t.value] else sh.system - {id})
  }

  function SystemAt(sh: Shard, id: bytes): Option<Token> {
    if id in sh.system then Some(sh.system[id]) else None
  }

  // ---- reading ----

  datatype Read = Read(token: Token, isNew: bool)

  function OnDestination(env: Env, sh: Shard, a: Address, k: Key): Read {
    var record := RecordAt(sh, a, Id(k));
    if record.None? then Read(NOTHING, true)
    else
      var t := record.value;
      if !env.flags.saveToSystemAccount || k.nonce == 0 || MetaDataOnUserAccount(t.kind) then Read(t, false)
      else
        var s := SystemAt(sh, Id(k));
        if s.None? || s.value.meta.None? then Read(t, false)
        else Read(t.(meta := s.value.meta, reserved := if IsDynamic(t.kind) then s.value.reserved else t.reserved), false)
  }

  // Fungible records, and those whose metadata stays with the holder, are read
  // from the holder's account alone.
  lemma OwnRecordIsRead(env: Env, sh: Shard, a: Address, k: Key)
    requires Id(k) in AccountAt(sh, a).tokens
    requires k.nonce == 0 || !env.flags.saveToSystemAccount
             || AccountAt(sh, a).tokens[Id(k)].kind in {NonFungibleV2, DynamicNFT, Fungible}
    ensures OnDestination(env, sh, a, k) == Read(AccountAt(sh, a).tokens[Id(k)], false)
  {
  }

  function OnSender(env: Env, sh: Shard, a: Address, k: Key): Result<Token> {
    var r := OnDestination(env, sh, a, k);
    if r.isNew then Fail(NewNFTDataOnSenderAddress) else Ok(r.token)
  }

  // ---- frozen and paused ----

  // The first property byte of a two-byte metadata holds the frozen bit.
  predicate Frozen(properties: bytes) {
    |properties| == 2 && properties[0] % 2 == 1
  }

  function FreezeAndPause(env: Env, a: Address, id: bytes, t: Token, returnWithError: bool): Option<Error> {
    if returnWithError || a == env.esdtAddress then None
    else if Frozen(t.properties) then Some(FrozenForAccount)
    else if id in env.paused then Some(TokenPaused)
    else None
  }

  function CollectionFrozen(env: Env, sh: Shard, a: Address, k: Key, returnWithError: bool): Option<Error> {
    if !env.flags.checkFrozenCollection || k.nonce == 0 || returnWithError then None
    else
      var collection := RecordAt(sh, a, k.token);
      if collection.Some? && Frozen(collection.value.properties) then Some(FrozenForAccount) else None
  }

  function SaveBlocked(env: Env, sh: Shard, a: Address, k: Key, t: Token, returnWithError: bool): Option<Error> {
    var collection := FreezeAndPause(env, a, k.token, t, returnWithError);
    var item := FreezeAndPause(env, a, Id(k), t, returnWithError);
    if collection.Some? then collection
    else if item.Some? then item
    else CollectionFrozen(env, sh, a, k, returnWithError)
  }

  // ---- saving ----

  // The type a record is saved under; None when the global type is unreadable.
  function SavedKind(env: Env, k: Key, kind: TokenType): Option<TokenType> {
    if !env.flags.dynamicEsdt || kind == NonFungibleV2 || IsDynamic(kind) || kind == Fungible then Some(kind)
    else env.tokenType(k.token)
  }

  function ExistsOn(env: Env, sender: nat): bytes {
    seq(env.shards, i requires 0 <= i < env.shards => if i == env.selfShard || i == sender then 1 else 0)
  }

  // What a save of t by holder a leaves at the system account, when the type
  // keeps its metadata there.
  function SystemAfterSave(env: Env, sh: Shard, a: Option<Address>, sender: nat, k: Key, t: Token, updateAll: bool)
    : Result<Option<Token>>
  {
    var cur := SystemAt(sh, Id(k));
    if k.nonce == 0 || t.meta.None? then Ok(cur)
    else
      var refresh := env.flags.alwaysSaveMetaData && env.flags.sendAlways && cur.Some?;
      var updated := refresh && MetaDataUpdated(t.reserved);
      if !updateAll && cur.Some? && !updated then
        Ok(if refresh && ReservedEmpty(cur.value.reserved) then Some(cur.value.(meta := t.meta)) else cur)
      else
        var first := cur.None? && env.flags.sendAlways;
        if first && env.flags.fixOldTokenLiquidity && a.None? then Fail(NilUserAccount)
        else
          var old_ := first && env.flags.fixOldTokenLiquidity && a.Some? && RecordAt(sh, a.value, Id(k)).Some?
                      && RecordAt(sh, a.value, Id(k)).value.meta.Some?;
          var reserved := if first && !old_ then Some([1]) else None;
          var props :=
            if first then []
            else if env.flags.sendAlways then seq(env.shards, i => 0) else ExistsOn(env, sender);
          Ok(Some(Token(t.kind, 0, t.meta, props,
                        if IsDynamic(t.kind) && !ReservedEmpty(t.reserved) then t.reserved else reserved)))
  }

  datatype SaveArgs = SaveArgs(updateAll: bool, returnWithError: bool, keepOnZero: bool)

  datatype Saved = Saved(shard: Shard, kind: TokenType)

  // What is stored with the holder.
  function HolderRecord(env: Env, t: Token, keepOnZero: bool): Option<Token> {
    if t.value <= 0 && !keepOnZero then None
    else if !env.flags.saveToSystemAccount || MetaDataOnUserAccount(t.kind) then Some(t)
    else Some(Token(t.kind, t.value, None, t.properties, None))
  }

  function SaveToken(env: Env, sh: Shard, sender: nat, a: Address, k: Key, t: Token, args: SaveArgs): Result<Saved> {
    var blocked := SaveBlocked(env, sh, a, k, t, args.returnWithError);
    if blocked.Some? then Fail(blocked.value)
    else
      var kind := SavedKind(env, k, t.kind);
      if kind.None? then Fail(BadTokenType)
      else
        var t' := t.(kind := kind.value);
        var sh1 := if kind.value != t.kind && kind.value == NonFungibleV2 then PutSystem(sh, Id(k), None) else sh;
        var sys :=
          if env.flags.saveToSystemAccount && !MetaDataOnUserAccount(t'.kind)
          then SystemAfterSave(env, sh1, Some(a), sender, k, t', args.updateAll)
          else Ok(SystemAt(sh1, Id(k)));
        if sys.Fail? then Fail(sys.error)
        else Ok(Saved(PutRecord(PutSystem(sh1, Id(k), sys.value), a, Id(k), HolderRecord(env, t', args.keepOnZero)), t'.kind))
  }

  // ---- liquidity ----

  function AddToLiquidity(env: Env, sh: Shard, k: Key, kind: TokenType, delta: int, keepOnZero: bool): Result<Shard> {
    if !env.flags.saveToSystemAccount || !env.flags.sendAlways || k.nonce == 0 || MetaDataOnUserAccount(kind) then Ok(sh)
    else
      var s := SystemAt(sh, Id(k));
      if s.None? then Fail(NilESDTData)
      else
        var t := s.value;
        if ReservedEmpty(t.reserved) then Ok(sh)
        else if env.flags.fixOldTokenLiquidity && t.value == 0 && delta < 0 then
          Ok(if MetaDataUpdated(t.reserved) then sh else PutSystem(sh, Id(k), Some(t.(reserved := None))))
        else if t.value + delta < 0 then Fail(InvalidLiquidity)
        else Ok(PutSystem(sh, Id(k), if t.value + delta == 0 && !keepOnZero then None else Some(t.(value := t.value + delta))))
  }

  // Lowering a total by what was just added to it gives back the entry as it
  // was, amount, metadata and all.
  lemma LiquidityUndone(env: Env, sh: Shard, k: Key, kind: TokenType, v: nat, keep: bool)
    requires AddToLiquidity(env, sh, k, kind, v, keep).Ok? && v > 0
    requires SystemAt(sh, Id(k)).Some? ==> SystemAt(sh, Id(k)).value.value >= 0
    ensures AddToLiquidity(env, AddToLiquidity(env, sh, k, kind, v, keep).value, k, kind, -(v as int), true) == Ok(sh)
  {
    hide Id;
    if SystemAt(sh, Id(k)).Some? {
      var t := SystemAt(sh, Id(k)).value;
      assert sh.system[Id(k) := t.(value := t.value + v)][Id(k) := t] == sh.system;
    }
  }

  // ---- the storage handler ----

  class Storage {
    var accounts: map<Address, Account>
    var system: map<bytes, Token>
    const env: Env

    constructor (env: Env, sh: Shard)
      ensures this.env == env && State() == sh
    {
      this.env := env;
      accounts, system := sh.accounts, sh.system;
    }

    function State(): Shard
      reads this
    {
      Shard(accounts, system)
    }

    method RetrieveRecord(a: Address, id: bytes) returns (t: Option<Token>)
      ensures t == RecordAt(State(), a, id)
    {
      if a !in accounts || id !in accounts[a].tokens {
        return None;
      }
      t := Some(accounts[a].tokens[id]);
    }

    method SaveRecord(a: Address, id: bytes, t: Option<Token>)
      modifies this
      ensures State() == PutRecord(old(State()), a, id, t)
    {
      var acc := AccountAt(State(), a);
      if t.Some? {
        acc := acc.(tokens := acc.tokens[id := t.value]);
      } else {
        acc := acc.(tokens := acc.tokens - {id});
      }
      accounts := accounts[a := acc];
    }

    method SaveSystem(id: bytes, t: Option<Token>)
      modifies this
      ensures State() == PutSystem(old(State()), id, t)
    {
      if t.Some? {
        system := system[id := t.value];
      } else {
        system := system - {id};
      }
    }

    method GetTokenOnDestination(a: Address, k: Key) returns (t: Token, isNew: bool)
      ensures Read(t, isNew) == OnDestination(env, State(), a, k)
    {
      t := NOTHING;
      var data := RetrieveRecord(a, Id(k));
      if data.None? {
        return t, true;
      }
      t := data.value;
      if !env.flags.saveToSystemAccount || k.nonce == 0 || MetaDataOnUserAccount(t.kind) {
        return t, false;
      }
      if Id(k) in system && system[Id(k)].meta.Some? {
        t := t.(meta := system[Id(k)].meta);
        if IsDynamic(t.kind) {
          t := t.(reserved := system[Id(k)].reserved);
        }
      }
      isNew := false;
    }

    method GetTokenOnSender(a: Address, k: Key) returns (r: Result<Token>)
      ensures r == OnSender(env, State(), a, k)
    {
      var t, isNew := GetTokenOnDestination(a, k);
      if isNew {
        return Fail(NewNFTDataOnSenderAddress);
      }
      r := Ok(t);
    }

    method SaveMetaDataIfRequired(k: Key, t: Token) returns (shouldUpdate: bool)
      modifies this
      ensures accounts == old(accounts)
      ensures var cur := SystemAt(old(State()), Id(k));
              var refresh := env.flags.alwaysSaveMetaData && env.flags.sendAlways && cur.Some?;
              && shouldUpdate == (refresh && MetaDataUpdated(t.reserved))
              && State() == if refresh && !shouldUpdate && ReservedEmpty(cur.value.reserved)
                            then PutSystem(old(State()), Id(k), Some(cur.value.(meta := t.meta))) else old(State())
    {
      if !env.flags.alwaysSaveMetaData || !env.flags.sendAlways || Id(k) !in system {
        return false;
      }
      var onSystem := system[Id(k)];
      if MetaDataUpdated(t.reserved) {
        return true;
      }
      if !ReservedEmpty(onSystem.reserved) {
        return false;
      }
      SaveSystem(Id(k), Some(onSystem.(meta := t.meta)));
      shouldUpdate := false;
    }

    method SaveMetaDataToSystemAccount(a: Option<Address>, sender: nat, k: Key, t: Token, updateAll: bool)
      returns (error: Option<Error>)
      modifies this
      ensures accounts == old(accounts)
      ensures var spec := SystemAfterSave(env, old(State()), a, sender, k, t, updateAll);
              && (error.None? <==> spec.Ok?)
              && (spec.Fail? ==> error == Some(spec.error))
              && (spec.Ok? ==> State() == PutSystem(old(State()), Id(k), spec.value))
    {
      if k.nonce == 0 || t.meta.None? {
        assert State() == PutSystem(State(), Id(k), SystemAt(State(), Id(k)));
        return None;
      }
      var hadData := Id(k) in system;
      var shouldUpdate := SaveMetaDataIfRequired(k, t);
      if !updateAll && hadData && !shouldUpdate {
        assert State() == PutSystem(State(), Id(k), SystemAt(State(), Id(k)));
        return None;
      }
      var onSystem := Token(t.kind, 0, t.meta, seq(env.shards, i => 0), None);
      if !hadData && env.flags.sendAlways {
        onSystem := onSystem.(properties := [], reserved := Some([1]));
        if env.flags.fixOldTokenLiquidity {
          if a.None? {
            return Some(NilUserAccount);
          }
          var onUser := RetrieveRecord(a.value, Id(k));
          if onUser.Some? && onUser.value.meta.Some? {
            onSystem := onSystem.(reserved := None);
          }
        }
      }
      if IsDynamic(t.kind) && !ReservedEmpty(t.reserved) {
        onSystem := onSystem.(reserved := t.reserved);
      }
      if !env.flags.sendAlways {
        onSystem := onSystem.(properties := ExistsOn(env, sender));
      }
      SaveSystem(Id(k), Some(onSystem));
      error := None;
    }

    method Save(sender: nat, a: Address, k: Key, t: Token, args: SaveArgs) returns (r: Result<TokenType>)
      modifies this
      ensures var spec := SaveToken(env, old(State()), sender, a, k, t, args);
              && (r.Ok? <==> spec.Ok?)
              && (r.Fail? ==> r.error == spec.error)
              && (r.Ok? ==> r.value == spec.value.kind && State() == spec.value.shard)
    {
      var blocked := SaveBlocked(env, State(), a, k, t, args.returnWithError);
      if blocked.Some? {
        return Fail(blocked.value);
      }
      var kind := SavedKind(env, k, t.kind);
      if kind.None? {
        return Fail(BadTokenType);
      }
      var token := t;
      if kind.value != t.kind {
        token := token.(kind := kind.value);
        if token.kind == NonFungibleV2 {
          SaveSystem(Id(k), None);
        }
      }
      ghost var before := State();
      if env.flags.saveToSystemAccount && !MetaDataOnUserAccount(token.kind) {
        var error := SaveMetaDataToSystemAccount(Some(a), sender, k, token, args.updateAll);
        if error.Some? {
          return Fail(error.value);
        }
      } else {
        assert State() == PutSystem(before, Id(k), SystemAt(before, Id(k)));
      }
      if token.value <= 0 && !args.keepOnZero {
        SaveRecord(a, Id(k), None);
      } else if !env.flags.saveToSystemAccount || MetaDataOnUserAccount(token.kind) {
        SaveRecord(a, Id(k), Some(token));
      } else {
        SaveRecord(a, Id(k), Some(Token(token.kind, token.value, None, token.properties, None)));
      }
      r := Ok(token.kind);
    }

    method AddToLiquiditySystemAccount(k: Key, kind: TokenType, delta: int,
                                       keepOnZero: bool) returns (error: Option<Error>)
      modifies this
      ensures accounts == old(accounts)
      ensures var spec := AddToLiquidity(env, old(State()), k, kind, delta, keepOnZero);
              && (error.None? <==> spec.Ok?)
              && (spec.Fail? ==> error == Some(spec.error))
              && (spec.Ok? ==> State() == spec.value)
    {
      if !env.flags.saveToSystemAccount || !env.flags.sendAlways || k.nonce == 0 || MetaDataOnUserAccount(kind) {
        return None;
      }
      if Id(k) !in system {
        return Some(NilESDTData);
      }
      var t := system[Id(k)];
      if ReservedEmpty(t.reserved) {
        return None;
      }
      if env.flags.fixOldTokenLiquidity {
        if t.value == 0 && delta < 0 {
          if !MetaDataUpdated(t.reserved) {
            t := t.(reserved := None);
          }
          assert MetaDataUpdated(t.reserved) ==> system[Id(k) := t] == system;
          SaveSystem(Id(k), Some(t));
          return None;
        }
      }
      t := t.(value := t.value + delta);
      if t.value < 0 {
        return Some(InvalidLiquidity);
      }
      if t.value == 0 && !keepOnZero {
        SaveSystem(Id(k), None);
        return None;
      }
      SaveSystem(Id(k), Some(t));
      error := None;
    }
  }

  // ---- the split storage behaves as one map of records ----

  // With dynamic tokens on, a record of one of the first NFT types takes the
  // token's global type when it is saved; any other type stays.
  predicate SavedAs(env: Env, k: Key, was: TokenType, now: TokenType) {
    if env.flags.dynamicEsdt && (was == NonFungible || was == SemiFungible || was == MetaFungible)
    then env.tokenType(k.token) == Some(now) else now == was
  }

  // A saved NFT record is read back whole: type, amount, properties and
  // metadata, for either storage setting and any token type, and whatever was
  // stored before.
  lemma SaveThenRead(env: Env, sh: Shard, sender: nat, a: Address, k: Key, t: Token, args: SaveArgs)
    requires k.nonce > 0 && t.value > 0 && t.meta.Some? && args.updateAll
    requires SaveToken(env, sh, sender, a, k, t, args).Ok?
    ensures var saved := SaveToken(env, sh, sender, a, k, t, args).value;
            var read := OnDestination(env, saved.shard, a, k);
            && !read.isNew && read.token.kind == saved.kind && SavedAs(env, k, t.kind, saved.kind)
            && read.token.value == t.value && read.token.properties == t.properties && read.token.meta == t.meta
  {
  }

  predicate SameHolding(before: Read, after: Read) {
    && before.isNew == after.isNew && before.token.value == after.token.value
    && before.token.kind == after.token.kind && before.token.properties == after.token.properties
  }

  // Saving leaves every other holder's record of the token as it was, however
  // it is named when read.
  lemma SaveKeepsOtherHolders(env: Env, sh: Shard, sender: nat, a: Address, k: Key, t: Token, args: SaveArgs,
                              b: Address, j: Key)
    requires SaveToken(env, sh, sender, a, k, t, args).Ok? && b != a
    ensures var after := SaveToken(env, sh, sender, a, k, t, args).value.shard;
            && AccountAt(after, b) == AccountAt(sh, b)
            && SameHolding(OnDestination(env, sh, b, j), OnDestination(env, after, b, j))
  {
  }

  // Saving leaves every other record and entry entirely as it was.
  lemma SaveKeepsOtherIds(env: Env, sh: Shard, sender: nat, a: Address, k: Key, t: Token, args: SaveArgs, b: Address,
                          id: bytes)
    requires SaveToken(env, sh, sender, a, k, t, args).Ok? && id != Id(k)
    ensures var after := SaveToken(env, sh, sender, a, k, t, args).value.shard;
            RecordAt(after, b, id) == RecordAt(sh, b, id) && SystemAt(after, id) == SystemAt(sh, id)
  {
    hide Id;
  }

  lemma SaveKeepsOtherTokens(env: Env, sh: Shard, sender: nat, a: Address, k: Key, t: Token, args: SaveArgs,
                             b: Address, j: Key)
    requires SaveToken(env, sh, sender, a, k, t, args).Ok? && Id(j) != Id(k)
    ensures var after := SaveToken(env, sh, sender, a, k, t, args).value.shard;
            OnDestination(env, after, b, j) == OnDestination(env, sh, b, j)
  {
    hide SaveToken, Id;
    SaveKeepsOtherIds(env, sh, sender, a, k, t, args, b, Id(j));
  }

  datatype Write = Write(sender: nat, holder: Address, key: Key, token: Token, returnWithError: bool)

  predicate FullRecord(w: Write) {
    w.key.nonce > 0 && w.token.value > 0 && w.token.meta.Some?
  }

  function WriteOne(env: Env, sh: Shard, w: Write): Result<Saved> {
    SaveToken(env, sh, w.sender, w.holder, w.key, w.token, SaveArgs(true, w.returnWithError, false))
  }

  function WriteAll(env: Env, sh: Shard, ws: seq<Write>): Result<Shard> {
    if |ws| == 0 then Ok(sh)
    else
      var front := WriteAll(env, sh, ws[..|ws| - 1]);
      if front.Fail? then front
      else
        var last := WriteOne(env, front.value, ws[|ws| - 1]);
        if last.Fail? then Fail(last.error) else Ok(last.value.shard)
  }

  predicate SameCell(w: Write, v: Write) {
    w.holder == v.holder && Id(w.key) == Id(v.key)
  }

  // After any run of saves, each holder reads back the amount, type and
  // properties last saved for it; and the metadata too, when no later save
  // was for the same token. So the split storage is one map of records.
  lemma {:induction false} LastWriteIsRead(env: Env, sh: Shard, ws: seq<Write>, i: nat)
    requires i < |ws| && FullRecord(ws[i]) && WriteAll(env, sh, ws).Ok?
    requires forall j :: i < j < |ws| ==> !SameCell(ws[j], ws[i])
    ensures var w := ws[i];
            var read := OnDestination(env, WriteAll(env, sh, ws).value, w.holder, w.key);
            && !read.isNew && SavedAs(env, w.key, w.token.kind, read.token.kind)
            && read.token.value == w.token.value && read.token.properties == w.token.properties
            && ((forall j :: i < j < |ws| ==> Id(ws[j].key) != Id(w.key)) ==> read.token.meta == w.token.meta)
  {
    hide SaveToken, OnDestination, Id;
    var n := |ws| - 1;
    var w, last := ws[i], ws[n];
    var front := WriteAll(env, sh, ws[..n]).value;
    if i == n {
      SaveThenRead(env, front, w.sender, w.holder, w.key, w.token, SaveArgs(true, w.returnWithError, false));
    } else {
      LastWriteIsRead(env, sh, ws[..n], i);
      assert forall j :: i < j < n ==> ws[..n][j] == ws[j];
      assert !SameCell(last, w);
      if Id(last.key) == Id(w.key) {
        SaveKeepsOtherHolders(env, front, last.sender, last.holder, last.key, last.token,
                              SaveArgs(true, last.returnWithError, false), w.holder, w.key);
      } else {
        SaveKeepsOtherTokens(env, front, last.sender, last.holder, last.key, last.token,
                             SaveArgs(true, last.returnWithError, false), w.holder, w.key);
      }
    }
  }
}
