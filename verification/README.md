# Verified model of the ESDT built-in functions

This project models, in Dafny 4.11, the part of `mx-chain-vm-common-go` that moves tokens: the built-in functions as a
multi-shard token ledger, the text format that carries transfers between shards, the roles that number NFTs, and the
compliance gate with its gas. `dafny verify dfyconfig.toml` checks everything.

How the files fit together:

- `Bytes`, `Tokens`: big-endian numbers, the token record, token types, the abstract marshaller.
- `Keys`: token identifiers, storage keys, and the key a wipe call reads back from its argument.
- `CallData`: `function@hex@hex…`, storage updates, the transaction-data builder.
- `TransferWire`: the argument lists of a multi transfer, and the two readers of the message (executor and parser).
- `MetaDataMerge`: the per-field versioned merge of NFT metadata.
- `EsdtStorage`: records split between the holder's account and the shard's system account, and the liquidity total.
- `Ledger`: the functions that move, create and destroy tokens on one shard, as functions of the shard's state.
- `Network`: several shards, messages in flight, and runs of calls and deliveries; a failed call changes nothing.
- `Conservation`: for every asset, held plus in flight equals minted less burned and wiped, over every run.
- `Liquidity`: the liquidity total equals the sum it stands for, over every run, so its errors cannot be returned.
- `Metadata`: where metadata is kept, what a message carries of it, what an arrival leaves of it, what an update stamps.
- `Permissions`: when each function may do what it is asked: frozen and paused tokens, limits, roles, payability.
- `BuiltIns`: the same functions step by step on the storage handler; each method's contract says when it
  succeeds, which balances it moves, what is read back, and that it keeps the liquidity totals, besides ending in the
  state of its function in `Ledger`.
- `Roles`, `CreateRole`, `MultiShard`: role lists; the create role, its nonce counter and hand-overs; several creators of
  one token with nonce ranges of their own.
- `JointRun`: the ledger and the create protocol in one run, where each create takes its nonce from the counter.
- `DrwaRecords`, `DrwaGate`, `Gas`: compliance records and their binary layout, the conditions of the gate, gas.
- `GatedTransfer`: the gate and the ledger on one byte-level storage: what moves was checked.
- `MetaDataAdmin`, `KeyValue`, `Reindex`: metadata deletion and addition, SaveKeyValue, output transfer indices.
- `Composition`: the ledger's messages are what the wire format carries.

Two modelling decisions run through the ledger. Records are kept under the bytes the code stores them under, the
identifier followed by the nonce bytes, so one record may be named in several ways: an NFT can be listed by its whole
storage identifier with nonce zero, and the code accepts that. `Keys.KeyInjective` says that valid identifiers name each
record in one way only; where a theorem needs well-formed names it says so, and a lemma shows what happens without
(`Liquidity.SendOneCoversIff`, `Liquidity.AliasLeaves`, `GatedTransfer.AliasMoves`). And every call carries its own host:
flags, round, roles, paused tokens and payability may differ from call to call, so the conservation theorem holds across
any switch of flags. What the host promises (roll-back of failed calls, dispatch to the right shard) is stated in
`Network.Next` and `Liquidity.Guarded`. Runs may start with empty shards: `Liquidity.GenesisCovered`,
`MultiShard.StartNumbered` and `JointRun.JointStart` establish the invariants there.

Where the code and its comments disagree the model follows the code. `esdtRoles.go:98` gives a multi-shard start nonce as
last byte times MaxUint64 over 256; the code divides first, so ranges are 2^56-1 apart. `drwa.go:247` says a profile
overrides a mirror of the same version; the code, and the next lines of the comment, ask for a strictly newer one.

## Model

| member | source | states |
|---|---|---|
| Conservation.RunConserves | builtInFunctions/multiESDTNFTTransfer.go:202-250 | over any run of calls and deliveries, on any shards and under any flags, each asset's balances on all accounts of all shards plus the amounts in flight equal what was minted less what was burned and wiped |
| Conservation.StepConserves | builtInFunctions/esdtNFTTransfer.go:268-359 | one call or delivery, successful or rolled back, keeps the net backed, if a create names an NFT its holder has none of |
| Conservation.SendAllShift | builtInFunctions/multiESDTNFTTransfer.go:377-434 | a successful list transfer takes from the sender exactly what the list names of each asset, counting every mention, gives exactly that to a receiver in the shard, and moves nothing of anyone else |
| Conservation.BuildItemsCarries | builtInFunctions/multiESDTNFTTransfer.go:608-655 | the message to another shard carries exactly the listed amounts, and building it touches no account |
| Conservation.ReceiveAllShift | builtInFunctions/multiESDTNFTTransfer.go:203-250 | the receiver of a message gains exactly what it carries of each asset, and nobody else changes |
| Conservation.TakeAndHandOver | builtInFunctions/multiESDTNFTTransfer.go:509-567 | taking q from a holder and handing it over lowers the holder by q and raises a receiver in the shard by q |
| Conservation.AddNftShift | builtInFunctions/baseComponentsHolder.go:28-64 | an arriving NFT raises the receiver's balance of that token by the arriving amount and changes no other balance, under either metadata merge |
| Conservation.BalanceShift | builtInFunctions/esdtTransfer.go:312-340 | a fungible debit or credit changes one balance by its amount |
| Conservation.CreateBalancedIff | builtInFunctions/esdtNFTCreate.go:193-219 | a create adds its quantity to the shard's total if and only if the holder had none of that NFT: an older holding is overwritten |
| Conservation.CallBalanced | builtInFunctions/esdtTransfer.go:184-207 | for every built-in call that succeeds, the shard's total plus what leaves equals the total before plus what the call issued |
| Conservation.DeliveryShift | builtInFunctions/esdtNFTTransfer.go:160-190 | delivering a message raises the shard's total by exactly what the message carries |
| Conservation.FreshHeldByNobody | builtInFunctions/esdtNFTCreate.go:189-219 | in a backed net nobody holds a token that was never issued |
| Conservation.ShiftTotal | builtInFunctions/esdtTransfer.go:377-394 | a shard's total moves by exactly what its accounts gain and lose |
| Liquidity.RunCovers | builtInFunctions/esdtDataStorage.go:278-331 | over any guarded run each tracked system entry equals the sum of that NFT's balances on its shard, a positive sum has its entry with metadata, and no step fails with the invalid-liquidity or the nil-data error |
| Liquidity.StepCovers | builtInFunctions/esdtDataStorage.go:359-419 | one call or delivery keeps every total right and cannot fail with a liquidity error |
| Liquidity.SaveCovers | builtInFunctions/esdtDataStorage.go:460-524 | a save moves the change of the holder's balance out of the sum and leaves the entry present with metadata, tracked entries keeping their total |
| Liquidity.LiquidityCovers | builtInFunctions/esdtDataStorage.go:286-330 | adjusting the total by the amount in hand succeeds and restores equality with the sum |
| Liquidity.TakeAndHandOverCovers | builtInFunctions/multiESDTNFTTransfer.go:521-567 | a transfer of one token leaves every NFT's total right when it stays in the shard, or leaves under a name with its nonce |
| Liquidity.ValidNames | common.go:40-96 | every valid identifier with any 64-bit nonce is a well-formed name: lists of valid tokens meet the condition on names |
| Liquidity.SendOneCoversIff | builtInFunctions/multiESDTNFTTransfer.go:517-567 | for every list item that names a tracked NFT's record: the total stays right if and only if the item's nonce is above zero or the receiver is in the shard |
| Liquidity.AliasLeaves | builtInFunctions/esdtDataStorage.go:286-289 | the failing calls: an NFT listed by its whole storage identifier with nonce zero is sent to another shard and its total stays too high |
| Liquidity.AliasArrives | builtInFunctions/multiESDTNFTTransfer.go:228-240 | such an item arrives as a fungible balance under the NFT's key |
| Liquidity.AddNftCovers | builtInFunctions/baseComponentsHolder.go:56-74 | an arrival from another shard, or from the sender just debited, leaves the token's total right |
| Liquidity.SaveAndAdjust | builtInFunctions/esdtNFTAddQuantity.go:103-124 | saving a changed amount and adjusting the total by the change (create, add quantity, burn) never fails on liquidity and keeps every total right |
| Liquidity.UpdateUntracks | builtInFunctions/esdtNFTAddUri.go:135-143 | AddURI and UpdateAttributes leave the system entry untracked |
| Liquidity.WipeCoversIff | builtInFunctions/esdtFreezeWipe.go:102-134 | of a token with a tracked total, a wipe leaves the total right if and only if no byte of the nonce is 0x2D |
| Liquidity.WipeReadsBackIff | builtInFunctions/esdtFreezeWipe.go:78-134 | for a valid token and any nonce, the wipe adjusts the total of the record it removes, or none for a token without nonce, if and only if no nonce byte is 0x2D |
| Liquidity.MisreadWipe | builtInFunctions/esdtFreezeWipe.go:102-134 | when the argument reads back as another NFT: the wipe fails with nil data exactly when that one has no entry, with invalid liquidity exactly when its tracked total is smaller than the amount wiped and the old-token branch does not apply, and with no other error |
| Liquidity.LeavingRemovesEntry | builtInFunctions/esdtNFTTransfer.go:349-358 | when the last of a tracked token leaves a shard its metadata is removed, unless the sender has a role that may still change it |
| Liquidity.LeavingKeepsMetaData | builtInFunctions/esdtNFTTransfer.go:394-440 | under every setting where totals are kept, the entry of the last NFT that leaves goes, unless its type can be created anew or the sender has one of the roles that change metadata; any other departure changes the total alone |
| Ledger.FreezeBlocks | builtInFunctions/esdtTransfer.go:342-366 | a frozen account can neither send nor receive the token, as NFT or fungible balance |
| Permissions.PausedBlocks | builtInFunctions/esdtTransfer.go:342-366 | a token paused, as collection or as item, can be neither taken from nor given to an account other than the system contract, and a paused identifier's fungible balance cannot change, unless the call returns tokens after an error |
| Permissions.BalanceIff | builtInFunctions/esdtTransfer.go:312-366 | a balance changes exactly when the record is fungible, neither frozen nor paused for this call, and would not become negative |
| Permissions.SaveIff | builtInFunctions/esdtDataStorage.go:218-275 | an NFT record is saved exactly when neither collection nor item is frozen or paused for this call, the account's collection record is not frozen, and a global type that is needed is there |
| Permissions.ArrivalIff | builtInFunctions/baseComponentsHolder.go:28-74 | an arrival succeeds exactly when the receiver may take what it holds and what comes and the versions to merge are readable; from another shard it may also fail on liquidity, and on nothing else |
| Permissions.SendFungibleIff | builtInFunctions/esdtTransfer.go:95-207 | a fungible transfer succeeds exactly when the receiver is not on the metachain, the value is positive, the transfer is not limited, the sender may spend and has it, and a receiver in the shard is payable and may receive |
| Permissions.ReceiveFungibleIff | builtInFunctions/esdtTransfer.go:198-207 | a fungible arrival succeeds exactly for a positive value, a payable receiver and a balance that may change |
| Permissions.MintIff | builtInFunctions/esdtLocalMint.go:70-108 | a mint succeeds exactly for a positive value with the mint role, and a burn with its role or burning for all, on an account neither frozen nor paused with the funds for it |
| Permissions.SendNftIff | builtInFunctions/esdtNFTTransfer.go:232-392 | where totals are right, a well-named NFT transfer succeeds exactly when the sender holds the quantity and may part with it, the transfer is not limited, and a receiver in the shard is payable and may take it |
| Permissions.SendNftNeeds | builtInFunctions/esdtNFTTransfer.go:232-392 | under every setting an NFT transfer that succeeds met all of those conditions |
| Permissions.SendOneIff | builtInFunctions/multiESDTNFTTransfer.go:496-570 | the same for one item of a list, base token included |
| Permissions.SentUnpaused | builtInFunctions/multiESDTNFTTransfer.go:374-434 | no item of a list that went through is paused, as collection or as item |
| Permissions.CreateIff | builtInFunctions/esdtNFTCreate.go:103-219 | where totals are right, a create of an NFT the account has none of succeeds exactly with the create role, a positive quantity, the quantity role for more than one, and nothing frozen or paused |
| Permissions.AddQuantityIff | builtInFunctions/esdtNFTAddQuantity.go:76-126 | adding succeeds exactly with the role, for a held NFT that is not frozen or paused |
| Permissions.BurnNftIff | builtInFunctions/esdtNFTBurn.go:67-127 | burning succeeds exactly with the role or burn for all, for a quantity held and not frozen or paused |
| Permissions.UpdateIff | builtInFunctions/esdtNFTAddUri.go:90-145 | an update succeeds exactly with its own role, for a held NFT with metadata and readable versions that is not frozen or paused |
| Permissions.CreateTracks | builtInFunctions/esdtDataStorage.go:460-524 | a create of an NFT new to the shard starts a tracked total at the quantity |
| Permissions.ArrivalTracks | builtInFunctions/baseComponentsHolder.go:56-74 | the first arrival on a shard starts a tracked total at the amount |
| Permissions.FirstSaveTracksIff | builtInFunctions/esdtDataStorage.go:493-510 | a first save begins a tracked total unless the fix for old tokens is on and the holder's own record has the metadata |
| Permissions.SaveStaysTracked | builtInFunctions/esdtDataStorage.go:460-524 | a save that need not rewrite everything leaves a tracked entry exactly as it was |
| Permissions.AdjustStaysTracked | builtInFunctions/esdtDataStorage.go:286-330 | an adjustment changes a tracked entry's total by the amount and nothing else of it, and removes it exactly at zero |
| Permissions.FirstSaveLists | builtInFunctions/esdtDataStorage.go:487-520 | where metadata is not always sent, a first save lists its own shard and the sender's as having it, and no other |
| Ledger.MarkIsRemembered | builtInFunctions/esdtDataStorage.go:649-696 | asking whether a shard has the metadata changes at most that entry's list of shards; asked again, the answer is yes exactly when such a list is kept, and nothing changes any more |
| Liquidity.FreezeCovers | builtInFunctions/esdtFreezeWipe.go:136-153 | freezing or unfreezing a held token keeps every total right |
| Liquidity.DebitOfNft | builtInFunctions/esdtTransfer.go:325-337 | a fungible debit named with an NFT's key is refused, or is of nothing |
| EsdtStorage.LastWriteIsRead | builtInFunctions/esdtDataStorage.go:134-174 | after any run of saves each holder reads back the amount, type and properties last saved for it, and the metadata last saved for the token: the split storage is one map of records |
| EsdtStorage.SaveThenRead | builtInFunctions/esdtDataStorage.go:359-445 | a full save followed by a read returns the saved amount, properties and metadata, and the type, which for one of the first NFT types is the token's global type once dynamic tokens are on, for either storage setting |
| EsdtStorage.OwnRecordIsRead | builtInFunctions/esdtDataStorage.go:134-174 | fungible records, and those whose metadata stays with the holder, are read from the holder's account alone |
| EsdtStorage.SaveKeepsOtherHolders | builtInFunctions/esdtDataStorage.go:397-418 | a save changes no other account's amount, type or properties of the token |
| EsdtStorage.SaveKeepsOtherTokens | builtInFunctions/esdtDataStorage.go:397-418 | a save leaves every record and system entry under another identifier as it was, for every holder |
| EsdtStorage.Storage.Save | builtInFunctions/esdtDataStorage.go:359-419 | the step-by-step save ends in exactly the specified state or with the specified error |
| EsdtStorage.Storage.SaveMetaDataToSystemAccount | builtInFunctions/esdtDataStorage.go:460-524 | what a save leaves at the system account: new tracked entries, refreshed metadata, or an untracked rewrite |
| EsdtStorage.LiquidityUndone | builtInFunctions/esdtDataStorage.go:278-331 | lowering a total by what was just added to it gives back the entry exactly as it was, for every setting, type and entry |
| Metadata.SavedReads | builtInFunctions/esdtDataStorage.go:359-524 | what a holder reads after a save that need not rewrite everything: its token, with the metadata the shard's account keeps where it keeps it and does not renew it |
| Metadata.ArrivalKeepsBest | builtInFunctions/baseComponentsHolder.go:28-85 | after an arrival the receiver reads, field by field, the newer of what the shard had seen and what arrived, with its version where the type has versions; or, where the shard's account keeps metadata and does not renew it, what was there |
| Metadata.ArrivalsKeepLatest | builtInFunctions/baseComponentsHolder.go:79-136 | after any run of arrivals each field read is one that was seen, and none seen is newer |
| Metadata.MessageCarries | builtInFunctions/esdtNFTTransfer.go:444-473 | the message of an NFT transfer carries the holder's token as it was, with metadata, versions and properties, when the quantity is one or the destination is not listed as having the metadata, and otherwise the amount, under every setting |
| Metadata.QueryIff | builtInFunctions/esdtDataStorage.go:649-696 | asking whether a shard has the metadata fails exactly where a list is kept and the shard is beyond both the number of shards and the list |
| Metadata.ItemsCarry | builtInFunctions/multiESDTNFTTransfer.go:608-645 | the same for each item of a list, where an earlier item of the same NFT counts as having told the destination |
| Metadata.TakenToken | builtInFunctions/multiESDTNFTTransfer.go:517-541 | what leaves a holder is the token as it was read, of the saved type and the quantity sent |
| Metadata.RemainderReads | builtInFunctions/multiESDTNFTTransfer.go:517-541 | what stays with the holder is the same token, fewer |
| Metadata.UpdateReads | builtInFunctions/esdtNFTAddUri.go:121-145 | after an update the versions read are those before with the round for the updated field alone; without dynamic tokens they do not change |
| Metadata.UpdatePrevails | builtInFunctions/updateNFTAttributes.go:140-165 | the updated field prevails over any earlier version of it, whichever of the two tokens arrives where the other is known |
| BuiltIns.Handler.AddNftToDestination | builtInFunctions/baseComponentsHolder.go:19-77 | the receiver's balance rises by the arriving amount and no other changes; it then reads the best of what was seen and what arrived; it may hold and take the token; an arrival from another shard keeps every liquidity total and returns no liquidity error |
| BuiltIns.Handler.NftTransferOnSenderShard | builtInFunctions/esdtNFTTransfer.go:232-392 | the sender has q less, a receiver in the shard q more, and otherwise the one message carries the holder's token with its metadata unless the destination has it; where totals are right it succeeds exactly when it may; every total stays right |
| BuiltIns.Handler.NftTransferOnDestinationShard | builtInFunctions/esdtNFTTransfer.go:146-190 | a payable receiver has what the message carries more and reads the best of what was seen and what arrived, and nobody else changes; every total stays right |
| BuiltIns.Handler.TransferOneTokenOnSenderShard | builtInFunctions/multiESDTNFTTransfer.go:496-570 | of each asset exactly what the item names leaves the sender and reaches a receiver in the shard, and the token returned is the holder's; well named and where totals are right it succeeds exactly when it may, and keeps every total |
| BuiltIns.Handler.TransferBaseToken | builtInFunctions/multiESDTNFTTransfer.go:460-494 | the base token alone moves, and the step succeeds exactly when it is enabled, the nonce is zero and the balance is there |
| BuiltIns.Handler.MultiTransferOnSenderShard | builtInFunctions/multiESDTNFTTransfer.go:300-452 | the loop takes what the whole list names of each asset, gives it to a payable receiver in the shard or puts exactly it in the message, with no paused item, or fails with the first item's error; totals stay right |
| BuiltIns.Handler.CreateOutputTransfers | builtInFunctions/multiESDTNFTTransfer.go:598-655 | the loop touches no account, the items carry exactly the list, and each carries its whole token unless the destination has the metadata and the amount is plain |
| BuiltIns.Handler.MultiTransferOnDestinationShard | builtInFunctions/multiESDTNFTTransfer.go:157-250 | the loop credits the receiver with exactly what the items carry of each asset, or fails with the first item's error; totals stay right |
| BuiltIns.Handler.EsdtTransferOnSenderShard | builtInFunctions/esdtTransfer.go:95-207 | it succeeds exactly when it may, nothing frozen or paused; the sender has the value less, and a receiver in the shard has it more or the one message carries it; no total changes |
| BuiltIns.Handler.EsdtTransferOnDestinationShard | builtInFunctions/esdtTransfer.go:198-207 | it succeeds exactly when it may; the receiver's balance rises by the arriving value and no other changes |
| BuiltIns.Handler.AddToEsdtBalance | builtInFunctions/esdtTransfer.go:312-394 | it succeeds exactly for a fungible record, not frozen or paused, that stays non-negative; one amount moves by delta, of that record nothing else changes and no other record; a failure changes nothing; a debit, or a credit of no NFT, keeps every total |
| BuiltIns.Handler.NftCreate | builtInFunctions/esdtNFTCreate.go:103-219 | only with its roles; the holder ends with exactly the quantity created and reads back its metadata, of the token's type and without versions; when it held none before, every total stays right |
| BuiltIns.Handler.NftAddQuantity | builtInFunctions/esdtNFTAddQuantity.go:76-126 | where totals are right it succeeds exactly when it may; the holder has q more, nobody else changes, every total stays right |
| BuiltIns.Handler.NftBurn | builtInFunctions/esdtNFTBurn.go:67-127 | where totals are right it succeeds exactly when it may; the holder had at least q and has q less, nobody else changes, every total stays right |
| BuiltIns.Handler.NftAddUris | builtInFunctions/esdtNFTAddUri.go:90-145 | it succeeds exactly when it may; the holder reads back its NFT with the URIs appended at the round's version, and the rest of the metadata, the other versions, the amount and the properties as before; no balance and no total changes |
| BuiltIns.Handler.NftUpdateAttributes | builtInFunctions/updateNFTAttributes.go:97-165 | it succeeds exactly when it may; the holder reads back its NFT with the attributes replaced at the round's version and all else as before; no balance and no total changes |
| BuiltIns.Handler.LocalMintTokens | builtInFunctions/esdtLocalMint.go:70-108 | it succeeds exactly with the mint role, a positive value and a balance that may change, and then one balance rises by the value; no total changes unless an NFT's identifier is named |
| BuiltIns.Handler.LocalBurnTokens | builtInFunctions/esdtLocalBurn.go:71-117 | it succeeds exactly with the burn role or burn for all, a positive value and a balance that may change, and then one balance falls by the value; no total changes |
| BuiltIns.Handler.WasAlreadySent | builtInFunctions/esdtDataStorage.go:649-696 | no account changes, of the entry at most its list of shards, and a second query answers that the shard has the metadata exactly when a list is kept |
| BuiltIns.Handler.ToggleFreeze | builtInFunctions/esdtFreezeWipe.go:136-153 | the frozen bit of one record is as asked and nothing else of it or of any other record changes; an unfrozen empty record is not kept; for a held NFT every total stays right |
| BuiltIns.Handler.WipeIfApplicable | builtInFunctions/esdtFreezeWipe.go:102-134 | only a frozen record is removed, and nothing else of any account; its whole amount is returned; where the argument reads back and totals are right it succeeds for every frozen record, and every total stays right |
| MetaDataMerge.MergeIsPointwise | builtInFunctions/baseComponentsHolder.go:87-136 | with metadata on both sides and readable versions, the merge is the greater-version-wins merge field by field, and keeps the arriving nonce |
| MetaDataMerge.MergeEsdtData | builtInFunctions/baseComponentsHolder.go:87-136 | the in-place merge overwrites exactly the older fields of the arriving token, and fails exactly when a version is unreadable or metadata is missing where it must be written |
| MetaDataMerge.MergeAssociative | builtInFunctions/baseComponentsHolder.go:105-128 | the merge is associative |
| MetaDataMerge.MergeIdempotent | builtInFunctions/baseComponentsHolder.go:105-128 | merging a token with itself changes nothing |
| MetaDataMerge.FoldTokensIsFold | builtInFunctions/baseComponentsHolder.go:79-136 | merging readable tokens one after the other never fails, keeps a readable token with the last nonce, and in each field is the fold of newer-wins |
| MetaDataMerge.TokensKeepLatest | builtInFunctions/baseComponentsHolder.go:105-128 | after any arrivals each field of the token kept is one that was seen, of the greatest version seen |
| MetaDataMerge.TokensConverge | builtInFunctions/baseComponentsHolder.go:87-136 | tokens of one NFT merged in any two orders leave the same metadata and versions when equal versions carry equal values |
| MetaDataMerge.TokenVersionsNeverDecrease | builtInFunctions/baseComponentsHolder.go:105-136 | over any sequence of arrivals no version stored in the token kept goes down |
| MetaDataMerge.DisagreementDoesNotConverge | builtInFunctions/baseComponentsHolder.go:105-128 | two different values under one version do not converge: the agreement condition is needed |
| TransferWire.EndToEnd | builtInFunctions/multiESDTNFTTransfer.go:598-674 | from the sender's arguments to the message text and back: the text parses, the parser reads the same list, receiver and call on both sides, and the executor credits those tokens, nonces and amounts |
| TransferWire.ExecutorRoundTrip | builtInFunctions/multiESDTNFTTransfer.go:157-250 | the executor recovers every token, nonce, payload and trailing argument from the message |
| TransferWire.ParserRoundTrip | parsers/esdtTransferParser.go:115-187 | the parser recovers the same list, call function and call arguments from the message |
| TransferWire.SenderArgumentsParse | parsers/esdtTransferParser.go:115-160 | parsing the sender's own arguments (address first) gives the same list |
| TransferWire.TextRoundTrip | builtInFunctions/esdtNFTTransfer.go:522-548 | the message text parses back to the function name and its arguments |
| TransferWire.BuildMessage | builtInFunctions/multiESDTNFTTransfer.go:608-662 | building the message charges every marshalled byte, never underflows, and fails exactly when the whole charge exceeds the gas |
| TransferWire.ChargedAsSent | builtInFunctions/multiESDTNFTTransfer.go:608-662 | the charge is the price of one byte times the bytes of those payloads of the message that carry a token whole |
| TransferWire.ParseTransferList | parsers/esdtTransferParser.go:138-187 | the parser's loop reads each triple, by payload length, or fails |
| TransferWire.ReadIncoming | builtInFunctions/multiESDTNFTTransfer.go:157-218 | the executor's loop reads a message exactly when its counts and long payloads allow, and what it reads is what the round trips speak of |
| TransferWire.IncomingIff | builtInFunctions/multiESDTNFTTransfer.go:157-218 | a message is read exactly when it has four arguments, counts at least one transfer, has three arguments for each, and its long payloads can be read |
| TransferWire.ParsedIff | parsers/esdtTransferParser.go:138-187 | the parser reads a list at the sender always, and of a message exactly when its long payloads can be read |
| TransferWire.ReadOutgoing | builtInFunctions/multiESDTNFTTransfer.go:304-325 | the sender's arguments are read exactly when there are four, at least one transfer is counted and three arguments are there for each: destination, then token, nonce and value of each, then the rest |
| CallData.CallRoundTrip | parsers/callArgsParser.go:15-35 | call text parses back to its function and arguments exactly for function names that are not empty and have no separator |
| CallData.UpdatesRoundTrip | parsers/storageUpdatesParser.go:18-63 | storage updates survive writing and reading exactly when there is one and its first offset is not empty; otherwise reading is an error, never another list |
| CallData.SplitJoin | parsers/tokenize.go:8-41 | splitting a joined text gives back its pieces |
| CallData.HexRoundTrip | parsers/tokenize.go:18-25 | hex decoding inverts hex encoding (section 8 of RFC 4648) |
| CallData.HexDecodeIff | parsers/tokenize.go:18-25 | a text decodes to the bytes whose encoding it is, in either case of the letters, and to no others |
| CallData.ParseArguments | parsers/callArgsParser.go:39-75 | the argument loop decodes every token or fails |
| CallData.GetStorageUpdates | parsers/storageUpdatesParser.go:18-47 | the updates loop reads offset and data pairs or fails |
| CallData.CreateDataFromStorageUpdate | parsers/storageUpdatesParser.go:50-63 | the updates text is the joined hex pairs |
| CallData.Builder.ToString | txDataBuilder/builder.go:36-43 | the built text is the function followed by its elements, and parses back to them |
| Composition.MessageArrives | builtInFunctions/multiESDTNFTTransfer.go:616-655 | the message a list transfer puts in flight, written as arguments, is read by the destination executor as those very tokens, when the NFTs taken have their metadata; with right totals and well-formed names they have |
| CreateRole.NoNonceTwice | builtInFunctions/esdtNFTCreate.go:149-221 | over any interleaving of creates, hand-overs and deliveries no token and nonce is minted twice |
| JointRun.JointRunKeeps | builtInFunctions/esdtNFTCreate.go:149-221 | over any run of ledger calls, creates that take the next nonce, and hand-overs: every NFT record, item in flight and issue is of a nonce given out before, so every create the ledger sees is of an NFT its holder has none of |
| JointRun.NextIsNew | builtInFunctions/esdtNFTCreate.go:149-192 | no account of any shard has a record under the nonce the create role gives out next |
| JointRun.JointRunConserves | builtInFunctions/esdtNFTCreate.go:149-221 | conservation over such runs, with no condition on creates but valid tokens and the role protocol's own |
| JointRun.JointRunCovers | builtInFunctions/esdtNFTCreate.go:193-219 | every liquidity total stays right over such runs |
| JointRun.CallsRun | builtInFunctions/esdtNFTCreate.go:193-221 | the ledger's part of a joint run is a run of the ledger, failed creates included |
| CreateRole.RunKeeps | builtInFunctions/esdtNFTCreateRoleTransfer.go:87-165 | at every moment one account holds the create role once, or one hand-over is in flight, never both, and the counter there is the number of items minted |
| CreateRole.GrantedOnce | builtInFunctions/esdtRoles.go:66-70 | granting the create role once to one account starts a token off in that invariant |
| CreateRole.HandOverKeeps | builtInFunctions/esdtNFTCreateRoleTransfer.go:87-165 | a hand-over, inside the shard or by message, keeps the invariant |
| CreateRole.DeliverKeeps | builtInFunctions/esdtNFTCreateRoleTransfer.go:217-244 | the next owner's step keeps the invariant; a same-shard copy changes nothing |
| CreateRole.LateCopyRepeats | builtInFunctions/esdtNFTCreateRoleTransfer.go:127-162 | if a create came before the copy of a same-shard hand-over, the nonce would be given out again |
| CreateRole.LateCopyTwoHolders | builtInFunctions/esdtNFTCreateRoleTransfer.go:127-162 | if a further hand-over came before that copy, two accounts would hold the role with the same next nonce |
| CreateRole.RoleStore.TransferAtCurrentOwner | builtInFunctions/esdtNFTCreateRoleTransfer.go:87-165 | once the hand-over has arrived the receiver's next item is the one the old owner would have created; the old owner creates no more; no other account's counter or roles change |
| CreateRole.RoleStore.TransferAtNextOwner | builtInFunctions/esdtNFTCreateRoleTransfer.go:217-244 | the receiver's counter is the one sent and it holds the role, not twice if it held it before; no other account changes |
| CreateRole.RoleStore.NextNonce | builtInFunctions/esdtNFTCreate.go:149-221 | a number is given out exactly to an account with the role; the next one there will be its successor, and no role and no other counter changes |
| CreateRole.RoleStore.SetOrUnsetRoles | builtInFunctions/esdtRoles.go:61-85 | setting or unsetting roles, with the start nonce written when the multi-shard role is named |
| MultiShard.NoItemTwice | builtInFunctions/esdtRoles.go:61-105 | several accounts of a token, each started once and with its own last byte, in any interleaving of role changes and creates, at most 2^56-1 items each: no token and nonce is given to two items |
| MultiShard.RunKeepsNumbers | builtInFunctions/esdtRoles.go:72-105 | at every moment of such a run each started account's stored counter is its start nonce plus the number of its items, without wrapping |
| MultiShard.RangesMeet | builtInFunctions/esdtRoles.go:98-105 | an account that has used its range gives its next item the first nonce of the account with the next last byte: the bound is exact |
| MultiShard.SecondStartRepeats | builtInFunctions/esdtRoles.go:72-83 | an account started a second time repeats an item, whatever was called in between: the once-only condition is needed |
| CreateRole.SetThenUnset | builtInFunctions/esdtRoles.go:66-70 | setting roles and unsetting the same ones leaves the account with the roles it had |
| Roles.RoleList.DeleteRoles | builtInFunctions/esdtRoles.go:107-118 | the in-place deletion removes the first occurrence of each named role, if any |
| Roles.RoleList.Find | builtInFunctions/esdtRoles.go:120-127 | the search returns the first index of the role, or -1 |
| Roles.RemoveEachCounts | builtInFunctions/esdtRoles.go:107-118 | deletion takes away one occurrence for each one named, as a multiset |
| Roles.SetThenUnsetInOrder | builtInFunctions/esdtRoles.go:66-70 | set then unset restores the very list when none of the roles was there before |
| Roles.OrderLost | builtInFunctions/esdtRoles.go:107-118 | with a role already there the order is not restored |
| Roles.AddressListBounded | builtInFunctions/esdtTransferRole.go:92-138 | over any run of additions and deletions the transfer-address list has no duplicates and stays within the maximum |
| Roles.AddressStepLists | builtInFunctions/esdtTransferRole.go:92-138 | an addition lists exactly what was listed or named, or nothing new when too long; a deletion leaves exactly what was not named |
| Roles.RoleList.AddNewAddresses | builtInFunctions/esdtTransferRole.go:119-138 | the nested loops append exactly the missing addresses and compare the length, as uint32, with the maximum |
| Keys.KeyInjective | common.go:40-96 | for valid identifiers, equal storage keys mean equal identifier and nonce |
| Keys.ValidTokenIff | common.go:40-96 | a valid identifier is three to ten capital letters or digits, a dash, and six small letters up to f or digits, and nothing else is |
| Keys.ExtractIffNoDash | builtInFunctions/logsAndEvents.go:82-96 | a valid identifier followed by nonce bytes is read back as that identifier and nonce if and only if no nonce byte is 0x2D |
| Keys.ExtractWrongNonce | builtInFunctions/logsAndEvents.go:82-96 | nonce 301 is read back as nonce 1 |
| DrwaRecords.HolderIff | builtInFunctions/drwa.go:399-455 | a payload decodes to a holder record if and only if it is the record's layout followed by anything, and the fields fit |
| DrwaRecords.ProfileIff | builtInFunctions/drwa.go:457-502 | the same for the profile record |
| DrwaRecords.FieldIff | builtInFunctions/drwa.go:522-542 | a field is read exactly when its 4-byte length, at most 65536, and its bytes are there |
| DrwaRecords.DecodeHolderMirror | builtInFunctions/drwa.go:399-455 | the cursor decoder returns that record and never reads outside the payload |
| DrwaRecords.ReadField | builtInFunctions/drwa.go:522-542 | the field reader copies the field and returns the cursor behind it |
| DrwaRecords.DecodeTokenPolicy | builtInFunctions/drwa.go:370-397 | the decoder gives each flag from its own byte, with the reserved bytes checked, and fails exactly when no policy is laid out so |
| DrwaRecords.PolicyIff | builtInFunctions/drwa.go:370-397 | a payload is a policy if and only if it begins with four flag bytes and eight zeros; each flag is its own byte, set by one and no other value; anything may follow |
| DrwaRecords.PolicyRoundTrip | builtInFunctions/drwa.go:370-397 | a policy written in that layout is read back, whatever follows |
| DrwaRecords.AuditorIff | builtInFunctions/drwa.go:504-520 | a payload is an auditor's word if and only if its ninth byte is that word, zero or one, after eight bytes of any kind |
| DrwaRecords.VersionLeads | builtInFunctions/drwa.go:399-410 | a mirror's binary form starts with a brace's byte exactly for versions from 0x7B·2^56 up to 0x7C·2^56 |
| GatedTransfer.GatedShard.CheckAndSend | builtInFunctions/multiESDTNFTTransfer.go:374-434 | on success the ledger's list transfer was carried out, every listed name was clear for the sender, and for a receiver in the shard, when the call began, and bytes changed only under listed storage keys; with valid names, every valid token any of whose records changed was clear; it is refused only when some listed name is not |
| GatedTransfer.GatedShard.CheckThenReceive | builtInFunctions/multiESDTNFTTransfer.go:174-250 | refused exactly when some listed name is not clear for the receiver, and then nothing has changed; otherwise, with valid names, every valid token any of whose records changed was clear |
| GatedTransfer.SendOneTouches | builtInFunctions/multiESDTNFTTransfer.go:509-567 | a list item changes the records under the identifier it names, of the sender, of a receiver in the shard and of the system account, and no other |
| GatedTransfer.WritesRepresent | builtInFunctions/esdtDataStorage.go:397-418 | writing those records' bytes leaves the byte-level storage representing the ledger's new state |
| GatedTransfer.CheckedIff | builtInFunctions/drwa.go:151-170 | an item that moves a valid token's record is checked under that token's policy if and only if it names that token |
| GatedTransfer.AliasMoves | builtInFunctions/multiESDTNFTTransfer.go:383-423 | the failing calls: an NFT of a token listed by its whole storage identifier with nonce zero passes the gate whatever the token's policy and the parties' records, and moves |
| DrwaGate.EvaluateIff | builtInFunctions/drwa.go:595-677 | the gate lets a token pass if and only if it is not regulated or the holder's record meets every condition |
| DrwaGate.DenialNames | builtInFunctions/drwa.go:595-677 | every denial names a condition that is not met, and there is none exactly when all are |
| DrwaGate.MergeFields | builtInFunctions/drwa.go:216-277 | the merged record: a profile newer than the mirror, or alone, gives the four shared fields; the locks are the mirror's; each expiry and the auditor's word as the code takes them, in every case |
| DrwaGate.RevokedIsDenied | builtInFunctions/drwa.go:246-260 | a newer profile that does not approve denies a regulated token's transfer, whatever the mirror says |
| DrwaGate.DecodedIff | builtInFunctions/drwa.go:297-368 | a record is read exactly from a wrapper with a body, as JSON if the body starts with a brace and as binary if not; only empty storage is an absent record |
| DrwaGate.StoredPolicyReads | builtInFunctions/drwa.go:347-395 | a stored binary policy is read back in every case |
| DrwaGate.StoredHolderReadsIff | builtInFunctions/drwa.go:297-361 | a stored binary mirror is read back, under its wrapper's version, if and only if its own version does not begin with a brace's byte or the JSON reader agrees |
| DrwaGate.UnreadableIsRefused | builtInFunctions/drwa.go:151-196 | a policy, or a regulated token's mirror, that cannot be read makes the check fail: it is never taken for an absent one |
| DrwaGate.PolicyKeyInjective | builtInFunctions/drwa.go:127-132 | a policy key is one token's |
| DrwaGate.HolderKeysInjective | builtInFunctions/drwa.go:133-149 | mirror and auditor keys are one token's and one holder's |
| DrwaGate.ProfileKeyInjective | builtInFunctions/drwa.go:139-143 | a profile key is one holder's |
| DrwaGate.KindsApart | builtInFunctions/drwa.go:127-149 | no two kinds of compliance record share a key |
| DrwaGate.MovesKeepFamily | builtInFunctions/drwa.go:127-149 | writing token records changes no compliance record: their keys differ in the first byte |
| DrwaGate.SameEvaluation | builtInFunctions/drwa.go:151-277 | checks read compliance records only, so moves cannot change a later check |
| DrwaGate.MergedRecord.Fill | builtInFunctions/drwa.go:224-274 | the field-by-field filling gives the merged record: newer profile over mirror, the mirror's locks, both expiries, the auditor's word |
| DrwaGate.MirrorPrevails | builtInFunctions/drwa.go:246-269 | a profile not newer than the mirror overrides none of its compliance fields |
| Gas.MultiTransferOnSenderShard | builtInFunctions/multiESDTNFTTransfer.go:324-370 | gas left and gas forwarded never exceed the gas provided; without wrapping the call succeeds exactly when all costs are covered, and exactly they are taken: per item, and for each regulated token two reads, or four with the receiver in the shard |
| Gas.MultiTransferOnDestinationShard | builtInFunctions/multiESDTNFTTransfer.go:174-191 | with enforcement the call fails exactly below the pre-charge, which covers the reads charged, and they are taken exactly; without it nothing is charged |
| Gas.NftTransferOnSenderShard | builtInFunctions/esdtNFTTransfer.go:247-376 | gas conservation, with nothing left when the receiver's reads are not covered; without wrapping it succeeds exactly when the pre-charge, the sender's cost and the data charge are each there |
| Gas.NftTransferOnDestinationShard | builtInFunctions/esdtNFTTransfer.go:153-210 | it fails exactly when enforcement is on and two reads are not covered; otherwise all gas provided is left or forwarded |
| Gas.EsdtTransfer | builtInFunctions/esdtTransfer.go:121-245 | gas conservation on every path of the fungible transfer, the exact cost at the sender, and success, without wrapping, exactly when the pre-charge of four reads and the sender's cost are there |
| Gas.ChargeAll | builtInFunctions/multiESDTNFTTransfer.go:631-640 | the per-item charge loop never underflows and takes the whole charge or fails |
| Gas.ReadCostSaturates | builtInFunctions/drwa.go:552-570 | the read cost is the product, saturated at the largest uint64 |
| MetaDataAdmin.DeletesListed | builtInFunctions/esdtDeleteMetadata.go:107-195 | on success exactly the entries of the listed tokens and nonce intervals are gone, and every other entry is as it was |
| MetaDataAdmin.DeletesIff | builtInFunctions/esdtDeleteMetadata.go:107-195 | a deletion succeeds exactly for at least four arguments of which every group is a valid token with all its intervals there, none starting at zero or ending before it starts |
| MetaDataAdmin.SystemAccount.DeleteMetaData | builtInFunctions/esdtDeleteMetadata.go:107-145 | the nested loops terminate, succeed exactly when every group fits, and compute the specified deletion |
| MetaDataAdmin.SystemAccount.DeleteForInterval | builtInFunctions/esdtDeleteMetadata.go:171-195 | one interval's loop removes each nonce from start to end |
| MetaDataAdmin.AddsListed | builtInFunctions/esdtDeleteMetadata.go:197-258 | adding succeeds exactly when the entries are well-formed, pairwise distinct and without metadata before, and then sets exactly them: an entry that was there keeps all else, a new one is of an NFT and holds nothing |
| MetaDataAdmin.SystemAccount.AddMetaData | builtInFunctions/esdtDeleteMetadata.go:197-258 | the addition loop computes the specified entries, or fails where they do |
| KeyValue.AccountStorage.SaveKeyValue | builtInFunctions/keyValueStorage.go:54-127 | no protected key changes in any outcome; on success storage is the fold of the writes; with the gas fix the call succeeds exactly when no key is protected and the gas, measured against the evolving storage, is there; without it exactly when each changing write is paid for, and then the remainder exceeds the gas provided exactly when the gas used was not there |
| KeyValue.LastPairIsRead | builtInFunctions/keyValueStorage.go:71-104 | after the pairs a key holds the value of its last pair, or without one what it held before |
| KeyValue.GasIsTotal | builtInFunctions/keyValueStorage.go:70-98 | the gas is the function's cost, every byte of keys and values at one price, and every byte by which a value outgrows the one it replaces, in the same call or before it, at the other |
| KeyValue.UncheckedWithoutFix | builtInFunctions/keyValueStorage.go:84-118 | without the gas fix, saving an unchanged value with no gas leaves a wrapped-around remainder |
| Reindex.VmOutput.ReindexTransfers | output.go:205-227 | every index moves by the counter less one, the counter moves to one above the largest, and a transfer without an index is refused |
| Reindex.VmOutput.NextAvailableIndex | output.go:191-202 | one above the largest index of the output |
| Reindex.AllDistinct | output.go:205-227 | over a sequence of outputs served by one provider no two transfers share an index |
| Reindex.CallRange | output.go:205-227 | without a 32-bit wrap all indices of an output move by the same amount into a range of their own |
| Reindex.CounterAboveAll | output.go:191-227 | the counter ends above every index given out, one above the largest |

## Left out

- Liquidity.RunCovers: needs the SaveToSystemAccount, SendAlways and WipeSingleNFTLiquidityDecrease flags on and DynamicEsdt off, NFTs that leave a shard under a name with their nonce, freezes of held NFTs only, mint roles for plain identifiers only, and wiped nonces without a 0x2D byte; `Liquidity.Guarded` states each, and `SendOneCoversIff` and `WipeCoversIff` say that the name and the wipe condition are exact.
- Conservation.RunConserves: a create must name an NFT its holder has none of; `CreateBalancedIff` says that this is exact, and `JointRun.JointRunKeeps` proves it of every run in which creates take their nonce from the create role.
- JointRun.JointRunKeeps: is about the create role that one account holds at a time; runs of the multi-shard role are in `MultiShard`, without the ledger.
- MultiShard.NoItemTwice: assumes that two accounts of a token whose addresses end in the same byte are not both started; they would share a range.
- GatedTransfer.GatedShard.CheckAndSend: covers the checking and moving loop; marking the destination shard as informed, gas and log entries come after it and are elsewhere.
- GatedTransfer.AliasMoves: is stated for a call that returns tokens after an error, so that no freeze or transfer limit interferes.
- Gas.NftTransferOnSenderShard: the receiver's read cost is added after the gas check, so a success need not be fully paid; what is claimed is conservation, and the exact remainder and success condition where no cost wraps 64 bits.
- MetaDataAdmin.SystemAccount.DeleteMetaData: assumes that argument indices do not wrap 64 bits and that no interval ends at 2^64-1, where the loop would not end.
- TransferWire.EndToEnd: assumes the transfer count does not make 3n+2 wrap, and that the sender's address does not read as a number of transfers; the texts of the single NFT and the fungible transfer are not modelled.
- Composition.MessageArrives: stated where metadata is always sent; the plain-amount form is covered by the wire round trips alone.
- Roles.AddressListBounded: assumes that no call makes the list's length wrap 32 bits, where the comparison with the maximum would pass.
- Pointers to token records are values and out-parameters in the storage and ledger methods, so sharing one big.Int between the sender's record and the message is not captured; only the gas charged for an in-shard list depends on it.
- Holders are accounts other than the shard's system account, which keeps metadata and policies only, and a transfer's two accounts are different, as the code requires.
- Marshalling, JSON and the trie database: abstract pairs of functions that invert each other, and total maps; database errors do not occur.
- Messages that fail at their destination stay in flight: bounced calls and re-execution belong to the host, as do snapshots and roll-back.
- Paused tokens, limited transfer, payability and roles are inputs of each call in the ledger, not state it changes; the switch between token identifier and storage key in the transfer-role lookup is not modelled.
- Argument-length and royalty limits, caller checks, call-value checks and log entries of the built-in functions.
- The dynamic-token functions (recreate, update, modify royalties and creator, set URIs and type): they reuse the modelled storage and merge.
- ESDTBurn to the system contract: the same balance change as a local burn without its role check.
- The wrapped form of compliance records and their JSON bodies are abstract; the nil state reader and the metrics are not modelled, and single transfers use the same two checks.
- Usernames, guardians, developer rewards, owner change, code metadata, data-trie migration, wiring, mutexes and metrics: short single-function checks.
