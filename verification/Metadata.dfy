// What becomes of a token's metadata: where it is kept when the token is
// saved, what a message to another shard carries of it, what an arrival leaves
// of it, and what an update stamps on it.
module Metadata {
  import opened Bytes
  import opened Tokens
  import opened EsdtStorage
  import opened MetaDataMerge
  import opened Ledger
  import opened Conservation
  import Wire = TransferWire

  // ---- where metadata is kept ----

  // These types keep it in the holder's record, the others on the shard's
  // system account.
  predicate WithHolder(env: Env, kind: TokenType) {
    !env.flags.saveToSystemAccount || kind == NonFungibleV2 || kind == DynamicNFT || kind == Fungible
  }

  // On the system account only these types have versions.
  predicate VersionsKept(env: Env, kind: TokenType) {
    WithHolder(env, kind) || kind == DynamicSFT || kind == DynamicMeta
  }

  // Metadata on the system account is renewed by arrivals.
  predicate Renews(env: Env) {
    env.flags.alwaysSaveMetaData && env.flags.sendAlways
  }

  // The reserved bytes hold versions, and no marker.
  predicate Stamped(reserved: Option<bytes>) {
    reserved.Some? && reserved != Some([0]) && reserved != Some([1])
  }

  function VersionsIn(vc: VersionCodec, reserved: Option<bytes>): Option<Versions> {
    if Stamped(reserved) then vc.unmarshal(reserved.value) else Some(NO_VERSIONS)
  }

  // Versions written are the versions read.
  lemma VersionsRead(vc: VersionCodec, t: Token)
    ensures Readable(vc, t) <==> t.meta.Some? && VersionsIn(vc, t.reserved).Some?
    ensures Readable(vc, t) ==> ViewOf(vc, t) == MakeView(t.meta.value, VersionsIn(vc, t.reserved).value)
  {
  }

  predicate SameVersions(a: Option<bytes>, b: Option<bytes>) {
    a == b || ((ReservedEmpty(a) || !Stamped(a)) && (ReservedEmpty(b) || !Stamped(b)))
  }

  lemma SameVersionsRead(vc: VersionCodec, a: Option<bytes>, b: Option<bytes>)
    requires LawfulVersions(vc) && SameVersions(a, b)
    ensures VersionsIn(vc, a) == VersionsIn(vc, b)
  {
  }

  // ---- a save ----

  // What a save that need not rewrite everything leaves to be read: the token
  // saved, but for metadata the system account has and does not renew.
  lemma SavedReads(env: Env, sh: Shard, sender: nat, a: Address, k: Key, t: Token, args: SaveArgs)
    requires k.nonce > 0 && t.value > 0 && t.meta.Some? && !args.updateAll
    requires SaveToken(env, sh, sender, a, k, t, args).Ok?
    ensures var saved := SaveToken(env, sh, sender, a, k, t, args).value;
            var now, entry := OnDestination(env, saved.shard, a, k).token, SystemAt(sh, Id(k));
            && OnSender(env, saved.shard, a, k) == Ok(now)
            && now.kind == saved.kind && SavedAs(env, k, t.kind, saved.kind)
            && now.value == t.value && now.properties == t.properties
            && if WithHolder(env, now.kind) then now.meta == t.meta && now.reserved == t.reserved
               else if entry.None? || (Renews(env) && (Stamped(t.reserved) || ReservedEmpty(entry.value.reserved)))
               then && now.meta == t.meta
                    && (VersionsKept(env, now.kind) && (entry.None? || Stamped(t.reserved)) ==>
                          SameVersions(now.reserved, t.reserved))
                    && (VersionsKept(env, now.kind) && entry.Some? && !Stamped(t.reserved) ==>
                          now.reserved == entry.value.reserved)
               else && now.meta == entry.value.meta
                    && (VersionsKept(env, now.kind) && now.meta.Some? ==> now.reserved == entry.value.reserved)
  {
    hide Id, SaveBlocked;
  }

  // The entry a save leaves is in order if the one before was.
  predicate EntryInOrder(entry: Option<Token>) {
    entry.Some? ==> entry.value.meta.Some? && entry.value.value >= 0
  }

  lemma SavedEntryInOrder(env: Env, sh: Shard, sender: nat, a: Address, k: Key, t: Token, args: SaveArgs)
    requires SaveToken(env, sh, sender, a, k, t, args).Ok?
    ensures var before, after := SystemAt(sh, Id(k)), SystemAt(SaveToken(env, sh, sender, a, k, t, args).value.shard, Id(k));
            && (EntryInOrder(before) ==> EntryInOrder(after))
            && ((before.Some? ==> before.value.value >= 0) ==> after.Some? ==> after.value.value >= 0)
  {
    hide Id, SaveBlocked;
  }

  // Raising a total changes nothing that is read.
  lemma RaisedReads(env: Env, sh: Shard, a: Address, k: Key, kind: TokenType, q: nat)
    requires q > 0 && AddToLiquidity(env, sh, k, kind, q, false).Ok?
    requires !WithHolder(env, kind) && SystemAt(sh, Id(k)).Some? ==> SystemAt(sh, Id(k)).value.value >= 0
    ensures var after := AddToLiquidity(env, sh, k, kind, q, false).value;
            && OnDestination(env, after, a, k) == OnDestination(env, sh, a, k)
            && (EntryInOrder(SystemAt(sh, Id(k))) ==> EntryInOrder(SystemAt(after, Id(k))))
  {
    hide Id;
  }

  // ---- an arrival ----

  // What the shard has seen of the token before one of this type arrives: the
  // receiver's own record, or for a new holder the metadata kept there.
  function Seen(env: Env, sh: Shard, dst: Address, k: Key, kind: TokenType): Token {
    if RecordAt(sh, dst, Id(k)).Some? then OnDestination(env, sh, dst, k).token
    else if kind != NonFungibleV2 && kind != DynamicNFT && kind != Fungible && SystemAt(sh, Id(k)).Some?
    then SystemAt(sh, Id(k)).value else NOTHING
  }

  predicate Merges(h: Host, was: Token) {
    h.env.flags.dynamicEsdt && was.meta.Some?
  }

  // Of each field the newer; of equal versions the arriving one.
  function Best(h: Host, was: Token, t: Token): View
    requires Readable(h.vc, t) && (Merges(h, was) ==> Readable(h.vc, was))
  {
    if Merges(h, was) then MergeView(ViewOf(h.vc, was), ViewOf(h.vc, t)) else ViewOf(h.vc, t)
  }

  predicate Holds(vc: VersionCodec, t: Token, v: View, versions: bool) {
    && t.meta.Some? && MakeView(t.meta.value, VersionsOf(v)) == v
    && (versions ==> Readable(vc, t) && ViewOf(vc, t) == v)
  }

  // What the receiver reads after an arrival: the best of what was seen and
  // what arrived; unless the shard keeps metadata on the system account and
  // does not renew it, for then it stays as it was.
  ghost predicate ArrivalReads(h: Host, before: Shard, after: Shard, dst: Address, k: Key, t: Token) {
    var was, now := Seen(h.env, before, dst, k, t.kind), OnDestination(h.env, after, dst, k).token;
    var entry := SystemAt(before, Id(k));
    && OnSender(h.env, after, dst, k) == Ok(now) && SavedAs(h.env, k, t.kind, now.kind) && now.properties == t.properties
    && now.value == t.value + OnDestination(h.env, before, dst, k).token.value
    && (Readable(h.vc, t) && (Merges(h, was) ==> Readable(h.vc, was)) ==>
          if WithHolder(h.env, now.kind) then Holds(h.vc, now, Best(h, was, t), true)
          else if entry.None? || (Renews(h.env) && (Stamped(t.reserved) || (Merges(h, was) && Stamped(was.reserved))))
          then Holds(h.vc, now, Best(h, was, t), VersionsKept(h.env, now.kind))
          else if Renews(h.env) && ReservedEmpty(entry.value.reserved)
          then Holds(h.vc, now, Best(h, was, t), false)
               && (VersionsKept(h.env, now.kind) ==> now.reserved == entry.value.reserved)
          else && now.meta == entry.value.meta
               && (VersionsKept(h.env, now.kind) && now.meta.Some? ==> now.reserved == entry.value.reserved))
  }

  // The record and the entry an arrival finds.
  predicate InOrder(sh: Shard, a: Address, k: Key) {
    && (RecordAt(sh, a, Id(k)).Some? ==> RecordAt(sh, a, Id(k)).value.value >= 0)
    && (SystemAt(sh, Id(k)).Some? ==> SystemAt(sh, Id(k)).value.value >= 0)
  }

  // The arriving token as it is saved: newer-wins with what was seen.
  lemma MergedWithSeen(h: Host, sh: Shard, dst: Address, k: Key, t: Token, sum: Token)
    requires LawfulVersions(h.vc) && t.meta.Some? && sum == t.(value := sum.value)
    ensures var was := Seen(h.env, sh, dst, k, t.kind);
            var m := MergedToken(h, Known(sh, k, OnDestination(h.env, sh, dst, k), t.kind), sum);
            && (m.Some? ==> m.value == sum.(meta := m.value.meta, reserved := m.value.reserved) && m.value.meta.Some?)
            && (Readable(h.vc, t) && (Merges(h, was) ==> Readable(h.vc, was)) ==>
                  && m.Some? && Readable(h.vc, m.value) && ViewOf(h.vc, m.value) == Best(h, was, t)
                  && (Stamped(m.value.reserved) <==>
                        Stamped(t.reserved) || (Merges(h, was) && Stamped(was.reserved))))
  {
    hide Id;
    var was := Seen(h.env, sh, dst, k, t.kind);
    var known := Known(sh, k, OnDestination(h.env, sh, dst, k), t.kind);
    assert known.meta == was.meta && known.reserved == was.reserved;
    if Merges(h, was) {
      MergeIsPointwise(h.vc, known, sum);
    }
  }

  lemma OwnValue(env: Env, sh: Shard, a: Address, k: Key)
    requires InOrder(sh, a, k)
    ensures OnDestination(env, sh, a, k).token.value >= 0
  {
    hide Id;
  }

  lemma ArrivalKeepsBest(h: Host, sh: Shard, snd: Address, dst: Address, k: Key, t: Token, rwe: bool)
    requires LawfulVersions(h.vc) && k.nonce > 0 && t.value > 0 && t.meta.Some? && InOrder(sh, dst, k)
    requires AddNft(h, sh, snd, dst, k, t, rwe).Ok?
    ensures ArrivalReads(h, sh, AddNft(h, sh, snd, dst, k, t, rwe).value, dst, k, t)
    ensures EntryInOrder(SystemAt(sh, Id(k))) ==> EntryInOrder(SystemAt(AddNft(h, sh, snd, dst, k, t, rwe).value, Id(k)))
  {
    hide SaveToken, AddToLiquidity, OnDestination, MergedToken, Known, LawfulVersions, Readable, ViewOf, MergeView, Seen, Id;
    var cur := OnDestination(h.env, sh, dst, k);
    var sum := t.(value := t.value + cur.token.value);
    ReadableHasMeta(h.vc, t);
    OwnValue(h.env, sh, dst, k);
    MergedWithSeen(h, sh, dst, k, t, sum);
    var latest := MergedToken(h, Known(sh, k, cur, t.kind), sum).value;
    var args := SaveArgs(false, rwe, false);
    var saved := SaveToken(h.env, sh, h.shardOf(snd), dst, k, latest, args).value;
    SavedReads(h.env, sh, h.shardOf(snd), dst, k, latest, args);
    SavedEntryInOrder(h.env, sh, h.shardOf(snd), dst, k, latest, args);
    if h.shardOf(snd) != h.shardOf(dst) {
      RaisedReads(h.env, saved.shard, dst, k, saved.kind, t.value);
    }
    var was, now := Seen(h.env, sh, dst, k, t.kind), OnDestination(h.env, saved.shard, dst, k).token;
    if Readable(h.vc, t) && (Merges(h, was) ==> Readable(h.vc, was)) && now.meta == latest.meta {
      HeldView(h.vc, now, latest, Best(h, was, t), SameVersions(now.reserved, latest.reserved));
    }
  }

  lemma HeldView(vc: VersionCodec, now: Token, m: Token, v: View, versions: bool)
    requires LawfulVersions(vc) && Readable(vc, m) && ViewOf(vc, m) == v && now.meta == m.meta
    requires versions ==> SameVersions(now.reserved, m.reserved)
    ensures Holds(vc, now, v, versions)
  {
    VersionsRead(vc, m);
    VersionsRead(vc, now);
    if versions {
      SameVersionsRead(vc, now.reserved, m.reserved);
    }
  }

  // ---- a run of arrivals ----

  datatype Arrival = Arrival(sender: Address, token: Token, returnWithError: bool)

  function ArriveAll(h: Host, sh: Shard, dst: Address, k: Key, arrivals: seq<Arrival>): Result<Shard> {
    if |arrivals| == 0 then Ok(sh)
    else
      var front :- ArriveAll(h, sh, dst, k, arrivals[..|arrivals| - 1]);
      var last := arrivals[|arrivals| - 1];
      AddNft(h, front, last.sender, dst, k, last.token, last.returnWithError)
  }

  // A type with versions, whose metadata is with the holder or renewed.
  predicate Follows(env: Env, kind: TokenType) {
    && env.flags.dynamicEsdt && (kind == NonFungibleV2 || kind == DynamicNFT || kind == DynamicSFT || kind == DynamicMeta)
    && (WithHolder(env, kind) || Renews(env))
  }

  predicate SeenInOrder(h: Host, sh: Shard, dst: Address, k: Key, kind: TokenType) {
    && InOrder(sh, dst, k) && EntryInOrder(SystemAt(sh, Id(k)))
    && (RecordAt(sh, dst, Id(k)).Some? ==> RecordAt(sh, dst, Id(k)).value.kind == kind)
    && Readable(h.vc, Seen(h.env, sh, dst, k, kind))
  }

  predicate ArrivesAs(h: Host, t: Token, kind: TokenType) {
    Readable(h.vc, t) && t.kind == kind && t.value > 0
  }

  lemma BestIsLatest(a: View, b: View)
    ensures AllLatest(MergeView(a, b), {a, b})
    ensures VersionsOf(a) == VersionsOf(b) ==> AllLatest(a, {a, b})
  {
    assert a in {a, b} && b in {a, b};
  }

  // A record read has its holder's amount and type.
  lemma ReadOfRecord(env: Env, sh: Shard, a: Address, k: Key)
    requires OnSender(env, sh, a, k).Ok?
    ensures RecordAt(sh, a, Id(k)).Some?
    ensures var now, record := OnDestination(env, sh, a, k).token, RecordAt(sh, a, Id(k)).value;
            now.value == record.value && now.kind == record.kind && now.properties == record.properties
  {
    hide Id;
  }

  // Metadata the system account keeps is what each holder reads.
  lemma ReadOfEntry(h: Host, sh: Shard, a: Address, k: Key, kind: TokenType)
    requires SeenInOrder(h, sh, a, k, kind) && SystemAt(sh, Id(k)).Some? && k.nonce > 0
    requires !WithHolder(h.env, kind) && VersionsKept(h.env, kind)
    ensures var was, entry := Seen(h.env, sh, a, k, kind), SystemAt(sh, Id(k)).value;
            was.meta == entry.meta && was.reserved == entry.reserved
  {
    hide Id;
  }

  lemma Unstamped(vc: VersionCodec, t: Token)
    requires Readable(vc, t) && !Stamped(t.reserved)
    ensures VersionsOf(ViewOf(vc, t)) == NO_VERSIONS
  {
  }

  lemma SameView(vc: VersionCodec, a: Token, b: Token)
    requires Readable(vc, b) && a.meta == b.meta && a.reserved == b.reserved
    ensures Readable(vc, a) && ViewOf(vc, a) == ViewOf(vc, b)
  {
  }

  // One arrival: each field is one of the two, and neither is newer.
  lemma ArrivalKeepsLatest(h: Host, sh: Shard, snd: Address, dst: Address, k: Key, t: Token, rwe: bool)
    requires LawfulVersions(h.vc) && k.nonce > 0 && Follows(h.env, t.kind) && ArrivesAs(h, t, t.kind)
    requires SeenInOrder(h, sh, dst, k, t.kind) && AddNft(h, sh, snd, dst, k, t, rwe).Ok?
    ensures var after := AddNft(h, sh, snd, dst, k, t, rwe).value;
            && SeenInOrder(h, after, dst, k, t.kind)
            && AllLatest(ViewOf(h.vc, Seen(h.env, after, dst, k, t.kind)),
                         {ViewOf(h.vc, Seen(h.env, sh, dst, k, t.kind)), ViewOf(h.vc, t)})
  {
    hide AddNft, AllLatest, OnDestination, Readable, ViewOf, MergeView, Id;
    ReadableHasMeta(h.vc, t);
    ArrivalKeepsBest(h, sh, snd, dst, k, t, rwe);
    OwnValue(h.env, sh, dst, k);
    var after := AddNft(h, sh, snd, dst, k, t, rwe).value;
    var was, now, entry := Seen(h.env, sh, dst, k, t.kind), OnDestination(h.env, after, dst, k).token, SystemAt(sh, Id(k));
    ReadOfRecord(h.env, after, dst, k);
    var a, b := ViewOf(h.vc, was), ViewOf(h.vc, t);
    BestIsLatest(a, b);
    ReadableHasMeta(h.vc, was);
    if !WithHolder(h.env, t.kind) && entry.Some? && !Stamped(t.reserved) && !Stamped(was.reserved) {
      ReadOfEntry(h, sh, dst, k, t.kind);
      Unstamped(h.vc, was);
      Unstamped(h.vc, t);
      if !ReservedEmpty(entry.value.reserved) {
        SameView(h.vc, now, was);
      } else {
        ReadableHasMeta(h.vc, t);
        RenewedView(h.vc, now, t, was);
      }
    }
  }

  lemma ReadableHasMeta(vc: VersionCodec, t: Token)
    ensures Readable(vc, t) ==> t.meta.Some?
  {
  }

  lemma RenewedView(vc: VersionCodec, now: Token, t: Token, was: Token)
    requires Readable(vc, t) && Readable(vc, was) && !Stamped(t.reserved) && !Stamped(was.reserved)
    requires Holds(vc, now, MergeView(ViewOf(vc, was), ViewOf(vc, t)), false) && now.reserved == was.reserved
    ensures Readable(vc, now) && ViewOf(vc, now) == MergeView(ViewOf(vc, was), ViewOf(vc, t))
  {
  }

  function TokensOf(arrivals: seq<Arrival>): seq<Token> {
    seq(|arrivals|, i requires 0 <= i < |arrivals| => arrivals[i].token)
  }

  lemma LatestThen(x: View, views: set<View>, y: View, t: View)
    requires AllLatest(x, views) && AllLatest(y, {x, t})
    ensures AllLatest(y, views + {t})
  {
    OneLatestThen(x, views, y, t, NAME);
    OneLatestThen(x, views, y, t, CREATOR);
    OneLatestThen(x, views, y, t, ROYALTIES);
    OneLatestThen(x, views, y, t, HASH);
    OneLatestThen(x, views, y, t, URIS);
    OneLatestThen(x, views, y, t, ATTRIBUTES);
  }

  lemma OneLatestThen<T(!new)>(x: View, views: set<View>, y: View, t: View, field: View -> Versioned<T>)
    requires Latest(field(x), views, field) && Latest(field(y), {x, t}, field)
    ensures Latest(field(y), views + {t}, field)
  {
    var v :| v in views && field(v) == field(x);
    var w :| w in {x, t} && field(w) == field(y);
    assert v in views + {t} && t in views + {t} && x in {x, t} && t in {x, t};
  }

  // A run of arrivals: each field the receiver reads in the end is one that
  // was seen, and none seen is newer.
  lemma {:induction false} ArrivalsKeepLatest(h: Host, sh: Shard, dst: Address, k: Key, kind: TokenType,
                                              arrivals: seq<Arrival>)
    requires LawfulVersions(h.vc) && k.nonce > 0 && Follows(h.env, kind) && SeenInOrder(h, sh, dst, k, kind)
    requires forall i :: 0 <= i < |arrivals| ==> ArrivesAs(h, arrivals[i].token, kind)
    requires ArriveAll(h, sh, dst, k, arrivals).Ok?
    ensures AllReadable(h.vc, TokensOf(arrivals))
    ensures var after := ArriveAll(h, sh, dst, k, arrivals).value;
            && SeenInOrder(h, after, dst, k, kind)
            && AllLatest(ViewOf(h.vc, Seen(h.env, after, dst, k, kind)),
                         ViewsOf(ViewOf(h.vc, Seen(h.env, sh, dst, k, kind)), Views(h.vc, TokensOf(arrivals))))
    decreases |arrivals|
  {
    hide AddNft, AllLatest, SeenInOrder, Seen, Readable, ViewOf, ViewsOf, Follows, Id;
    SeenReadable(h, sh, dst, k, kind);
    var start := ViewOf(h.vc, Seen(h.env, sh, dst, k, kind));
    if |arrivals| == 0 {
      AloneIsLatest(start, Views(h.vc, TokensOf(arrivals)));
    } else {
      var n := |arrivals| - 1;
      var front, last := ArriveAll(h, sh, dst, k, arrivals[..n]).value, arrivals[n];
      ArrivalsKeepLatest(h, sh, dst, k, kind, arrivals[..n]);
      SeenReadable(h, front, dst, k, kind);
      ArrivalKeepsLatest(h, front, last.sender, dst, k, last.token, last.returnWithError);
      SeenReadable(h, ArriveAll(h, sh, dst, k, arrivals).value, dst, k, kind);
      var ts := TokensOf(arrivals);
      assert TokensOf(arrivals[..n]) == ts[..n];
      var views := Views(h.vc, ts);
      assert views[..n] == Views(h.vc, ts[..n]);
      ViewsGrow(start, views, n);
      LatestThen(ViewOf(h.vc, Seen(h.env, front, dst, k, kind)), ViewsOf(start, views[..n]),
                 ViewOf(h.vc, Seen(h.env, ArriveAll(h, sh, dst, k, arrivals).value, dst, k, kind)), views[n]);
    }
  }

  lemma SeenReadable(h: Host, sh: Shard, dst: Address, k: Key, kind: TokenType)
    requires SeenInOrder(h, sh, dst, k, kind)
    ensures Readable(h.vc, Seen(h.env, sh, dst, k, kind))
  {
  }

  lemma AloneIsLatest(start: View, none: seq<View>)
    requires none == []
    ensures AllLatest(start, ViewsOf(start, none))
  {
    assert ViewsOf(start, none) == {start};
    assert start in ViewsOf(start, none);
  }

  // ---- messages ----

  // The shard's entry lists the other shard as one that has the metadata.
  predicate Lists(entry: Option<Token>, shard: nat) {
    entry.Some? && shard < |entry.value.properties| && entry.value.properties[shard] > 0
  }

  // The destination is taken to have the metadata of a token about to be sent.
  // A record that moves to the holder's own metadata takes the entry with it.
  predicate Knows(h: Host, sh: Shard, dst: Address, k: Key, was: TokenType, now: TokenType) {
    && h.env.flags.saveToSystemAccount && !h.env.flags.sendAlways
    && Lists(SystemAt(sh, Id(k)), h.shardOf(dst)) && (now == NonFungibleV2 ==> was == NonFungibleV2)
  }

  // The token as its holder had it, of quantity q.
  predicate TakenFrom(env: Env, before: Shard, a: Address, k: Key, q: nat, t: Token) {
    var was := OnSender(env, before, a, k);
    was.Ok? && SavedAs(env, k, was.value.kind, t.kind) && t == was.value.(kind := t.kind, value := q)
  }

  // The message carries the token with all its metadata when it is the only
  // one, or the destination has not got the metadata; otherwise its amount.
  ghost predicate CarriesToken(h: Host, before: Shard, snd: Address, dst: Address, k: Key, q: nat, data: Token) {
    exists t: Token :: TakenFrom(h.env, before, snd, k, q, t)
      && data == if q == 1 || !Knows(h, before, dst, k, OnSender(h.env, before, snd, k).value.kind, t.kind) then t
                 else Token(NonFungible, q, None, [], None)
  }

  lemma TakenToken(h: Host, sh: Shard, a: Address, k: Key, t: Token, q: nat, rwe: bool)
    requires OnSender(h.env, sh, a, k) == Ok(t) && TakeNft(h, sh, a, k, t, q, rwe).Ok?
    ensures TakenFrom(h.env, sh, a, k, q, TakeNft(h, sh, a, k, t, q, rwe).value.token)
  {
    hide Id;
  }

  // What is left of it is the same token, fewer.
  predicate LeftOf(env: Env, t: Token, after: Shard, a: Address, k: Key, q: nat) {
    var now := OnSender(env, after, a, k);
    && now.Ok? && SavedAs(env, k, t.kind, now.value.kind)
    && now.value.value == t.value - q && now.value.properties == t.properties && now.value.meta == t.meta
    && (VersionsKept(env, now.value.kind) && now.value.kind == t.kind ==> SameVersions(now.value.reserved, t.reserved))
  }

  lemma RemainderReads(h: Host, sh: Shard, a: Address, k: Key, t: Token, q: nat, rwe: bool)
    requires OnSender(h.env, sh, a, k) == Ok(t) && k.nonce > 0 && t.meta.Some? && q < t.value
    requires EntryInOrder(SystemAt(sh, Id(k))) && TakeNft(h, sh, a, k, t, q, rwe).Ok?
    ensures LeftOf(h.env, t, TakeNft(h, sh, a, k, t, q, rwe).value.shard, a, k, q)
  {
    hide SaveToken, Id;
    SavedReads(h.env, sh, h.shardOf(a), a, k, t.(value := t.value - q), SaveArgs(false, rwe, false));
  }

  // With metadata not always sent, the lists of shards stay as they are until
  // the query.
  lemma ListStays(h: Host, sh: Shard, snd: Address, dst: Address, k: Key, t: Token, q: nat, rwe: bool)
    requires Here(h, snd) && !Here(h, dst) && !h.env.flags.sendAlways && h.env.flags.saveToSystemAccount
    requires TakeNft(h, sh, snd, k, t, q, rwe).Ok?
    ensures var taken := TakeNft(h, sh, snd, k, t, q, rwe).value;
            && HandOver(h, taken.shard, snd, dst, k, taken.token, rwe) == Ok(taken.shard)
            && (Lists(SystemAt(taken.shard, Id(k)), h.shardOf(dst))
                <==> Knows(h, sh, dst, k, t.kind, taken.token.kind))
  {
    hide Id, SaveBlocked;
  }

  // A query fails only for a shard beyond both the shards there are and those
  // listed; and then only where a list is kept.
  lemma QueryIff(h: Host, sh: Shard, k: Key, dst: Address)
    ensures MarkSent(h, sh, k, dst).Fail?
            <==> h.env.flags.saveToSystemAccount && k.nonce > 0 && !Here(h, dst) && !h.env.flags.sendAlways
                 && h.shardOf(dst) != METACHAIN && SystemAt(sh, Id(k)).Some?
                 && h.shardOf(dst) >= h.env.shards && h.shardOf(dst) >= |SystemAt(sh, Id(k)).value.properties|
  {
    hide Id;
  }

  // Whether the query answers that the destination has the metadata.
  lemma QueryAnswers(h: Host, sh: Shard, k: Key, dst: Address)
    requires MarkSent(h, sh, k, dst).Ok? && k.nonce > 0 && !Here(h, dst)
    ensures MarkSent(h, sh, k, dst).value.alreadySent
            <==> h.env.flags.saveToSystemAccount && !h.env.flags.sendAlways
                 && (h.shardOf(dst) == METACHAIN || Lists(SystemAt(sh, Id(k)), h.shardOf(dst)))
  {
    hide Id;
  }

  lemma MessageCarries(h: Host, sh: Shard, snd: Address, dst: Address, k: Key, q: nat, rwe: bool)
    requires Here(h, snd) && !Here(h, dst) && SendNft(h, sh, snd, dst, k, q, rwe).Ok?
    ensures var items := SendNft(h, sh, snd, dst, k, q, rwe).value.items;
            && |items| == 1 && items[0].token == k.token && items[0].nonce == k.nonce
            && CarriesToken(h, sh, snd, dst, k, q, items[0].data)
  {
    hide TakeNft, HandOver, OnSender, MarkSent, Lists, Id;
    var t := OnSender(h.env, sh, snd, k).value;
    var taken := TakeNft(h, sh, snd, k, t, q, rwe).value;
    var after := HandOver(h, taken.shard, snd, dst, k, taken.token, rwe).value;
    TakenToken(h, sh, snd, k, t, q, rwe);
    QueryAnswers(h, after, k, dst);
    if h.env.flags.saveToSystemAccount && !h.env.flags.sendAlways {
      ListStays(h, sh, snd, dst, k, t, q, rwe);
    }
  }

  // Amounts of more bytes than this are never sent plain.
  predicate Plain(value: nat) {
    |ToBytes(value)| <= 32
  }

  // The same of a list: a shard is told once for each token.
  ghost predicate KnowsAt(h: Host, sh: Shard, dst: Address, list: seq<Wire.Transfer>, i: nat)
    requires i < |list|
  {
    var id := Id(Key(list[i].token, list[i].nonce));
    && h.env.flags.saveToSystemAccount && !h.env.flags.sendAlways
    && (h.shardOf(dst) == METACHAIN || Lists(SystemAt(sh, id), h.shardOf(dst))
        || (SystemAt(sh, id).Some? && MentionedBefore(list, i, id)))
  }

  predicate MentionedBefore(list: seq<Wire.Transfer>, i: nat, id: bytes)
    requires i <= |list|
  {
    exists j :: 0 <= j < i && list[j].nonce > 0 && Id(Key(list[j].token, list[j].nonce)) == id
  }

  ghost predicate CarriesTokens(h: Host, sh: Shard, dst: Address, list: seq<Wire.Transfer>, tokens: seq<Token>,
                                items: seq<Wire.Received>)
    requires |tokens| == |list|
  {
    && |items| == |list|
    && forall i :: 0 <= i < |list| ==>
         && items[i].token == list[i].token && items[i].nonce == list[i].nonce
         && items[i].data == if list[i].nonce == 0 then Token(Fungible, list[i].value, None, [], None)
                             else if list[i].value == 1 || !Plain(list[i].value) || !KnowsAt(h, sh, dst, list, i) then tokens[i]
                             else Token(NonFungible, list[i].value, None, [], None)
  }

  // What queries for a list change of the entries.
  ghost predicate ListsAfter(h: Host, sh: Shard, dst: Address, list: seq<Wire.Transfer>, after: Shard) {
    forall id: bytes ::
      && (SystemAt(after, id).Some? <==> SystemAt(sh, id).Some?)
      && (h.env.flags.saveToSystemAccount && !h.env.flags.sendAlways && h.shardOf(dst) != METACHAIN ==>
            (Lists(SystemAt(after, id), h.shardOf(dst))
             <==> Lists(SystemAt(sh, id), h.shardOf(dst)) || (SystemAt(sh, id).Some? && MentionedBefore(list, |list|, id))))
  }

  lemma QueryLists(h: Host, sh: Shard, k: Key, dst: Address, id: bytes)
    requires MarkSent(h, sh, k, dst).Ok? && k.nonce > 0 && !Here(h, dst)
    ensures var after := MarkSent(h, sh, k, dst).value.shard;
            && (SystemAt(after, id).Some? <==> SystemAt(sh, id).Some?)
            && (h.env.flags.saveToSystemAccount && !h.env.flags.sendAlways && h.shardOf(dst) != METACHAIN ==>
                  (Lists(SystemAt(after, id), h.shardOf(dst))
                   <==> Lists(SystemAt(sh, id), h.shardOf(dst)) || (SystemAt(sh, id).Some? && id == Id(k))))
  {
    hide Id;
  }

  lemma MentionedFront(list: seq<Wire.Transfer>, n: nat)
    requires n < |list|
    ensures forall i, id: bytes :: 0 <= i <= n ==> (MentionedBefore(list[..n], i, id) <==> MentionedBefore(list, i, id))
    ensures forall id: bytes ::
              MentionedBefore(list, n + 1, id)
              <==> MentionedBefore(list, n, id) || (list[n].nonce > 0 && Id(Key(list[n].token, list[n].nonce)) == id)
  {
    hide Id;
    forall i, id: bytes | 0 <= i <= n
      ensures MentionedBefore(list[..n], i, id) <==> MentionedBefore(list, i, id)
    {
      if MentionedBefore(list, i, id) {
        var j :| 0 <= j < i && list[j].nonce > 0 && Id(Key(list[j].token, list[j].nonce)) == id;
        assert list[..n][j] == list[j];
      }
    }
  }

  lemma {:induction false} ListsGrow(h: Host, sh: Shard, dst: Address, list: seq<Wire.Transfer>, tokens: seq<Token>)
    requires !Here(h, dst) && |tokens| == |list| && BuildItems(h, sh, dst, list, tokens).Ok?
    ensures ListsAfter(h, sh, dst, list, BuildItems(h, sh, dst, list, tokens).value.shard)
    decreases |list|
  {
    hide BuildItems, MarkSent, Lists, MentionedBefore, Id;
    if |list| == 0 {
      NoItems(h, sh, dst, list, tokens);
    } else {
      var n := |list| - 1;
      var front := BuildItems(h, sh, dst, list[..n], tokens[..n]);
      BuildItemsLast(h, sh, dst, list, tokens);
      ListsGrow(h, sh, dst, list[..n], tokens[..n]);
      MentionedFront(list, n);
      assert |list[..n]| == n;
      if list[n].nonce > 0 {
        forall id: bytes {
          QueryLists(h, front.value.shard, Key(list[n].token, list[n].nonce), dst, id);
        }
      }
    }
  }

  lemma NoItems(h: Host, sh: Shard, dst: Address, list: seq<Wire.Transfer>, tokens: seq<Token>)
    requires |tokens| == |list| == 0
    ensures BuildItems(h, sh, dst, list, tokens) == Ok(Sending(sh, [])) && !exists id: bytes :: MentionedBefore(list, 0, id)
  {
    hide Id;
  }

  lemma ItemData(tr: Wire.Transfer, t: Token, alreadySent: bool)
    ensures var item := Wire.AsReceived(Wire.Sent(tr, t, alreadySent));
            && item.token == tr.token && item.nonce == tr.nonce
            && item.data == if tr.nonce == 0 then Token(Fungible, tr.value, None, [], None)
                            else if tr.value == 1 || !Plain(tr.value) || !alreadySent then t
                            else Token(NonFungible, tr.value, None, [], None)
  {
  }

  lemma {:induction false} ItemsCarry(h: Host, sh: Shard, dst: Address, list: seq<Wire.Transfer>, tokens: seq<Token>)
    requires !Here(h, dst) && |tokens| == |list| && BuildItems(h, sh, dst, list, tokens).Ok?
    ensures CarriesTokens(h, sh, dst, list, tokens, BuildItems(h, sh, dst, list, tokens).value.items)
    decreases |list|
  {
    hide BuildItems, MarkSent, Lists, MentionedBefore, Wire.AsReceived, Plain, Id;
    if |list| > 0 {
      var n := |list| - 1;
      var front := BuildItems(h, sh, dst, list[..n], tokens[..n]);
      BuildItemsLast(h, sh, dst, list, tokens);
      ItemsCarry(h, sh, dst, list[..n], tokens[..n]);
      MentionedFront(list, n);
      ListsGrow(h, sh, dst, list[..n], tokens[..n]);
      assert |list[..n]| == n;
      var k, sent := Key(list[n].token, list[n].nonce), SentBefore(h, front.value.shard, list[n], dst).value.alreadySent;
      ItemData(list[n], tokens[n], sent);
      if list[n].nonce > 0 {
        QueryAnswers(h, front.value.shard, k, dst);
        assert sent <==> KnowsAt(h, sh, dst, list, n);
      }
    }
  }

  // ---- updates ----

  // A save that rewrites everything is read back with its versions, where the
  // type keeps any.
  lemma RewrittenReads(env: Env, sh: Shard, sender: nat, a: Address, k: Key, t: Token, args: SaveArgs)
    requires k.nonce > 0 && t.meta.Some? && args.updateAll && (args.keepOnZero || t.value > 0)
    requires SaveToken(env, sh, sender, a, k, t, args).Ok?
    ensures var now := OnSender(env, SaveToken(env, sh, sender, a, k, t, args).value.shard, a, k);
            && now.Ok? && SavedAs(env, k, t.kind, now.value.kind)
            && now.value.value == t.value && now.value.properties == t.properties && now.value.meta == t.meta
            && (VersionsKept(env, now.value.kind) ==> SameVersions(now.value.reserved, t.reserved))
            && (!VersionsKept(env, now.value.kind) ==> now.value.reserved == None)
  {
    hide Id, SaveBlocked, SystemAfterSave, SameVersions;
    SameAsItself(t.reserved);
    RewrittenEntry(env, sh, a, sender, k, t.(kind := SaveToken(env, sh, sender, a, k, t, args).value.kind));
    RewrittenEntry(env, PutSystem(sh, Id(k), None), a, sender, k,
                   t.(kind := SaveToken(env, sh, sender, a, k, t, args).value.kind));
  }

  lemma SameAsItself(r: Option<bytes>)
    ensures SameVersions(r, r)
  {
  }

  lemma RewrittenEntry(env: Env, sh: Shard, a: Address, sender: nat, k: Key, t: Token)
    requires k.nonce > 0 && t.meta.Some?
    ensures var r := SystemAfterSave(env, sh, Some(a), sender, k, t, true);
            && r.Ok? && r.value.Some? && r.value.value.meta == t.meta
            && (t.kind == DynamicSFT || t.kind == DynamicMeta ==> SameVersions(r.value.value.reserved, t.reserved))
  {
    hide Id;
  }

  function Updated(meta: MetaData, u: Update): MetaData {
    match u
    case AddUris(uris) => meta.(uris := meta.uris + uris)
    case SetAttributes(attributes) => meta.(attributes := attributes)
  }

  // The round is the version of the field updated, and of no other.
  function UpdatedVersions(v: Versions, u: Update, round: nat): Versions {
    match u
    case AddUris(_) => v.(uris := round)
    case SetAttributes(_) => v.(attributes := round)
  }

  // The holder reads back its token with the metadata and its version updated
  // and nothing else of it changed.
  ghost predicate ReadsUpdated(h: Host, before: Shard, after: Shard, a: Address, k: Key, u: Update) {
    var was, now := OnSender(h.env, before, a, k), OnSender(h.env, after, a, k);
    && was.Ok? && now.Ok? && was.value.meta.Some?
    && now.value.meta == Some(Updated(was.value.meta.value, u))
    && now.value.value == was.value.value && now.value.properties == was.value.properties
    && SavedAs(h.env, k, was.value.kind, now.value.kind)
    && (LawfulVersions(h.vc) ==>
          var v := VersionsIn(h.vc, was.value.reserved);
          && (h.env.flags.dynamicEsdt ==> v.Some?)
          && VersionsIn(h.vc, now.value.reserved)
             == if !VersionsKept(h.env, now.value.kind) then Some(NO_VERSIONS)
                else if h.env.flags.dynamicEsdt then Some(UpdatedVersions(v.value, u, h.round)) else v)
  }

  lemma UpdateReads(h: Host, sh: Shard, a: Address, k: Key, u: Update, rwe: bool)
    requires UpdateMetaData(h, sh, a, k, u, rwe).Ok?
    ensures ReadsUpdated(h, sh, UpdateMetaData(h, sh, a, k, u, rwe).value, a, k, u)
  {
    hide SaveToken, OnSender, LawfulVersions, Id;
    var t, args := OnSender(h.env, sh, a, k).value, SaveArgs(true, rwe, true);
    var read := VersionOf(h.vc, h.env.flags.dynamicEsdt, t.reserved).value.versions;
    var reserved := if h.env.flags.dynamicEsdt then Some(h.vc.marshal(UpdatedVersions(read, u, h.round))) else t.reserved;
    var updated := t.(meta := Some(Updated(t.meta.value, u)), reserved := reserved);
    assert UpdateMetaData(h, sh, a, k, u, rwe).value == SaveToken(h.env, sh, h.shardOf(a), a, k, updated, args).value.shard;
    RewrittenReads(h.env, sh, h.shardOf(a), a, k, updated, args);
    if LawfulVersions(h.vc) {
      var now := OnSender(h.env, UpdateMetaData(h, sh, a, k, u, rwe).value, a, k).value;
      if VersionsKept(h.env, now.kind) {
        SameVersionsRead(h.vc, now.reserved, reserved);
      }
      if h.env.flags.dynamicEsdt {
        MarshalledRead(h.vc, UpdatedVersions(read, u, h.round));
      }
    }
  }

  lemma MarshalledRead(vc: VersionCodec, v: Versions)
    requires LawfulVersions(vc)
    ensures VersionsIn(vc, Some(vc.marshal(v))) == Some(v)
  {
  }

  // The updated field of v.
  predicate SameField(v: View, w: View, u: Update) {
    match u
    case AddUris(_) => v.uris == w.uris
    case SetAttributes(_) => v.attributes == w.attributes
  }

  function FieldVersion(v: View, u: Update): nat {
    match u
    case AddUris(_) => v.uris.version
    case SetAttributes(_) => v.attributes.version
  }

  // The updated field prevails over any earlier version of it, whichever of
  // the two tokens arrives where the other is known.
  lemma UpdatePrevails(h: Host, sh: Shard, a: Address, k: Key, u: Update, rwe: bool, other: Token)
    requires LawfulVersions(h.vc) && h.env.flags.dynamicEsdt && UpdateMetaData(h, sh, a, k, u, rwe).Ok?
    requires Readable(h.vc, other) && FieldVersion(ViewOf(h.vc, other), u) < h.round
    requires VersionsKept(h.env, OnSender(h.env, UpdateMetaData(h, sh, a, k, u, rwe).value, a, k).value.kind)
    ensures var now := OnSender(h.env, UpdateMetaData(h, sh, a, k, u, rwe).value, a, k).value;
            && Readable(h.vc, now) && FieldVersion(ViewOf(h.vc, now), u) == h.round
            && var one, two := Arrive(h.vc, now, other), Arrive(h.vc, other, now);
            && one.Some? && Readable(h.vc, one.value) && SameField(ViewOf(h.vc, one.value), ViewOf(h.vc, now), u)
            && two.Some? && Readable(h.vc, two.value) && SameField(ViewOf(h.vc, two.value), ViewOf(h.vc, now), u)
  {
    hide UpdateMetaData, OnSender, Arrive, LawfulVersions, Readable, Id;
    UpdateReads(h, sh, a, k, u, rwe);
    var now := OnSender(h.env, UpdateMetaData(h, sh, a, k, u, rwe).value, a, k).value;
    VersionsRead(h.vc, now);
    ArriveMerges(h.vc, now, other);
    ArriveMerges(h.vc, other, now);
  }
}
