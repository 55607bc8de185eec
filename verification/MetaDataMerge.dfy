// Merging the metadata of an arriving token into what the shard knows: each
// field carries the round that last wrote it, and the newer round wins.
module MetaDataMerge {
  import opened Bytes
  import opened Tokens

  datatype Versions = Versions(name: nat, creator: nat, royalties: nat, hash: nat, uris: nat, attributes: nat)

  const NO_VERSIONS := Versions(0, 0, 0, 0, 0, 0)

  // How version records are written into the reserved bytes. An encoding is
  // never one of the two single-byte markers, and no bytes are no versions.
  datatype VersionCodec = VersionCodec(marshal: Versions -> bytes, unmarshal: bytes -> Option<Versions>)

  ghost predicate LawfulVersions(vc: VersionCodec) {
    && (forall v :: vc.unmarshal(vc.marshal(v)) == Some(v) && vc.marshal(v) != [0] && vc.marshal(v) != [1])
    && vc.unmarshal([]) == Some(NO_VERSIONS)
  }

  datatype VersionRead = VersionRead(versions: Versions, updated: bool)

  // getMetaDataVersion; None is an unmarshalling error.
  function VersionOf(vc: VersionCodec, dynamic: bool, reserved: Option<bytes>): Option<VersionRead> {
    if !dynamic || !MetaDataUpdated(reserved) then Some(VersionRead(NO_VERSIONS, false))
    else
      var v := vc.unmarshal(reserved.value);
      if v.None? then None else Some(VersionRead(v.value, true))
  }

  // A token in memory, whose fields the merge overwrites.
  class TokenData {
    var kind: TokenType
    var value: int
    var meta: Option<MetaData>
    var properties: bytes
    var reserved: Option<bytes>

    constructor (t: Token)
      ensures Snapshot() == t
    {
      kind, value, meta, properties, reserved := t.kind, t.value, t.meta, t.properties, t.reserved;
    }

    function Snapshot(): Token
      reads this
    {
      Token(kind, value, meta, properties, reserved)
    }
  }

  // ---- the view: one (version, value) pair a field ----

  datatype Versioned<T> = Versioned(version: nat, value: T)

  datatype View = View(
    name: Versioned<bytes>, creator: Versioned<bytes>, royalties: Versioned<nat>,
    hash: Versioned<bytes>, uris: Versioned<seq<bytes>>, attributes: Versioned<bytes>)

  function MakeView(m: MetaData, v: Versions): View {
    View(Versioned(v.name, m.name), Versioned(v.creator, m.creator), Versioned(v.royalties, m.royalties),
         Versioned(v.hash, m.hash), Versioned(v.uris, m.uris), Versioned(v.attributes, m.attributes))
  }

  predicate Readable(vc: VersionCodec, t: Token) {
    t.meta.Some? && VersionOf(vc, true, t.reserved).Some?
  }

  // Fields of a token never updated are at version 0.
  function ViewOf(vc: VersionCodec, t: Token): View
    requires Readable(vc, t)
  {
    MakeView(t.meta.value, VersionOf(vc, true, t.reserved).value.versions)
  }

  function Newer<T>(current: Versioned<T>, arriving: Versioned<T>): Versioned<T> {
    if current.version > arriving.version then current else arriving
  }

  function MergeView(current: View, arriving: View): View {
    View(Newer(current.name, arriving.name), Newer(current.creator, arriving.creator),
         Newer(current.royalties, arriving.royalties), Newer(current.hash, arriving.hash),
         Newer(current.uris, arriving.uris), Newer(current.attributes, arriving.attributes))
  }

  // ---- mergeEsdtData ----

  datatype Merged = Merged(meta: Option<MetaData>, reserved: Option<bytes>)

  // What the arriving token's metadata and reserved bytes become; None when a
  // version is unreadable, or a field must be copied into missing metadata.
  function MergedInto(vc: VersionCodec, dynamic: bool, current: Token, transfer: Token): Option<Merged> {
    var unchanged_ := Some(Merged(transfer.meta, transfer.reserved));
    if !dynamic || current.meta.None? then unchanged_
    else
      var c, t := VersionOf(vc, dynamic, current.reserved), VersionOf(vc, dynamic, transfer.reserved);
      if c.None? || t.None? then None
      else if !c.value.updated && !t.value.updated then unchanged_
      else if transfer.meta.None? then
        if NotBelow(t.value.versions, c.value.versions)
        then Some(Merged(None, Some(vc.marshal(t.value.versions)))) else None
      else
        var v := MergeView(MakeView(current.meta.value, c.value.versions), MakeView(transfer.meta.value, t.value.versions));
        Some(Merged(
          Some(MetaData(transfer.meta.value.nonce, v.name.value, v.creator.value, v.royalties.value, v.hash.value,
                        v.uris.value, v.attributes.value)),
          Some(vc.marshal(VersionsOf(v)))))
  }

  // With metadata on both sides and readable versions the merge succeeds, and
  // seen field by field it is the pointwise newer-wins merge.
  lemma MergeIsPointwise(vc: VersionCodec, current: Token, transfer: Token)
    requires LawfulVersions(vc) && current.meta.Some? && transfer.meta.Some?
    ensures MergedInto(vc, true, current, transfer).Some? <==> Readable(vc, current) && Readable(vc, transfer)
    ensures Readable(vc, current) && Readable(vc, transfer) ==>
              var m := MergedInto(vc, true, current, transfer).value;
              var merged := transfer.(meta := m.meta, reserved := m.reserved);
              && Readable(vc, merged) && merged.meta.value.nonce == transfer.meta.value.nonce
              && ViewOf(vc, merged) == MergeView(ViewOf(vc, current), ViewOf(vc, transfer))
  {
  }

  // Overwrites the arriving token in place; nothing but its metadata and
  // reserved bytes changes.
  method MergeEsdtData(vc: VersionCodec, dynamic: bool, current: TokenData, transfer: TokenData) returns (ok: bool)
    requires current != transfer
    modifies transfer
    ensures ok <==> MergedInto(vc, dynamic, current.Snapshot(), old(transfer.Snapshot())).Some?
    ensures ok ==>
              var m := MergedInto(vc, dynamic, current.Snapshot(), old(transfer.Snapshot())).value;
              transfer.Snapshot() == old(transfer.Snapshot()).(meta := m.meta, reserved := m.reserved)
  {
    if !dynamic || current.meta.None? {
      return true;
    }
    var currentRead := VersionOf(vc, dynamic, current.reserved);
    if currentRead.None? {
      return false;
    }
    var transferRead := VersionOf(vc, dynamic, transfer.reserved);
    if transferRead.None? {
      return false;
    }
    if !currentRead.value.updated && !transferRead.value.updated {
      return true;
    }
    var merged := transferRead.value.versions;
    if transfer.meta.None? {
      // copying a field into missing metadata is a nil dereference
      if !NotBelow(merged, currentRead.value.versions) {
        return false;
      }
    } else {
      merged := OverwriteOlder(current.meta.value, currentRead.value.versions, transfer, merged);
    }
    transfer.reserved := Some(vc.marshal(merged));
    ok := true;
  }

  // Copies each field the current side wrote later, with its version.
  method OverwriteOlder(from: MetaData, current: Versions, transfer: TokenData, transferred: Versions)
    returns (merged: Versions)
    requires transfer.meta.Some?
    modifies transfer`meta
    ensures transfer.meta.Some? && transfer.meta.value.nonce == old(transfer.meta.value.nonce)
    ensures MakeView(transfer.meta.value, merged) ==
            MergeView(MakeView(from, current), MakeView(old(transfer.meta.value), transferred))
  {
    var meta := transfer.meta.value;
    merged := transferred;
    if current.name > merged.name {
      meta, merged := meta.(name := from.name), merged.(name := current.name);
    }
    if current.creator > merged.creator {
      meta, merged := meta.(creator := from.creator), merged.(creator := current.creator);
    }
    if current.royalties > merged.royalties {
      meta, merged := meta.(royalties := from.royalties), merged.(royalties := current.royalties);
    }
    if current.hash > merged.hash {
      meta, merged := meta.(hash := from.hash), merged.(hash := current.hash);
    }
    if current.uris > merged.uris {
      meta, merged := meta.(uris := from.uris), merged.(uris := current.uris);
    }
    if current.attributes > merged.attributes {
      meta, merged := meta.(attributes := from.attributes), merged.(attributes := current.attributes);
    }
    transfer.meta := Some(meta);
  }

  // ---- laws of the merge ----

  lemma MergeIdempotent(a: View)
    ensures MergeView(a, a) == a
  {
  }

  lemma MergeAssociative(a: View, b: View, c: View)
    ensures MergeView(MergeView(a, b), c) == MergeView(a, MergeView(b, c))
  {
  }

  function VersionsOf(v: View): Versions {
    Versions(v.name.version, v.creator.version, v.royalties.version, v.hash.version, v.uris.version, v.attributes.version)
  }

  predicate NotBelow(a: Versions, b: Versions) {
    a.name >= b.name && a.creator >= b.creator && a.royalties >= b.royalties &&
    a.hash >= b.hash && a.uris >= b.uris && a.attributes >= b.attributes
  }

  // Folding arrivals one after the other into what the shard holds.
  function Fold(start: View, arrivals: seq<View>): View {
    if |arrivals| == 0 then start
    else MergeView(Fold(start, arrivals[..|arrivals| - 1]), arrivals[|arrivals| - 1])
  }

  // No arrival ever lowers a version.
  lemma {:induction false} VersionsNeverDecrease(start: View, arrivals: seq<View>, k: nat)
    requires k <= |arrivals|
    ensures NotBelow(VersionsOf(Fold(start, arrivals)), VersionsOf(Fold(start, arrivals[..k])))
    decreases |arrivals| - k
  {
    if k < |arrivals| {
      VersionsNeverDecrease(start, arrivals, k + 1);
      assert arrivals[..k + 1][..k] == arrivals[..k];
    } else {
      assert arrivals[..k] == arrivals;
    }
  }

  // Field f of r comes from one of the views, and none of them is newer.
  ghost predicate Latest<T(!new)>(r: Versioned<T>, views: set<View>, field: View -> Versioned<T>) {
    && (exists v :: v in views && field(v) == r)
    && (forall v :: v in views ==> field(v).version <= r.version)
  }

  ghost predicate Selects<T(!new)>(field: View -> Versioned<T>) {
    forall a, b :: field(MergeView(a, b)) == Newer(field(a), field(b))
  }

  lemma {:induction false} FoldIsLatest<T(!new)>(start: View, arrivals: seq<View>, field: View -> Versioned<T>)
    requires Selects(field)
    ensures Latest(field(Fold(start, arrivals)), ViewsOf(start, arrivals), field)
  {
    if |arrivals| == 0 {
      assert start in ViewsOf(start, arrivals);
    } else {
      var n := |arrivals| - 1;
      var before, last := Fold(start, arrivals[..n]), arrivals[n];
      FoldIsLatest(start, arrivals[..n], field);
      ViewsGrow(start, arrivals, n);
      assert field(MergeView(before, last)) == Newer(field(before), field(last));
      LatestGrows(field(before), last, ViewsOf(start, arrivals[..n]), field);
    }
  }

  lemma LatestGrows<T(!new)>(r: Versioned<T>, last: View, views: set<View>, field: View -> Versioned<T>)
    requires Latest(r, views, field)
    ensures Latest(Newer(r, field(last)), views + {last}, field)
  {
    var v :| v in views && field(v) == r;
    assert v in views + {last} && last in views + {last};
  }

  lemma ViewsGrow(start: View, arrivals: seq<View>, n: nat)
    requires n == |arrivals| - 1
    ensures ViewsOf(start, arrivals) == ViewsOf(start, arrivals[..n]) + {arrivals[n]}
  {
    var a, b := ViewsOf(start, arrivals), ViewsOf(start, arrivals[..n]) + {arrivals[n]};
    forall v
      ensures v in a <==> v in b
    {
      if v in a && v != start {
        var i :| 0 <= i < |arrivals| && v == arrivals[i];
        assert i < n ==> v == arrivals[..n][i];
      }
      if v in ViewsOf(start, arrivals[..n]) && v != start {
        var i :| 0 <= i < n && v == arrivals[..n][i];
        assert v == arrivals[i];
      }
    }
  }

  ghost function ViewsOf(start: View, arrivals: seq<View>): set<View> {
    {start} + set i | 0 <= i < |arrivals| :: arrivals[i]
  }

  // Equal versions carry equal values.
  ghost predicate Agree<T(!new)>(views: set<View>, field: View -> Versioned<T>) {
    forall a, b :: a in views && b in views && field(a).version == field(b).version ==> field(a) == field(b)
  }

  lemma LatestIsUnique<T(!new)>(r: Versioned<T>, s: Versioned<T>, views: set<View>, field: View -> Versioned<T>)
    requires Latest(r, views, field) && Latest(s, views, field) && Agree(views, field)
    ensures r == s
  {
    var a :| a in views && field(a) == r;
    var b :| b in views && field(b) == s;
  }

  const NAME := (v: View) => v.name
  const CREATOR := (v: View) => v.creator
  const ROYALTIES := (v: View) => v.royalties
  const HASH := (v: View) => v.hash
  const URIS := (v: View) => v.uris
  const ATTRIBUTES := (v: View) => v.attributes

  ghost predicate AllAgree(views: set<View>) {
    && Agree(views, NAME) && Agree(views, CREATOR) && Agree(views, ROYALTIES)
    && Agree(views, HASH) && Agree(views, URIS) && Agree(views, ATTRIBUTES)
  }

  lemma FieldConverges<T(!new)>(start: View, one: seq<View>, other: seq<View>, field: View -> Versioned<T>)
    requires Selects(field) && ViewsOf(start, one) == ViewsOf(start, other)
    requires Agree(ViewsOf(start, one), field)
    ensures field(Fold(start, one)) == field(Fold(start, other))
  {
    FoldIsLatest(start, one, field);
    FoldIsLatest(start, other, field);
    LatestIsUnique(field(Fold(start, one)), field(Fold(start, other)), ViewsOf(start, one), field);
  }

  // Whatever the order of the arrivals, and even if some arrive twice, the
  // result is the same.
  lemma MergeConverges(start: View, one: seq<View>, other: seq<View>)
    requires ViewsOf(start, one) == ViewsOf(start, other)
    requires AllAgree(ViewsOf(start, one))
    ensures Fold(start, one) == Fold(start, other)
  {
    FieldConverges(start, one, other, NAME);
    FieldConverges(start, one, other, CREATOR);
    FieldConverges(start, one, other, ROYALTIES);
    FieldConverges(start, one, other, HASH);
    FieldConverges(start, one, other, URIS);
    FieldConverges(start, one, other, ATTRIBUTES);
  }

  // Agreement is needed: two updates made in the same round leave a value
  // that depends on which arrives last.
  lemma DisagreementDoesNotConverge(a: View, b: View)
    requires VersionsOf(a) == VersionsOf(b) && a != b
    ensures Fold(a, [a, b]) == b && Fold(a, [b, a]) == a
  {
    assert [a, b][..1] == [a] && [b, a][..1] == [b];
    assert [a][..0] == [] && [b][..0] == [];
    assert Fold(a, [a]) == MergeView(Fold(a, []), a) && Fold(a, [b]) == MergeView(Fold(a, []), b);
  }

  // ---- arrivals of tokens ----

  // The token kept after t arrives where current is known.
  function Arrive(vc: VersionCodec, current: Token, t: Token): Option<Token> {
    var m := MergedInto(vc, true, current, t);
    if m.None? then None else Some(t.(meta := m.value.meta, reserved := m.value.reserved))
  }

  function FoldTokens(vc: VersionCodec, start: Token, arrivals: seq<Token>): Option<Token> {
    if |arrivals| == 0 then Some(start)
    else
      var front := FoldTokens(vc, start, arrivals[..|arrivals| - 1]);
      if front.None? then None else Arrive(vc, front.value, arrivals[|arrivals| - 1])
  }

  predicate AllReadable(vc: VersionCodec, ts: seq<Token>) {
    forall i :: 0 <= i < |ts| ==> Readable(vc, ts[i])
  }

  function Views(vc: VersionCodec, ts: seq<Token>): (r: seq<View>)
    requires AllReadable(vc, ts)
    ensures |r| == |ts|
    ensures forall i :: 0 <= i < |ts| ==> r[i] == ViewOf(vc, ts[i])
  {
    if |ts| == 0 then [] else Views(vc, ts[..|ts| - 1]) + [ViewOf(vc, ts[|ts| - 1])]
  }

  lemma ArriveMerges(vc: VersionCodec, current: Token, t: Token)
    requires LawfulVersions(vc) && Readable(vc, current) && Readable(vc, t)
    ensures Arrive(vc, current, t).Some? && Readable(vc, Arrive(vc, current, t).value)
    ensures ViewOf(vc, Arrive(vc, current, t).value) == MergeView(ViewOf(vc, current), ViewOf(vc, t))
    ensures Arrive(vc, current, t).value.meta.value.nonce == t.meta.value.nonce
  {
    MergeIsPointwise(vc, current, t);
  }

  // Merging tokens one after the other never fails on readable versions, and
  // is the fold of their views.
  lemma {:induction false} FoldTokensIsFold(vc: VersionCodec, start: Token, arrivals: seq<Token>)
    requires LawfulVersions(vc) && Readable(vc, start) && AllReadable(vc, arrivals)
    ensures FoldTokens(vc, start, arrivals).Some? && Readable(vc, FoldTokens(vc, start, arrivals).value)
    ensures ViewOf(vc, FoldTokens(vc, start, arrivals).value) == Fold(ViewOf(vc, start), Views(vc, arrivals))
    ensures |arrivals| > 0 ==>
              FoldTokens(vc, start, arrivals).value.meta.value.nonce == arrivals[|arrivals| - 1].meta.value.nonce
  {
    hide Readable, ViewOf, Arrive, MergeView;
    if |arrivals| > 0 {
      var n := |arrivals| - 1;
      FoldTokensIsFold(vc, start, arrivals[..n]);
      ArriveMerges(vc, FoldTokens(vc, start, arrivals[..n]).value, arrivals[n]);
      assert Views(vc, arrivals)[..n] == Views(vc, arrivals[..n]);
    } else {
      assert Views(vc, arrivals) == [];
    }
  }

  ghost predicate AllLatest(v: View, views: set<View>) {
    && Latest(NAME(v), views, NAME) && Latest(CREATOR(v), views, CREATOR) && Latest(ROYALTIES(v), views, ROYALTIES)
    && Latest(HASH(v), views, HASH) && Latest(URIS(v), views, URIS) && Latest(ATTRIBUTES(v), views, ATTRIBUTES)
  }

  lemma FoldKeepsLatest(start: View, arrivals: seq<View>)
    ensures AllLatest(Fold(start, arrivals), ViewsOf(start, arrivals))
  {
    hide Fold, Latest, ViewsOf;
    FoldIsLatest(start, arrivals, NAME);
    FoldIsLatest(start, arrivals, CREATOR);
    FoldIsLatest(start, arrivals, ROYALTIES);
    FoldIsLatest(start, arrivals, HASH);
    FoldIsLatest(start, arrivals, URIS);
    FoldIsLatest(start, arrivals, ATTRIBUTES);
  }

  // Each field of the token kept is one that was seen, and none seen is newer.
  lemma TokensKeepLatest(vc: VersionCodec, start: Token, arrivals: seq<Token>)
    requires LawfulVersions(vc) && Readable(vc, start) && AllReadable(vc, arrivals)
    ensures var kept := FoldTokens(vc, start, arrivals);
            && kept.Some? && Readable(vc, kept.value)
            && AllLatest(ViewOf(vc, kept.value), ViewsOf(ViewOf(vc, start), Views(vc, arrivals)))
  {
    hide FoldTokens, ViewOf, Readable, Fold, AllLatest;
    FoldTokensIsFold(vc, start, arrivals);
    FoldKeepsLatest(ViewOf(vc, start), Views(vc, arrivals));
  }

  lemma ViewVersions(vc: VersionCodec, t: Token)
    requires Readable(vc, t)
    ensures VersionOf(vc, true, t.reserved).Some?
    ensures VersionsOf(ViewOf(vc, t)) == VersionOf(vc, true, t.reserved).value.versions
  {
  }

  // No arrival lowers a version of the token kept.
  lemma TokenVersionsNeverDecrease(vc: VersionCodec, start: Token, arrivals: seq<Token>, k: nat)
    requires LawfulVersions(vc) && Readable(vc, start) && AllReadable(vc, arrivals) && k <= |arrivals|
    ensures var before, after := FoldTokens(vc, start, arrivals[..k]), FoldTokens(vc, start, arrivals);
            && before.Some? && after.Some? && Readable(vc, before.value) && Readable(vc, after.value)
            && NotBelow(VersionOf(vc, true, after.value.reserved).value.versions,
                        VersionOf(vc, true, before.value.reserved).value.versions)
  {
    hide FoldTokens, ViewOf, NotBelow, Fold, VersionsOf, Readable, VersionOf;
    FoldTokensIsFold(vc, start, arrivals);
    FoldTokensIsFold(vc, start, arrivals[..k]);
    ViewVersions(vc, FoldTokens(vc, start, arrivals).value);
    ViewVersions(vc, FoldTokens(vc, start, arrivals[..k]).value);
    assert Views(vc, arrivals)[..k] == Views(vc, arrivals[..k]);
    VersionsNeverDecrease(ViewOf(vc, start), Views(vc, arrivals), k);
  }

  lemma SameViews(vc: VersionCodec, start: View, one: seq<Token>, other: seq<Token>)
    requires AllReadable(vc, one) && AllReadable(vc, other) && multiset(one) == multiset(other)
    ensures ViewsOf(start, Views(vc, one)) == ViewsOf(start, Views(vc, other))
  {
    hide Readable, ViewOf;
    SomeViews(vc, start, one, other);
    SomeViews(vc, start, other, one);
  }

  lemma SomeViews(vc: VersionCodec, start: View, one: seq<Token>, other: seq<Token>)
    requires AllReadable(vc, one) && AllReadable(vc, other) && multiset(one) == multiset(other)
    ensures ViewsOf(start, Views(vc, one)) <= ViewsOf(start, Views(vc, other))
  {
    hide Readable, ViewOf;
    forall v | v in ViewsOf(start, Views(vc, one)) && v != start
      ensures v in ViewsOf(start, Views(vc, other))
    {
      var i :| 0 <= i < |one| && v == Views(vc, one)[i];
      assert one[i] in multiset(other);
      var j :| 0 <= j < |other| && other[j] == one[i];
      assert Views(vc, other)[j] == v;
    }
  }

  predicate SameNonce(start: Token, ts: seq<Token>) {
    start.meta.Some? && forall i :: 0 <= i < |ts| ==> ts[i].meta.Some? && ts[i].meta.value.nonce == start.meta.value.nonce
  }

  // Tokens of one NFT, arriving in any two orders, leave the same metadata and
  // versions when equal versions carry equal values.
  lemma TokensConverge(vc: VersionCodec, start: Token, one: seq<Token>, other: seq<Token>)
    requires LawfulVersions(vc) && Readable(vc, start) && AllReadable(vc, one) && AllReadable(vc, other)
    requires multiset(one) == multiset(other) && SameNonce(start, one) && SameNonce(start, other)
    requires AllAgree(ViewsOf(ViewOf(vc, start), Views(vc, one)))
    ensures var a, b := FoldTokens(vc, start, one), FoldTokens(vc, start, other);
            && a.Some? && b.Some? && a.value.meta == b.value.meta && Readable(vc, a.value) && Readable(vc, b.value)
            && VersionOf(vc, true, a.value.reserved).value.versions == VersionOf(vc, true, b.value.reserved).value.versions
  {
    hide FoldTokens, VersionOf, AllAgree, Fold;
    FoldTokensIsFold(vc, start, one);
    FoldTokensIsFold(vc, start, other);
    SameViews(vc, ViewOf(vc, start), one, other);
    MergeConverges(ViewOf(vc, start), Views(vc, one), Views(vc, other));
    NoneOrSome(start, one, other);
    if |one| == 0 {
      EmptyFold(vc, start, one, other);
    }
  }

  lemma NoneOrSome<T>(start: T, one: seq<T>, other: seq<T>)
    requires multiset(one) == multiset(other)
    ensures |one| == |other|
  {
    assert |multiset(one)| == |one| && |multiset(other)| == |other|;
  }

  lemma EmptyFold(vc: VersionCodec, start: Token, one: seq<Token>, other: seq<Token>)
    requires |one| == |other| == 0
    ensures FoldTokens(vc, start, one) == FoldTokens(vc, start, other) == Some(start)
  {
  }
}
