// The compliance records kept in account storage, and the binary layout their
// decoders read with a moving cursor.
module DrwaRecords {
  import opened Bytes

  const MAX_FIELD := 65536

  // ---- numbers of fixed width (binary.BigEndian) ----

  function Fixed(n: nat, width: nat): (b: bytes)
    ensures |b| == width
  {
    if width == 0 then [] else Fixed(n / 256, width - 1) + [n % 256]
  }

  lemma {:induction false} FixedReads(n: nat, width: nat)
    requires n < Power256(width)
    ensures FromBytes(Fixed(n, width)) == n
  {
    if width > 0 {
      var front := Fixed(n / 256, width - 1);
      FixedReads(n / 256, width - 1);
      PrefixOnly(Fixed(n, width), front, width - 1);
    }
  }

  lemma {:induction false} FixedWrites(b: bytes)
    ensures Fixed(FromBytes(b), |b|) == b
    ensures FromBytes(b) < Power256(|b|)
  {
    if |b| > 0 {
      var n := |b| - 1;
      FixedWrites(b[..n]);
      PrefixOnly(b, b[..n], n);
      assert b == b[..n] + [b[n]];
    }
  }

  lemma Widths()
    ensures Power256(4) == 0x1_0000_0000 && Power256(8) == TWO64
  {
    assert Power256(8) == 256 * Power256(7) && Power256(7) == 256 * Power256(6);
    assert Power256(6) == 256 * Power256(5) && Power256(5) == 256 * Power256(4);
    assert Power256(4) == 256 * Power256(3) && Power256(3) == 256 * Power256(2);
    assert Power256(2) == 256 * Power256(1) && Power256(1) == 256;
  }

  lemma {:induction false} FirstOfFixed(n: nat, width: nat)
    requires n < Power256(width + 1)
    ensures var first, unit := Fixed(n, width + 1)[0], Power256(width);
            first * unit <= n < first * unit + unit
  {
    if width > 0 {
      FirstOfFixed(n / 256, width - 1);
      var first, unit := Fixed(n, width + 1)[0], Power256(width - 1);
      assert first == Fixed(n / 256, width)[0];
      assert first * (256 * unit) == 256 * (first * unit);
    }
  }

  // ---- length-prefixed fields ----

  datatype Field = Field(value: bytes, next: nat)

  function FieldAt(data: bytes, cursor: nat): (f: Option<Field>)
    requires cursor <= |data|
    ensures f.Some? ==> f.value.next <= |data| && f.value.next == cursor + 4 + |f.value.value|
  {
    if |data| - cursor < 4 then None
    else
      var n := FromBytes(data[cursor..cursor + 4]);
      if n > MAX_FIELD || |data| - (cursor + 4) < n then None
      else Some(Field(data[cursor + 4..cursor + 4 + n], cursor + 4 + n))
  }

  method ReadField(data: bytes, cursor: nat) returns (f: Option<Field>)
    requires cursor <= |data|
    ensures f == FieldAt(data, cursor)
  {
    if |data[cursor..]| < 4 {
      return None;
    }
    var fieldLength := FromBytes(data[cursor..cursor + 4]);
    if fieldLength > MAX_FIELD {
      return None;
    }
    var next := cursor + 4;
    if |data[next..]| < fieldLength {
      return None;
    }
    var field := data[next..next + fieldLength];
    next := next + fieldLength;
    f := Some(Field(field, next));
  }

  function FieldText(f: bytes): bytes {
    Fixed(|f|, 4) + f
  }

  // data continues at the cursor with text.
  predicate Continues(data: bytes, cursor: nat, text: bytes) {
    cursor + |text| <= |data| && data[cursor..cursor + |text|] == text
  }

  predicate ReadsField(data: bytes, cursor: nat, f: bytes)
    requires cursor <= |data|
  {
    FieldAt(data, cursor) == Some(Field(f, cursor + 4 + |f|))
  }

  // A field is read exactly when the data continues with its text.
  lemma FieldIff(data: bytes, cursor: nat, f: bytes)
    requires cursor <= |data|
    ensures ReadsField(data, cursor, f) <==> |f| <= MAX_FIELD && Continues(data, cursor, FieldText(f))
  {
    Widths();
    var text := FieldText(f);
    if |f| <= MAX_FIELD && Continues(data, cursor, text) {
      FixedReads(|f|, 4);
      SliceOfPrefix(data, cursor, text, 4);
    }
    if ReadsField(data, cursor, f) {
      FixedWrites(data[cursor..cursor + 4]);
      assert data[cursor..cursor + |text|] == data[cursor..cursor + 4] + data[cursor + 4..cursor + 4 + |f|];
    }
  }

  lemma SliceOfPrefix(data: bytes, cursor: nat, text: bytes, n: nat)
    requires Continues(data, cursor, text) && n <= |text|
    ensures data[cursor..cursor + n] == text[..n] && data[cursor + n..cursor + |text|] == text[n..]
  {
    var s := data[cursor..cursor + |text|];
    assert s[..n] == data[cursor..cursor + n] && s[n..] == data[cursor + n..cursor + |text|];
  }

  lemma ContinuesBoth(data: bytes, cursor: nat, a: bytes, b: bytes)
    ensures Continues(data, cursor, a + b) <==> Continues(data, cursor, a) && Continues(data, cursor + |a|, b)
  {
    if Continues(data, cursor, a + b) {
      SliceOfPrefix(data, cursor, a + b, |a|);
    }
    if Continues(data, cursor, a) && Continues(data, cursor + |a|, b) {
      assert data[cursor..cursor + |a + b|] == data[cursor..cursor + |a|] + data[cursor + |a|..cursor + |a| + |b|];
    }
  }

  // ---- several fields in a row ----

  datatype Fields = Fields(values: seq<bytes>, next: nat)

  function FieldsFrom(data: bytes, cursor: nat, n: nat): (r: Option<Fields>)
    requires cursor <= |data|
    ensures r.Some? ==> |r.value.values| == n && r.value.next <= |data|
    decreases n
  {
    if n == 0 then Some(Fields([], cursor))
    else
      var f := FieldAt(data, cursor);
      if f.None? then None
      else
        var rest := FieldsFrom(data, f.value.next, n - 1);
        if rest.None? then None else Some(Fields([f.value.value] + rest.value.values, rest.value.next))
  }

  function FieldsText(fs: seq<bytes>): bytes {
    if |fs| == 0 then [] else FieldText(fs[0]) + FieldsText(fs[1..])
  }

  predicate AllFit(fs: seq<bytes>) {
    forall i :: 0 <= i < |fs| ==> |fs[i]| <= MAX_FIELD
  }

  predicate ReadsFields(data: bytes, cursor: nat, fs: seq<bytes>)
    requires cursor <= |data|
  {
    var r := FieldsFrom(data, cursor, |fs|);
    r.Some? && r.value.values == fs
  }

  // The fields are read exactly when the data continues with their texts, and
  // then the cursor ends behind them.
  lemma {:induction false} FieldsIff(data: bytes, cursor: nat, fs: seq<bytes>)
    requires cursor <= |data|
    ensures ReadsFields(data, cursor, fs) <==> AllFit(fs) && Continues(data, cursor, FieldsText(fs))
    ensures ReadsFields(data, cursor, fs) ==> FieldsFrom(data, cursor, |fs|).value.next == cursor + |FieldsText(fs)|
    decreases |fs|
  {
    hide FieldAt, FieldsFrom, ReadsField, AllFit, FieldText, Continues, ReadsFields;
    if |fs| == 0 {
      NoFields(data, cursor, fs);
    } else {
      var f, rest := fs[0], fs[1..];
      FieldIff(data, cursor, f);
      ContinuesBoth(data, cursor, FieldText(f), FieldsText(rest));
      FirstFits(fs);
      FirstField(data, cursor, fs);
      if ReadsField(data, cursor, f) || Continues(data, cursor, FieldText(f)) {
        FieldEnd(data, cursor, f);
        FieldsIff(data, cursor + 4 + |f|, rest);
      }
    }
  }

  lemma NoFields(data: bytes, cursor: nat, fs: seq<bytes>)
    requires cursor <= |data| && |fs| == 0
    ensures ReadsFields(data, cursor, fs) && FieldsFrom(data, cursor, |fs|).value.next == cursor
    ensures AllFit(fs) && FieldsText(fs) == [] && Continues(data, cursor, [])
  {
  }

  lemma FirstFits(fs: seq<bytes>)
    requires |fs| > 0
    ensures AllFit(fs) <==> |fs[0]| <= MAX_FIELD && AllFit(fs[1..])
  {
    assert forall i :: 0 <= i < |fs[1..]| ==> fs[1..][i] == fs[i + 1];
  }

  lemma FieldEnd(data: bytes, cursor: nat, f: bytes)
    requires cursor <= |data| && (ReadsField(data, cursor, f) || Continues(data, cursor, FieldText(f)))
    ensures |FieldText(f)| == 4 + |f| && cursor + 4 + |f| <= |data|
  {
  }

  lemma FirstField(data: bytes, cursor: nat, fs: seq<bytes>)
    requires cursor <= |data| && |fs| > 0
    ensures var f, rest := fs[0], fs[1..];
            var next := cursor + 4 + |f|;
            && (ReadsFields(data, cursor, fs) <==> ReadsField(data, cursor, f) && next <= |data| && ReadsFields(data, next, rest))
            && (ReadsFields(data, cursor, fs) ==>
                  FieldsFrom(data, cursor, |fs|).value.next == FieldsFrom(data, next, |rest|).value.next)
  {
    hide FieldAt;
    var f, rest := fs[0], fs[1..];
    var r := FieldsFrom(data, cursor, |fs|);
    if r.Some? {
      var g := FieldAt(data, cursor).value;
      assert r.value.values[0] == g.value && r.value.values[1..] == FieldsFrom(data, g.next, |rest|).value.values;
      assert fs == [f] + rest;
    }
  }

  // ---- the holder record ----

  // identityExpiry is never in the payload: it is filled in when records are
  // merged.
  datatype Holder = Holder(
    version: nat, kyc: bytes, aml: bytes, investorClass: bytes, jurisdiction: bytes, expiry: nat, identityExpiry: nat,
    transferLocked: bool, receiveLocked: bool, auditorAuthorized: bool)

  function Bit(b: bool): byte {
    if b then 1 else 0
  }

  function SharedText(version: nat, fs: seq<bytes>, expiry: nat): bytes {
    Fixed(version, 8) + FieldsText(fs) + Fixed(expiry, 8)
  }

  function HolderFields(h: Holder): seq<bytes> {
    [h.kyc, h.aml, h.investorClass, h.jurisdiction]
  }

  function HolderText(h: Holder): bytes {
    SharedText(h.version, HolderFields(h), h.expiry) + [Bit(h.transferLocked), Bit(h.receiveLocked), Bit(h.auditorAuthorized)]
  }

  // What both record layouts start with.
  datatype Shared = Shared(version: nat, fields: seq<bytes>, expiry: nat, next: nat)

  function SharedOf(data: bytes): (r: Option<Shared>)
    ensures r.Some? ==> |r.value.fields| == 4 && r.value.next <= |data|
  {
    if |data| < 8 then None
    else
      var fs := FieldsFrom(data, 8, 4);
      if fs.None? || |data| - fs.value.next < 8 then None
      else
        var c := fs.value.next;
        Some(Shared(FromBytes(data[..8]), fs.value.values, FromBytes(data[c..c + 8]), c + 8))
  }

  predicate ReadsShared(data: bytes, version: nat, fs: seq<bytes>, expiry: nat) {
    var s := SharedOf(data);
    s.Some? && s.value.version == version && s.value.fields == fs && s.value.expiry == expiry
  }

  predicate SharedFits(version: nat, fs: seq<bytes>, expiry: nat) {
    version < TWO64 && expiry < TWO64 && AllFit(fs)
  }

  lemma SharedIff(data: bytes, version: nat, fs: seq<bytes>, expiry: nat)
    requires |fs| == 4
    ensures var text := SharedText(version, fs, expiry);
            ReadsShared(data, version, fs, expiry) <==> SharedFits(version, fs, expiry) && Continues(data, 0, text)
    ensures ReadsShared(data, version, fs, expiry) ==> SharedOf(data).value.next == |SharedText(version, fs, expiry)|
  {
    hide FieldsText, FieldsFrom, Fixed, FromBytes, AllFit, Continues;
    var a, b, c := Fixed(version, 8), FieldsText(fs), Fixed(expiry, 8);
    ContinuesBoth(data, 0, a + b, c);
    ContinuesBoth(data, 0, a, b);
    NumberIff(data, 0, version);
    NumberIff(data, 8 + |b|, expiry);
    if |data| >= 8 {
      assert data[0..8] == data[..8];
      FieldsIff(data, 8, fs);
    }
  }

  predicate ReadsNumber(data: bytes, cursor: nat, n: nat) {
    cursor + 8 <= |data| && FromBytes(data[cursor..cursor + 8]) == n
  }

  lemma NumberIff(data: bytes, cursor: nat, n: nat)
    ensures ReadsNumber(data, cursor, n) <==> n < TWO64 && Continues(data, cursor, Fixed(n, 8))
  {
    Widths();
    if n < TWO64 {
      FixedReads(n, 8);
    }
    if cursor + 8 <= |data| {
      FixedWrites(data[cursor..cursor + 8]);
    }
  }

  predicate Boolean(b: byte) {
    b == 0 || b == 1
  }

  function HolderOf(data: bytes): Option<Holder> {
    var s := SharedOf(data);
    if s.None? then None
    else
      var c, fs := s.value.next, s.value.fields;
      if |data| - c < 3 || !Boolean(data[c]) || !Boolean(data[c + 1]) || !Boolean(data[c + 2]) then None
      else Some(Holder(s.value.version, fs[0], fs[1], fs[2], fs[3], s.value.expiry, 0,
                       data[c] == 1, data[c + 1] == 1, data[c + 2] == 1))
  }

  predicate HolderFits(h: Holder) {
    SharedFits(h.version, HolderFields(h), h.expiry) && h.identityExpiry == 0
  }

  // The payloads that decode to a record are its layout followed by anything,
  // and nothing else.
  lemma HolderIff(data: bytes, h: Holder)
    ensures HolderOf(data) == Some(h) <==> HolderFits(h) && Continues(data, 0, HolderText(h))
  {
    hide SharedOf, SharedText, Continues, SharedFits;
    var fs := HolderFields(h);
    var text := SharedText(h.version, fs, h.expiry);
    var bits: bytes := [Bit(h.transferLocked), Bit(h.receiveLocked), Bit(h.auditorAuthorized)];
    SharedIff(data, h.version, fs, h.expiry);
    ContinuesBoth(data, 0, text, bits);
    BitsIff(data, |text|, h.transferLocked, h.receiveLocked, h.auditorAuthorized);
    if HolderOf(data) == Some(h) {
      FourFields(SharedOf(data).value.fields, h);
    }
  }

  lemma TextContinues(text: bytes, rest: bytes)
    ensures Continues(text + rest, 0, text)
  {
    assert (text + rest)[0..|text|] == text;
  }

  // A mirror's binary form starts with the highest byte of its version.
  lemma VersionLeads(h: Holder, rest: bytes)
    requires HolderFits(h)
    ensures |HolderText(h)| > 0
    ensures (HolderText(h) + rest)[0] == 0x7B <==> 0x7B00_0000_0000_0000 <= h.version < 0x7C00_0000_0000_0000
  {
    FirstOfFixed(h.version, 7);
    Widths();
    assert (HolderText(h) + rest)[0] == Fixed(h.version, 8)[0];
  }

  lemma FourFields(fs: seq<bytes>, h: Holder)
    requires |fs| == 4 && fs[0] == h.kyc && fs[1] == h.aml && fs[2] == h.investorClass && fs[3] == h.jurisdiction
    ensures fs == HolderFields(h)
  {
  }

  predicate ReadsBits(data: bytes, c: nat, t: bool, r: bool, a: bool) {
    c + 3 <= |data| && data[c] == Bit(t) && data[c + 1] == Bit(r) && data[c + 2] == Bit(a)
  }

  lemma BitsIff(data: bytes, c: nat, t: bool, r: bool, a: bool)
    ensures Continues(data, c, [Bit(t), Bit(r), Bit(a)]) <==> ReadsBits(data, c, t, r, a)
  {
    if c + 3 <= |data| {
      assert data[c..c + 3] == [data[c], data[c + 1], data[c + 2]];
    }
  }

  method DecodeHolderMirror(data: bytes) returns (r: Option<Holder>)
    ensures r == HolderOf(data)
  {
    if |data| < 8 {
      return None;
    }
    var version := FromBytes(data[..8]);
    var cursor := 8;
    var kyc := ReadField(data, cursor);
    FourReads(data, cursor);
    if kyc.None? {
      return None;
    }
    cursor := kyc.value.next;
    var aml := ReadField(data, cursor);
    if aml.None? {
      return None;
    }
    cursor := aml.value.next;
    var investorClass := ReadField(data, cursor);
    if investorClass.None? {
      return None;
    }
    cursor := investorClass.value.next;
    var jurisdiction := ReadField(data, cursor);
    if jurisdiction.None? {
      return None;
    }
    cursor := jurisdiction.value.next;
    if |data[cursor..]| < 11 {
      return None;
    }
    var expiry := FromBytes(data[cursor..cursor + 8]);
    var i := 8;
    while i < 11
      invariant 8 <= i <= 11
      invariant forall j :: cursor + 8 <= j < cursor + i ==> Boolean(data[j])
    {
      if data[cursor + i] != 0 && data[cursor + i] != 1 {
        return None;
      }
      i := i + 1;
    }
    assert Boolean(data[cursor + 8]) && Boolean(data[cursor + 9]) && Boolean(data[cursor + 10]);
    r := Some(Holder(version, kyc.value.value, aml.value.value, investorClass.value.value, jurisdiction.value.value, expiry, 0,
                     data[cursor + 8] == 1, data[cursor + 9] == 1, data[cursor + 10] == 1));
  }

  function Then(f: Field, rest: Option<Fields>): Option<Fields> {
    if rest.None? then None else Some(Fields([f.value] + rest.value.values, rest.value.next))
  }

  lemma OneMore(data: bytes, cursor: nat, n: nat)
    requires cursor <= |data|
    ensures FieldsFrom(data, cursor, 0) == Some(Fields([], cursor))
    ensures FieldsFrom(data, cursor, n + 1)
            == if FieldAt(data, cursor).None? then None
               else Then(FieldAt(data, cursor).value, FieldsFrom(data, FieldAt(data, cursor).value.next, n))
  {
    hide FieldAt;
  }

  // Four reads, one after the other.
  lemma FourReads(data: bytes, cursor: nat)
    requires cursor <= |data|
    ensures var r, a := FieldsFrom(data, cursor, 4), FieldAt(data, cursor);
            if a.None? then r.None? else
              var b := FieldAt(data, a.value.next);
              if b.None? then r.None? else
                var c := FieldAt(data, b.value.next);
                if c.None? then r.None? else
                  var d := FieldAt(data, c.value.next);
                  if d.None? then r.None? else
                    r == Some(Fields([a.value.value, b.value.value, c.value.value, d.value.value], d.value.next))
  {
    hide FieldAt, FieldsFrom;
    OneMore(data, cursor, 3);
    var a := FieldAt(data, cursor);
    if a.Some? {
      OneMore(data, a.value.next, 2);
      var b := FieldAt(data, a.value.next);
      if b.Some? {
        OneMore(data, b.value.next, 1);
        var c := FieldAt(data, b.value.next);
        if c.Some? {
          OneMore(data, c.value.next, 0);
          var d := FieldAt(data, c.value.next);
          if d.Some? {
            OneMore(data, d.value.next, 0);
            var v, w, x, y := a.value.value, b.value.value, c.value.value, d.value.value;
            assert [v] + ([w] + ([x] + ([y] + []))) == [v, w, x, y];
          }
        }
      }
    }
  }

  // ---- the profile and the other records ----

  datatype Profile = Profile(version: nat, kyc: bytes, aml: bytes, investorClass: bytes, jurisdiction: bytes, expiry: nat)

  function ProfileOf(data: bytes): Option<Profile> {
    var s := SharedOf(data);
    if s.None? then None
    else
      var fs := s.value.fields;
      Some(Profile(s.value.version, fs[0], fs[1], fs[2], fs[3], s.value.expiry))
  }

  function ProfileFields(p: Profile): seq<bytes> {
    [p.kyc, p.aml, p.investorClass, p.jurisdiction]
  }

  function ProfileText(p: Profile): bytes {
    SharedText(p.version, ProfileFields(p), p.expiry)
  }

  predicate ProfileFits(p: Profile) {
    SharedFits(p.version, ProfileFields(p), p.expiry)
  }

  lemma ProfileIff(data: bytes, p: Profile)
    ensures ProfileOf(data) == Some(p) <==> ProfileFits(p) && Continues(data, 0, ProfileText(p))
  {
    hide SharedOf, SharedText, Continues, SharedFits;
    SharedIff(data, p.version, ProfileFields(p), p.expiry);
    if ProfileOf(data) == Some(p) {
      var fs := SharedOf(data).value.fields;
      assert fs == ProfileFields(p);
    }
  }

  // classes and jurisdictions are only in the JSON form.
  datatype Policy = Policy(
    enabled: bool, globalPause: bool, strictAuditor: bool, metadataProtection: bool,
    classes: map<bytes, bool>, jurisdictions: map<bytes, bool>)

  function PolicyOf(data: bytes): Option<Policy> {
    if |data| < 12 || (exists i :: 4 <= i < 12 && data[i] != 0) then None
    else Some(Policy(data[0] == 1, data[1] == 1, data[2] == 1, data[3] == 1, map[], map[]))
  }

  // The layout of a policy: four flags, one where set, and eight zeros.
  function PolicyText(p: Policy): bytes {
    [Bit(p.enabled), Bit(p.globalPause), Bit(p.strictAuditor), Bit(p.metadataProtection)] + [0, 0, 0, 0, 0, 0, 0, 0]
  }

  // A payload is a policy exactly when it begins with twelve bytes of which
  // the last eight are zero; each of the first four is its flag, set by one
  // and no other value.
  predicate ReadsPolicy(data: bytes, p: Policy) {
    && 12 <= |data| && data[4..12] == [0, 0, 0, 0, 0, 0, 0, 0]
    && (p.enabled <==> data[0] == 1) && (p.globalPause <==> data[1] == 1)
    && (p.strictAuditor <==> data[2] == 1) && (p.metadataProtection <==> data[3] == 1)
    && p.classes == map[] && p.jurisdictions == map[]
  }

  lemma PolicyIff(data: bytes, p: Policy)
    ensures PolicyOf(data) == Some(p) <==> ReadsPolicy(data, p)
  {
    if |data| >= 12 {
      assert forall i :: 4 <= i < 12 ==> data[i] == data[4..12][i - 4];
    }
  }

  // What is written is read, whatever follows.
  lemma PolicyRoundTrip(p: Policy, rest: bytes)
    requires p.classes == map[] && p.jurisdictions == map[]
    ensures PolicyOf(PolicyText(p) + rest) == Some(p)
  {
    var data := PolicyText(p) + rest;
    assert data[4..12] == [0, 0, 0, 0, 0, 0, 0, 0];
    PolicyIff(data, p);
  }

  method DecodeTokenPolicy(data: bytes) returns (r: Option<Policy>)
    ensures r.Some? ==> ReadsPolicy(data, r.value)
    ensures r.Some? <==> exists p :: ReadsPolicy(data, p)
    ensures r == PolicyOf(data)
  {
    DecodedPolicy(data);
    if |data| < 12 {
      return None;
    }
    var i := 4;
    while i < 12 && i < |data|
      invariant 4 <= i <= 12
      invariant forall j :: 4 <= j < i ==> data[j] == 0
    {
      if data[i] != 0 {
        return None;
      }
      i := i + 1;
    }
    r := Some(Policy(data[0] == 1, data[1] == 1, data[2] == 1, data[3] == 1, map[], map[]));
  }

  lemma DecodedPolicy(data: bytes)
    ensures PolicyOf(data).Some? <==> exists p :: ReadsPolicy(data, p)
    ensures PolicyOf(data).Some? ==> ReadsPolicy(data, PolicyOf(data).value)
  {
    hide PolicyOf, ReadsPolicy;
    if PolicyOf(data).Some? {
      PolicyIff(data, PolicyOf(data).value);
    }
    if exists p :: ReadsPolicy(data, p) {
      var p :| ReadsPolicy(data, p);
      PolicyIff(data, p);
    }
  }

  function AuditorOf(data: bytes): Option<bool> {
    if |data| < 9 || !Boolean(data[8]) then None else Some(data[8] == 1)
  }

  // An auditor's word is the ninth byte, zero or one, after eight of any kind.
  lemma AuditorIff(data: bytes, authorized: bool)
    ensures AuditorOf(data) == Some(authorized)
            <==> exists reserved: bytes, rest: bytes :: |reserved| == 8 && data == reserved + [Bit(authorized)] + rest
  {
    if AuditorOf(data) == Some(authorized) {
      assert |data[..8]| == 8 && data == data[..8] + [Bit(authorized)] + data[9..];
    }
  }
}
