// The compliance gate of regulated tokens: what a transfer list is checked
// against, and why moving tokens cannot change what is read later.
module DrwaGate {
  import opened Bytes
  import opened Tokens
  import opened DrwaRecords
  import CallData
  import Keys

  datatype Denial =
    | Paused | KycRequired | AmlBlocked | Expired | Locked | InvestorClass | Jurisdiction | AuditorRequired

  datatype GateError = Unreadable | Denied(reason: Denial)

  datatype Result<+T> = Ok(value: T) | Fail(error: GateError) {
    predicate IsFailure() {
      Fail?
    }

    function PropagateFailure<U>(): Result<U>
      requires Fail?
    {
      Fail(error)
    }

    function Extract(): T
      requires Ok?
    {
      value
    }
  }

  // ---- the conditions ----

  // strings.EqualFold against a lower-case word none of whose letters has a
  // fold outside ASCII
  predicate EqualFold(s: bytes, word: bytes) {
    |s| == |word| && forall i :: 0 <= i < |s| ==> s[i] == word[i] || (0x41 <= s[i] <= 0x5A && s[i] + 32 == word[i])
  }

  const APPROVED: bytes := [0x61, 0x70, 0x70, 0x72, 0x6F, 0x76, 0x65, 0x64]
  const CLEAR: bytes := [0x63, 0x6C, 0x65, 0x61, 0x72]

  predicate Admits(allowed: map<bytes, bool>, value: bytes) {
    |allowed| > 0 ==> value in allowed && allowed[value]
  }

  predicate ExpiredAt(h: Holder, now: nat) {
    || (now == 0 && (h.identityExpiry > 0 || h.expiry > 0))
    || (h.identityExpiry > 0 && now > h.identityExpiry)
    || (h.expiry > 0 && now > h.expiry)
  }

  // Both sides are held to the same conditions but for the lock.
  function Decide(policy: Option<Policy>, holder: Option<Holder>, now: nat, sending: bool): Option<Denial> {
    if policy.None? || !policy.value.enabled then None
    else
      var p := policy.value;
      if p.globalPause then Some(Paused)
      else if holder.None? || !EqualFold(holder.value.kyc, APPROVED) then Some(KycRequired)
      else
        var h := holder.value;
        if !EqualFold(h.aml, CLEAR) && !EqualFold(h.aml, APPROVED) then Some(AmlBlocked)
        else if ExpiredAt(h, now) then Some(Expired)
        else if (if sending then h.transferLocked else h.receiveLocked) then Some(Locked)
        else if !Admits(p.classes, h.investorClass) then Some(InvestorClass)
        else if !Admits(p.jurisdictions, h.jurisdiction) then Some(Jurisdiction)
        else if p.strictAuditor && !h.auditorAuthorized then Some(AuditorRequired)
        else None
  }

  function Lowered(s: bytes): (r: bytes)
    ensures |r| == |s|
    ensures forall i :: 0 <= i < |s| ==> r[i] == if 0x41 <= s[i] <= 0x5A then s[i] + 32 else s[i]
  {
    if |s| == 0 then [] else [if 0x41 <= s[0] <= 0x5A then s[0] + 32 else s[0]] + Lowered(s[1..])
  }

  // Equal but for the case of letters.
  lemma FoldIff(s: bytes, word: bytes)
    requires forall i :: 0 <= i < |word| ==> 0x61 <= word[i] <= 0x7A
    ensures EqualFold(s, word) <==> Lowered(s) == word
  {
    if EqualFold(s, word) {
      assert forall i :: 0 <= i < |s| ==> Lowered(s)[i] == word[i];
    } else if |s| == |word| {
      var i :| 0 <= i < |s| && !(s[i] == word[i] || (0x41 <= s[i] <= 0x5A && s[i] + 32 == word[i]));
      assert Lowered(s)[i] != word[i];
    }
  }

  // What must be so of a holder for a regulated token to move.
  predicate Meets(p: Policy, h: Holder, now: nat, sending: bool) {
    && !p.globalPause
    && Lowered(h.kyc) == APPROVED && (Lowered(h.aml) == CLEAR || Lowered(h.aml) == APPROVED)
    && (h.identityExpiry > 0 ==> 0 < now <= h.identityExpiry) && (h.expiry > 0 ==> 0 < now <= h.expiry)
    && (sending ==> !h.transferLocked) && (!sending ==> !h.receiveLocked)
    && (|p.classes| > 0 ==> h.investorClass in p.classes && p.classes[h.investorClass])
    && (|p.jurisdictions| > 0 ==> h.jurisdiction in p.jurisdictions && p.jurisdictions[h.jurisdiction])
    && (p.strictAuditor ==> h.auditorAuthorized)
  }

  // A denial names a condition that is not met.
  predicate Unmet(p: Policy, holder: Option<Holder>, now: nat, sending: bool, reason: Denial) {
    match reason
    case Paused => p.globalPause
    case KycRequired => holder.None? || Lowered(holder.value.kyc) != APPROVED
    case AmlBlocked => holder.Some? && Lowered(holder.value.aml) != CLEAR && Lowered(holder.value.aml) != APPROVED
    case Expired =>
      holder.Some? && ((holder.value.identityExpiry > 0 && !(0 < now <= holder.value.identityExpiry))
                       || (holder.value.expiry > 0 && !(0 < now <= holder.value.expiry)))
    case Locked => holder.Some? && if sending then holder.value.transferLocked else holder.value.receiveLocked
    case InvestorClass =>
      holder.Some? && |p.classes| > 0 && (holder.value.investorClass in p.classes ==> !p.classes[holder.value.investorClass])
    case Jurisdiction =>
      holder.Some? && |p.jurisdictions| > 0
      && (holder.value.jurisdiction in p.jurisdictions ==> !p.jurisdictions[holder.value.jurisdiction])
    case AuditorRequired => holder.Some? && p.strictAuditor && !holder.value.auditorAuthorized
  }

  lemma DenialNames(p: Policy, holder: Option<Holder>, now: nat, sending: bool)
    requires p.enabled
    ensures var r := Decide(Some(p), holder, now, sending);
            && (r.None? <==> holder.Some? && Meets(p, holder.value, now, sending))
            && (r.Some? ==> Unmet(p, holder, now, sending, r.value))
  {
    hide EqualFold, Lowered;
    if holder.Some? {
      FoldIff(holder.value.kyc, APPROVED);
      FoldIff(holder.value.aml, APPROVED);
      FoldIff(holder.value.aml, CLEAR);
    }
  }

  // ---- storage ----

  type Store = map<Address, map<bytes, bytes>>

  function ValueAt(s: Store, a: Address, key: bytes): bytes {
    if a in s && key in s[a] then s[a][key] else []
  }

  function Ascii(s: string): (b: bytes)
    ensures |b| == |s|
    ensures |s| > 0 && s[0] < 128 as char ==> b[0] == s[0] as int
  {
    if |s| == 0 then [] else [if s[0] < 256 as char then s[0] as int else 0] + Ascii(s[1..])
  }

  function PolicyKey(token: bytes): bytes {
    Ascii("drwa:token:" + CallData.HexEncode(token) + ":policy")
  }

  function HolderKey(token: bytes, a: Address): bytes {
    Ascii("drwa:holder:" + CallData.HexEncode(token) + ":" + CallData.HexEncode(a))
  }

  function ProfileKey(a: Address): bytes {
    Ascii("drwa:profile:" + CallData.HexEncode(a))
  }

  function AuditorKey(token: bytes, a: Address): bytes {
    Ascii("drwa:auditor:" + CallData.HexEncode(token) + ":" + CallData.HexEncode(a))
  }

  lemma {:induction false} AsciiInjective(x: string, y: string)
    requires (forall i :: 0 <= i < |x| ==> x[i] < 256 as char) && (forall i :: 0 <= i < |y| ==> y[i] < 256 as char)
    ensures Ascii(x) == Ascii(y) <==> x == y
  {
    if Ascii(x) == Ascii(y) && |x| > 0 {
      assert Ascii(x)[0] == Ascii(y)[0] && Ascii(x)[1..] == Ascii(x[1..]) && Ascii(y)[1..] == Ascii(y[1..]);
      AsciiInjective(x[1..], y[1..]);
      assert x == [x[0]] + x[1..] && y == [y[0]] + y[1..];
    }
  }

  lemma {:induction false} HexIsAscii(b: bytes)
    ensures forall i :: 0 <= i < |CallData.HexEncode(b)| ==> CallData.HexEncode(b)[i] < 256 as char
  {
    if b != [] {
      HexIsAscii(b[1..]);
    }
  }

  // A policy is one token's: no other argument of a call finds it.
  lemma {:induction false} PolicyKeyInjective(t: bytes, u: bytes)
    ensures PolicyKey(t) == PolicyKey(u) <==> t == u
  {
    var x, y := CallData.HexEncode(t), CallData.HexEncode(u);
    var p, q := "drwa:token:", ":policy";
    HexIsAscii(t);
    HexIsAscii(u);
    AsciiInjective(p + x + q, p + y + q);
    if p + x + q == p + y + q {
      assert x == (p + x + q)[|p|..|p| + |x|] && y == (p + y + q)[|p|..|p| + |y|];
      CallData.HexRoundTrip(t);
      CallData.HexRoundTrip(u);
    }
  }

  lemma {:induction false} HexHasNoColon(b: bytes)
    ensures ':' !in CallData.HexEncode(b)
  {
    if b != [] {
      HexHasNoColon(b[1..]);
    }
  }

  // A text of two words with a colon between has one reading.
  lemma {:induction false} TwoWords(p: string, x: string, v: string, y: string, w: string)
    requires ':' !in x && ':' !in y && p + x + ":" + v == p + y + ":" + w
    ensures x == y && v == w
  {
    var s, z := p + x + ":" + v, p + y + ":" + w;
    ColonAt(p, x, v);
    ColonAt(p, y, w);
    assert |x| == |y|;
    assert s[|p|..|p| + |x|] == x && z[|p|..|p| + |y|] == y;
    assert s[|p| + |x| + 1..] == v && z[|p| + |y| + 1..] == w;
  }

  lemma {:induction false} ColonAt(p: string, x: string, v: string)
    requires ':' !in x
    ensures var s := p + x + ":" + v;
            s[|p| + |x|] == ':' && forall i :: |p| <= i < |p| + |x| ==> s[i] != ':'
  {
    var s := p + x + ":" + v;
    assert forall i :: |p| <= i < |p| + |x| ==> s[i] == x[i - |p|];
  }

  lemma {:induction false} SameHex(a: bytes, b: bytes)
    ensures CallData.HexEncode(a) == CallData.HexEncode(b) <==> a == b
  {
    hide CallData.HexEncode;
    CallData.HexRoundTrip(a);
    CallData.HexRoundTrip(b);
  }

  lemma {:induction false} PairKey(p: string, t: bytes, a: bytes, u: bytes, b: bytes)
    requires forall i :: 0 <= i < |p| ==> p[i] < 256 as char
    ensures (Ascii(p + CallData.HexEncode(t) + ":" + CallData.HexEncode(a))
             == Ascii(p + CallData.HexEncode(u) + ":" + CallData.HexEncode(b))) <==> t == u && a == b
  {
    hide CallData.HexEncode, Ascii;
    var x, y, v, w := CallData.HexEncode(t), CallData.HexEncode(u), CallData.HexEncode(a), CallData.HexEncode(b);
    HexIsAscii(t);
    HexIsAscii(u);
    HexIsAscii(a);
    HexIsAscii(b);
    HexHasNoColon(t);
    HexHasNoColon(u);
    AsciiInjective(p + x + ":" + v, p + y + ":" + w);
    if p + x + ":" + v == p + y + ":" + w {
      TwoWords(p, x, v, y, w);
      SameHex(t, u);
      SameHex(a, b);
    }
  }

  // Each holder's records for each token have keys of their own.
  lemma {:induction false} HolderKeysInjective(t: bytes, a: Address, u: bytes, b: Address)
    ensures HolderKey(t, a) == HolderKey(u, b) <==> t == u && a == b
    ensures AuditorKey(t, a) == AuditorKey(u, b) <==> t == u && a == b
  {
    hide CallData.HexEncode, Ascii;
    PairKey("drwa:holder:", t, a, u, b);
    PairKey("drwa:auditor:", t, a, u, b);
  }

  lemma {:induction false} ProfileKeyInjective(a: Address, b: Address)
    ensures ProfileKey(a) == ProfileKey(b) <==> a == b
  {
    hide CallData.HexEncode, Ascii;
    var p, v, w := "drwa:profile:", CallData.HexEncode(a), CallData.HexEncode(b);
    HexIsAscii(a);
    HexIsAscii(b);
    AsciiInjective(p + v, p + w);
    if p + v == p + w {
      assert (p + v)[|p|..] == v && (p + w)[|p|..] == w;
      SameHex(a, b);
    }
  }

  // The four kinds of record never share a key: the sixth, seventh or eighth
  // letters differ.
  lemma {:induction false} KindsApart(t: bytes, a: Address, u: bytes, b: Address)
    ensures PolicyKey(t) != HolderKey(u, b) && PolicyKey(t) != ProfileKey(b) && PolicyKey(t) != AuditorKey(u, b)
    ensures HolderKey(t, a) != ProfileKey(b) && HolderKey(t, a) != AuditorKey(u, b) && ProfileKey(a) != AuditorKey(u, b)
  {
    AsciiAt("drwa:token:" + CallData.HexEncode(t) + ":policy", 5);
    AsciiAt("drwa:holder:" + CallData.HexEncode(t) + ":" + CallData.HexEncode(a), 5);
    AsciiAt("drwa:holder:" + CallData.HexEncode(u) + ":" + CallData.HexEncode(b), 5);
    AsciiAt("drwa:profile:" + CallData.HexEncode(a), 5);
    AsciiAt("drwa:profile:" + CallData.HexEncode(b), 5);
    AsciiAt("drwa:auditor:" + CallData.HexEncode(u) + ":" + CallData.HexEncode(b), 5);
  }

  lemma {:induction false} AsciiAt(s: string, i: nat)
    requires i < |s|
    ensures Ascii(s)[i] == if s[i] < 256 as char then s[i] as int else 0
  {
    if i > 0 {
      AsciiAt(s[1..], i - 1);
    }
  }

  // 'd', the first byte of every compliance key
  const FAMILY: byte := 0x64

  lemma ComplianceKeys(token: bytes, a: Address)
    ensures forall k :: k in {PolicyKey(token), HolderKey(token, a), ProfileKey(a), AuditorKey(token, a)} ==>
              |k| > 0 && k[0] == FAMILY
  {
    assert 'd' as int == FAMILY;
  }

  // ---- records: JSON is outside the model, the binary bodies are not ----

  datatype Stored = Stored(version: nat, body: bytes)

  datatype Decoders = Decoders(
    unwrap: bytes -> Option<Stored>, policy: bytes -> Option<Policy>, holder: bytes -> Option<Holder>,
    profile: bytes -> Option<Profile>, auditor: bytes -> Option<bool>)

  const BRACE: byte := 0x7B

  // None for no record, an error for one that cannot be read.
  function Decoded<T>(d: Decoders, data: bytes, json: bytes -> Option<T>,
                      binary: bytes -> Option<T>): Result<Option<(nat, T)>> {
    if |data| == 0 then Ok(None)
    else
      var stored := d.unwrap(data);
      if stored.None? || |stored.value.body| == 0 then Fail(Unreadable)
      else
        var t := if stored.value.body[0] == BRACE then json(stored.value.body) else binary(stored.value.body);
        if t.None? then Fail(Unreadable) else Ok(Some((stored.value.version, t.value)))
  }

  // A record is read exactly from a wrapper with a body: as JSON if the body
  // starts with a brace, as the binary layout if not. What is stored and
  // cannot be read is an error, never an absent record.
  lemma DecodedIff<T>(d: Decoders, data: bytes, json: bytes -> Option<T>, binary: bytes -> Option<T>, v: nat, t: T)
    ensures Decoded(d, data, json, binary) == Ok(Some((v, t))) <==>
              && |data| > 0
              && exists body: bytes ::
                   && d.unwrap(data) == Some(Stored(v, body)) && |body| > 0
                   && (if body[0] == 0x7B then json(body) else binary(body)) == Some(t)
    ensures Decoded(d, data, json, binary) == Ok(None) <==> |data| == 0
  {
    if |data| > 0 && d.unwrap(data).Some? {
      assert d.unwrap(data) == Some(Stored(d.unwrap(data).value.version, d.unwrap(data).value.body));
    }
  }

  function PolicyFor(d: Decoders, s: Store, system: Address, token: bytes): Result<Option<Policy>> {
    var r :- Decoded(d, ValueAt(s, system, PolicyKey(token)), d.policy, b => PolicyOf(b));
    Ok(if r.None? then None else Some(r.value.1))
  }

  // A binary policy is always read back: its first byte is a flag, not a brace.
  lemma StoredPolicyReads(d: Decoders, s: Store, system: Address, token: bytes, p: Policy, v: nat, rest: bytes)
    requires var data := ValueAt(s, system, PolicyKey(token));
             |data| > 0 && d.unwrap(data) == Some(Stored(v, PolicyText(p) + rest))
    requires p.classes == map[] && p.jurisdictions == map[]
    ensures PolicyFor(d, s, system, token) == Ok(Some(p))
  {
    PolicyRoundTrip(p, rest);
  }

  // A binary mirror is read back, under the version of its wrapper, exactly
  // when its own version does not begin with a brace's byte or the JSON reader
  // agrees.
  lemma StoredHolderReadsIff(d: Decoders, data: bytes, h: Holder, v: nat, rest: bytes)
    requires |data| > 0 && HolderFits(h) && d.unwrap(data) == Some(Stored(v, HolderText(h) + rest))
    ensures Decoded(d, data, d.holder, b => HolderOf(b)) == Ok(Some((v, h)))
            <==> h.version < 0x7B00_0000_0000_0000 || 0x7C00_0000_0000_0000 <= h.version
                 || d.holder(HolderText(h) + rest) == Some(h)
  {
    hide HolderOf, HolderFits, HolderText, Continues;
    var body := HolderText(h) + rest;
    HolderIff(body, h);
    TextContinues(HolderText(h), rest);
    VersionLeads(h, rest);
  }

  const BLANK := Holder(0, [], [], [], [], 0, 0, false, false, false)

  function FromMirror(holder: Option<Holder>): Holder {
    if holder.None? then BLANK else holder.value.(version := 0, identityExpiry := 0)
  }

  // A profile overrides the shared fields only when it is newer than the
  // mirror.
  function WithProfile(base: Holder, holder: Option<Holder>, p: Profile): Holder {
    var shared :=
      if holder.None? || p.version > holder.value.version
      then base.(kyc := p.kyc, aml := p.aml, investorClass := p.investorClass, jurisdiction := p.jurisdiction) else base;
    shared.(identityExpiry := p.expiry, expiry := if base.expiry == 0 then p.expiry else base.expiry)
  }

  // The mirror, the profile and the auditor's word on one holder.
  function MergedHolder(holder: Option<Holder>, profile: Option<Profile>, auditor: Option<bool>): Option<Holder> {
    if holder.None? && profile.None? && auditor.None? then None
    else
      var base := FromMirror(holder);
      var merged := if profile.None? then base else WithProfile(base, holder, profile.value);
      Some(if auditor.None? then merged else merged.(auditorAuthorized := auditor.value))
  }

  function HolderFor(d: Decoders, s: Store, token: bytes, a: Address): Result<Option<Holder>> {
    var h :- Decoded(d, ValueAt(s, a, HolderKey(token, a)), d.holder, b => HolderOf(b));
    var p :- Decoded(d, ValueAt(s, a, ProfileKey(a)), d.profile, b => ProfileOf(b));
    var r :- Decoded(d, ValueAt(s, a, AuditorKey(token, a)), d.auditor, b => AuditorOf(b));
    Ok(MergedHolder(if h.None? then None else Some(h.value.1.(version := h.value.0)),
                    if p.None? then None else Some(p.value.1.(version := p.value.0)),
                    if r.None? then None else Some(r.value.1)))
  }

  // The record merged of the three: a profile newer than the mirror, or alone,
  // gives the shared fields; the locks are the mirror's; the identity expires
  // with the profile, and the rest with the mirror or, where it has no expiry,
  // with the profile; an auditor's word decides.
  predicate IsMerge(holder: Option<Holder>, profile: Option<Profile>, auditor: Option<bool>, m: Holder) {
    var none := Holder(0, [], [], [], [], 0, 0, false, false, false);
    var h := if holder.Some? then holder.value else none;
    && (if profile.Some? && (holder.None? || holder.value.version < profile.value.version)
        then && m.kyc == profile.value.kyc && m.aml == profile.value.aml
             && m.investorClass == profile.value.investorClass && m.jurisdiction == profile.value.jurisdiction
        else m.kyc == h.kyc && m.aml == h.aml && m.investorClass == h.investorClass && m.jurisdiction == h.jurisdiction)
    && m.transferLocked == h.transferLocked && m.receiveLocked == h.receiveLocked
    && m.identityExpiry == (if profile.Some? then profile.value.expiry else 0)
    && m.expiry == (if h.expiry == 0 && profile.Some? then profile.value.expiry else h.expiry)
    && m.auditorAuthorized == (if auditor.Some? then auditor.value else h.auditorAuthorized)
  }

  lemma MergeFields(holder: Option<Holder>, profile: Option<Profile>, auditor: Option<bool>)
    ensures var m := MergedHolder(holder, profile, auditor);
            && (m.None? <==> holder.None? && profile.None? && auditor.None?)
            && (m.Some? ==> IsMerge(holder, profile, auditor, m.value))
  {
  }

  // An expired or stale profile cannot weaken a mirror at least as new: every
  // compliance field but the identity expiry stays the mirror's.
  lemma MirrorPrevails(h: Holder, profile: Option<Profile>)
    requires profile.Some? ==> profile.value.version <= h.version
    ensures var m := MergedHolder(Some(h), profile, None).value;
            && m.kyc == h.kyc && m.aml == h.aml && m.investorClass == h.investorClass && m.jurisdiction == h.jurisdiction
            && m.transferLocked == h.transferLocked && m.receiveLocked == h.receiveLocked
            && m.auditorAuthorized == h.auditorAuthorized && (h.expiry > 0 ==> m.expiry == h.expiry)
            && (profile.Some? ==> m.identityExpiry == profile.value.expiry)
  {
  }

  // GetHolderMirror's field-by-field filling of the merged record.
  class MergedRecord {
    var view: Holder

    constructor ()
      ensures view == BLANK
    {
      view := BLANK;
    }

    method FillFromMirror(h: Holder)
      requires view == BLANK
      modifies this
      ensures view == FromMirror(Some(h))
    {
      if |h.kyc| > 0 {
        view := view.(kyc := h.kyc);
      }
      if |h.aml| > 0 {
        view := view.(aml := h.aml);
      }
      if |h.investorClass| > 0 {
        view := view.(investorClass := h.investorClass);
      }
      if |h.jurisdiction| > 0 {
        view := view.(jurisdiction := h.jurisdiction);
      }
      assert view.kyc == h.kyc && view.aml == h.aml && view.investorClass == h.investorClass && view.jurisdiction == h.jurisdiction;
      if h.expiry != 0 {
        view := view.(expiry := h.expiry);
      }
      view := view.(transferLocked := h.transferLocked, receiveLocked := h.receiveLocked, auditorAuthorized := h.auditorAuthorized);
    }

    method FillFromProfile(holder: Option<Holder>, p: Profile)
      requires view == FromMirror(holder)
      modifies this
      ensures view == WithProfile(old(view), holder, p)
    {
      var profileWins := holder.None? || p.version > holder.value.version;
      if profileWins {
        view := view.(kyc := p.kyc, aml := p.aml, investorClass := p.investorClass, jurisdiction := p.jurisdiction);
      }
      if profileWins || view.identityExpiry == 0 {
        view := view.(identityExpiry := p.expiry);
      }
      if view.expiry == 0 {
        view := view.(expiry := p.expiry);
      }
    }

    method Fill(holder: Option<Holder>, profile: Option<Profile>, auditor: Option<bool>) returns (found: bool)
      requires view == BLANK
      modifies this
      ensures found <==> holder.Some? || profile.Some? || auditor.Some?
      ensures found ==> IsMerge(holder, profile, auditor, view)
      ensures found ==> MergedHolder(holder, profile, auditor) == Some(view)
    {
      MergeFields(holder, profile, auditor);
      if holder.None? && profile.None? && auditor.None? {
        return false;
      }
      if holder.Some? {
        FillFromMirror(holder.value);
      }
      if profile.Some? {
        FillFromProfile(holder, profile.value);
      }
      if auditor.Some? {
        view := view.(auditorAuthorized := auditor.value);
      }
      found := true;
    }
  }

  // ---- one check ----

  predicate Regulated(policy: Option<Policy>) {
    policy.Some? && policy.value.enabled
  }

  function Evaluate(d: Decoders, s: Store, system: Address, token: bytes, a: Address, now: nat,
                    sending: bool): Result<bool> {
    var policy :- PolicyFor(d, s, system, token);
    if !Regulated(policy) then Ok(false)
    else
      var holder :- HolderFor(d, s, token, a);
      var denial := Decide(policy, holder, now, sending);
      if denial.Some? then Fail(Denied(denial.value)) else Ok(true)
  }

  // The token is not regulated, or the holder has a record that meets every
  // condition.
  predicate Cleared(d: Decoders, s: Store, system: Address, token: bytes, a: Address, now: nat, sending: bool) {
    var policy := PolicyFor(d, s, system, token);
    && policy.Ok?
    && (Regulated(policy.value) ==>
          var holder := HolderFor(d, s, token, a);
          holder.Ok? && holder.value.Some? && Meets(policy.value.value, holder.value.value, now, sending))
  }

  predicate BothClear(d: Decoders, s: Store, system: Address, token: bytes, sender: Address, receiver: Address,
                      receiverHere: bool, now: nat)
  {
    Cleared(d, s, system, token, sender, now, true) && (receiverHere ==> Cleared(d, s, system, token, receiver, now, false))
  }

  lemma EvaluateIff(d: Decoders, s: Store, system: Address, token: bytes, a: Address, now: nat, sending: bool)
    ensures Evaluate(d, s, system, token, a, now, sending).Ok? <==> Cleared(d, s, system, token, a, now, sending)
  {
    hide HolderFor, PolicyFor, Decide, Meets, Unmet;
    var policy, holder := PolicyFor(d, s, system, token), HolderFor(d, s, token, a);
    if policy.Ok? && Regulated(policy.value) && holder.Ok? {
      DenialNames(policy.value.value, holder.value, now, sending);
    }
  }

  // A newer profile that does not approve denies the transfer of a regulated
  // token, whatever the mirror says.
  lemma RevokedIsDenied(d: Decoders, s: Store, system: Address, token: bytes, a: Address, now: nat, sending: bool)
    requires var policy := PolicyFor(d, s, system, token); policy.Ok? && Regulated(policy.value)
    requires var p := Decoded(d, ValueAt(s, a, ProfileKey(a)), d.profile, b => ProfileOf(b));
             var h := Decoded(d, ValueAt(s, a, HolderKey(token, a)), d.holder, b => HolderOf(b));
             && p.Ok? && p.value.Some? && Lowered(p.value.value.1.kyc) != APPROVED
             && (h.Ok? && h.value.Some? ==> h.value.value.0 < p.value.value.0)
    ensures Evaluate(d, s, system, token, a, now, sending).Fail?
    ensures !Cleared(d, s, system, token, a, now, sending)
  {
    hide Decoded, PolicyFor, HolderKey, ProfileKey, AuditorKey, Lowered, Decide, MergedHolder;
    var h := Decoded(d, ValueAt(s, a, HolderKey(token, a)), d.holder, b => HolderOf(b));
    var p := Decoded(d, ValueAt(s, a, ProfileKey(a)), d.profile, b => ProfileOf(b));
    var r := Decoded(d, ValueAt(s, a, AuditorKey(token, a)), d.auditor, b => AuditorOf(b));
    if h.Ok? && r.Ok? {
      MergeFields(if h.value.None? then None else Some(h.value.value.1.(version := h.value.value.0)),
                  Some(p.value.value.1.(version := p.value.value.0)),
                  if r.value.None? then None else Some(r.value.value.1));
    }
    EvaluateIff(d, s, system, token, a, now, sending);
  }

  // What cannot be read is never taken for no regulation or no record: the
  // check fails.
  lemma UnreadableIsRefused(d: Decoders, s: Store, system: Address, token: bytes, a: Address, now: nat, sending: bool)
    requires var policy := ValueAt(s, system, PolicyKey(token));
             var holder := ValueAt(s, a, HolderKey(token, a));
             || (|policy| > 0 && d.unwrap(policy).None?)
             || (|holder| > 0 && d.unwrap(holder).None?
                 && PolicyFor(d, s, system, token).Ok? && Regulated(PolicyFor(d, s, system, token).value))
    ensures Evaluate(d, s, system, token, a, now, sending) == Fail(Unreadable)
  {
    hide PolicyKey, HolderKey, Decide, MergedHolder;
  }

  // ---- moving tokens ----

  // A token move writes records under their storage keys only; nothing is
  // written to remove a record.
  datatype Write = Write(account: Address, id: bytes, value: bytes)

  function Apply(s: Store, w: Write): Store {
    var entries := if w.account in s then s[w.account] else map[];
    s[w.account := entries[Keys.StorageKey(w.id) := w.value]]
  }

  function ApplyAll(s: Store, ws: seq<Write>): Store {
    if |ws| == 0 then s else Apply(ApplyAll(s, ws[..|ws| - 1]), ws[|ws| - 1])
  }

  ghost predicate SameFamily(s: Store, t: Store) {
    forall a: Address, key: bytes :: |key| > 0 && key[0] == FAMILY ==> ValueAt(t, a, key) == ValueAt(s, a, key)
  }

  lemma ApplyReads(s: Store, w: Write, a: Address, key: bytes)
    ensures ValueAt(Apply(s, w), a, key)
            == if a == w.account && key == Keys.StorageKey(w.id) then w.value else ValueAt(s, a, key)
  {
  }

  // No record's key is a compliance key: they differ in the first byte.
  lemma {:induction false} MovesKeepFamily(s: Store, ws: seq<Write>)
    ensures SameFamily(s, ApplyAll(s, ws))
  {
    if |ws| > 0 {
      var last, front := ws[|ws| - 1], ApplyAll(s, ws[..|ws| - 1]);
      MovesKeepFamily(s, ws[..|ws| - 1]);
      assert Keys.StorageKey(last.id)[0] != FAMILY;
      forall a: Address, key: bytes | |key| > 0 && key[0] == FAMILY
        ensures ValueAt(Apply(front, last), a, key) == ValueAt(s, a, key)
      {
        ApplyReads(front, last, a, key);
      }
    }
  }

  lemma {:induction false} SameEvaluation(d: Decoders, s: Store, t: Store, system: Address, token: bytes, a: Address, now: nat,
                       sending: bool)
    requires SameFamily(s, t)
    ensures Evaluate(d, t, system, token, a, now, sending) == Evaluate(d, s, system, token, a, now, sending)
    ensures Cleared(d, t, system, token, a, now, sending) == Cleared(d, s, system, token, a, now, sending)
  {
    hide Decoded, Decide, MergedHolder, PolicyKey, HolderKey, ProfileKey, AuditorKey, Meets, ValueAt, SameFamily;
    ComplianceKeys(token, a);
    SameValue(s, t, system, PolicyKey(token));
    SameValue(s, t, a, HolderKey(token, a));
    SameValue(s, t, a, ProfileKey(a));
    SameValue(s, t, a, AuditorKey(token, a));
  }

  lemma SameValue(s: Store, t: Store, a: Address, key: bytes)
    requires SameFamily(s, t) && |key| > 0 && key[0] == FAMILY
    ensures ValueAt(t, a, key) == ValueAt(s, a, key)
  {
  }
}
