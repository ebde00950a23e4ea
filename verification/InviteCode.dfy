/** The invite code: a link whose fragment carries an invite (`InviteCode::encode` and
    `parse_invite_code` in `invite.rs`).

    JSON, the digest of the checksum and the syntax of URLs outside the fragment are
    functions of a `Codec`; what is asked of them is `Lawful`. */
module InviteCode {
  import opened Basics
  import opened Text
  import Base64
  import Timestamps

  const INVITE_VERSION := 4
  const CAPABILITY_BYTES := 32
  const MAX_CODE_BYTES := 12_288
  const INVITE_LINK := "https://open.multaiplayer.com/invite#"

  datatype InviteCode = InviteCode(
    version: nat, teamId: string, roomId: string, roomName: string, capabilityHandle: string,
    capabilityUrlValue: string, expiresAt: string, hostUserId: string, hostDeviceId: string,
    hostHpkePublicKey: string, hostHpkeFingerprint: string, checksum: Option<string>)

  datatype InviteCodeError = Invalid | ChecksumMismatch

  datatype Url = Url(
    scheme: string, host: string, path: string, username: string, password: Option<string>, port: Option<nat>,
    query: Option<string>, fragment: Option<string>)

  datatype Codec = Codec(
    toJson: InviteCode -> seq<Base64.Byte>,
    fromJson: seq<Base64.Byte> -> Option<InviteCode>,
    checksumOf: InviteCode -> string,
    parseUrl: string -> Option<Url>)

  // ---- Validation ----

  predicate BoundedText(s: string, max: nat) {
    s != "" && Utf8Length(s) <= max && NoControl(s)
  }

  predicate BoundedToken(s: string, max: nat) {
    s != "" && Utf8Length(s) <= max && AllTokenChars(s)
  }

  predicate BoundedBase64(s: string, max: nat) {
    s != "" && Utf8Length(s) <= max
    && forall i :: 0 <= i < |s| ==> IsAlphanumeric(s[i]) || s[i] == '+' || s[i] == '/' || s[i] == '='
  }

  predicate IsHex(c: char) { '0' <= c <= '9' || 'a' <= c <= 'f' || 'A' <= c <= 'F' }

  predicate ValidFingerprint(s: string) {
    && StartsWith(s, "sha256:")
    && var groups := Split(s[7..], ':');
       |groups| == 16 && forall i :: 0 <= i < 16 ==> |groups[i]| == 4 && forall k :: 0 <= k < 4 ==> IsHex(groups[i][k])
  }

  predicate ValidCapability(s: string) {
    && AllTokenChars(s)
    && var bytes := Base64.Decode(s);
       bytes.Some? && |bytes.value| == CAPABILITY_BYTES && Base64.Encode(bytes.value) == s
  }

  /** `validate_fields`. */
  predicate ValidFields(v: InviteCode) {
    && v.version == INVITE_VERSION
    && BoundedText(v.teamId, 160) && BoundedText(v.roomId, 160) && BoundedText(v.roomName, 120)
    && BoundedToken(v.capabilityHandle, 160) && Timestamps.ValidUtcTimestamp(v.expiresAt)
    && BoundedText(v.hostUserId, 256) && BoundedToken(v.hostDeviceId, 128)
    && BoundedBase64(v.hostHpkePublicKey, 4_096) && ValidFingerprint(v.hostHpkeFingerprint)
    && ValidCapability(v.capabilityUrlValue)
  }

  /** `validate`; the checksum does not cover itself. */
  function Validate(c: Codec, v: InviteCode): Option<InviteCodeError> {
    if !ValidFields(v) then Some(Invalid)
    else if v.checksum.Some? && v.checksum.value != c.checksumOf(v.(checksum := None)) then Some(ChecksumMismatch)
    else None
  }

  /** `new`. */
  function NewInvite(c: Codec, v: InviteCode): Result<InviteCode, InviteCodeError> {
    var bare := v.(version := INVITE_VERSION, checksum := None);
    if ValidFields(bare) then Ok(bare.(checksum := Some(c.checksumOf(bare)))) else Err(Invalid)
  }

  /** The checksum, if there is one, is that of the invite without it. */
  predicate SoundChecksum(c: Codec, v: InviteCode) {
    v.checksum.Some? ==>
      v.checksum.value == c.checksumOf(
        InviteCode(v.version, v.teamId, v.roomId, v.roomName, v.capabilityHandle, v.capabilityUrlValue, v.expiresAt,
                   v.hostUserId, v.hostDeviceId, v.hostHpkePublicKey, v.hostHpkeFingerprint, None))
  }

  predicate Within(s: string, max: nat) { 1 <= |s| && Utf8Length(s) <= max }

  /** What each field must be, and nothing besides: version 4; names without control characters
      and tokens, within their lengths; a timestamp by its shape; base64 text for the key; 16
      groups of four hexadecimal digits for its fingerprint; 32 bytes for the capability. */
  ghost predicate SoundFields(v: InviteCode) {
    && v.version == 4
    && Within(v.teamId, 160) && NoControl(v.teamId)
    && Within(v.roomId, 160) && NoControl(v.roomId)
    && Within(v.roomName, 120) && NoControl(v.roomName)
    && Within(v.capabilityHandle, 160) && AllTokenChars(v.capabilityHandle)
    && Timestamps.ValidUtcTimestamp(v.expiresAt)
    && Within(v.hostUserId, 256) && NoControl(v.hostUserId)
    && Within(v.hostDeviceId, 128) && AllTokenChars(v.hostDeviceId)
    && Within(v.hostHpkePublicKey, 4_096)
    && (forall ch :: ch in v.hostHpkePublicKey ==> IsAlphanumeric(ch) || ch in "+/=")
    && (exists groups :: |groups| == 16 && (forall g :: g in groups ==> |g| == 4 && forall h :: h in g ==> IsHex(h))
          && v.hostHpkeFingerprint == "sha256:" + Join(groups, ":"))
    && (exists bytes: seq<Base64.Byte> :: |bytes| == 32 && v.capabilityUrlValue == Base64.Encode(bytes))
  }

  /** Validation finds nothing exactly in an invite with sound fields and a sound checksum, and
      a wrong checksum exactly when that is all that is wrong. */
  lemma ValidateTells(c: Codec, v: InviteCode)
    ensures Validate(c, v).None? <==> SoundFields(v) && SoundChecksum(c, v)
    ensures Validate(c, v) == Some(ChecksumMismatch) <==> SoundFields(v) && !SoundChecksum(c, v)
    ensures Validate(c, v) == Some(Invalid) <==> !SoundFields(v)
  {
    hide SoundFields, ValidFields;
    FieldsIff(v);
  }

  lemma FieldsIff(v: InviteCode)
    ensures ValidFields(v) <==> SoundFields(v)
  {
    hide Utf8Length, ValidFingerprint, ValidCapability, Join, Base64.Encode, Timestamps.ValidUtcTimestamp;
    hide NoControl, AllTokenChars, IsAlphanumeric, BoundedBase64;
    FingerprintIff(v.hostHpkeFingerprint);
    CapabilityIff(v.capabilityUrlValue);
    KeyIff(v.hostHpkePublicKey);
  }

  lemma KeyIff(s: string)
    ensures BoundedBase64(s, 4_096) <==> Within(s, 4_096) && forall ch :: ch in s ==> IsAlphanumeric(ch) || ch in "+/="
  {
    hide Utf8Length, IsAlphanumeric;
    assert forall i :: 0 <= i < |s| ==> s[i] in s;
  }

  lemma FingerprintIff(s: string)
    ensures ValidFingerprint(s) <==>
              exists groups ::
                && |groups| == 16 && (forall g :: g in groups ==> |g| == 4 && forall h :: h in g ==> IsHex(h))
                && s == "sha256:" + Join(groups, ":")
  {
    hide Join, Split;
    if ValidFingerprint(s) {
      var groups := Split(s[7..], ':');
      JoinOfSplit(s[7..], ':');
      assert s == "sha256:" + s[7..];
    }
    forall groups | |groups| == 16 && (forall g :: g in groups ==> |g| == 4 && forall h :: h in g ==> IsHex(h))
      && s == "sha256:" + Join(groups, ":")
      ensures ValidFingerprint(s)
    {
      forall i | 0 <= i < |groups| ensures ':' !in groups[i] {
        assert groups[i] in groups;
        assert !IsHex(':');
      }
      SplitOfJoined(groups, ':');
      assert s[..7] == "sha256:" && s[7..] == Join(groups, ":");
      forall i | 0 <= i < 16 ensures |groups[i]| == 4 && forall k :: 0 <= k < 4 ==> IsHex(groups[i][k]) {
        assert groups[i] in groups;
        forall k | 0 <= k < 4 ensures IsHex(groups[i][k]) { assert groups[i][k] in groups[i]; }
      }
    }
  }

  lemma CapabilityIff(s: string)
    ensures ValidCapability(s) <==> exists bytes: seq<Base64.Byte> :: |bytes| == 32 && s == Base64.Encode(bytes)
  {
    hide Base64.Encode, Base64.Decode;
    forall bytes: seq<Base64.Byte> | |bytes| == 32 && s == Base64.Encode(bytes) ensures ValidCapability(s) {
      Base64.EncodedDecodes(bytes);
    }
  }

  // ---- The printer ----

  function Field(key: string, value: string): string { key + "=" + value }

  function PrintFields(id: string, payload: string): seq<string> {
    [Field("invite", id), Field("multaiplayerJoin", payload), Field("approval", "request")]
  }

  /** `encode`. */
  function EncodeInvite(c: Codec, v: InviteCode, id: string): Result<string, InviteCodeError> {
    if Validate(c, v).Some? then Err(Validate(c, v).value)
    else if v.checksum.None? || !BoundedToken(id, 160) then Err(Invalid)
    else
      var encoded := INVITE_LINK + Join(PrintFields(id, Base64.Encode(c.toJson(v))), "&");
      if Utf8Length(encoded) > MAX_CODE_BYTES then Err(Invalid) else Ok(encoded)
  }

  // ---- What the parser accepts ----

  predicate ValidValue(s: string) { s != "" && '%' !in s && '&' !in s }

  /** The fragment holds these three fields, each once, in whatever order, and nothing else. */
  predicate IsFragment(fragment: string, id: string, payload: string) {
    var parts := Split(fragment, '&');
    && |parts| == 3
    && Field("invite", id) in parts && Field("multaiplayerJoin", payload) in parts
        && Field("approval", "request") in parts
    && ValidValue(id) && ValidValue(payload)
  }

  predicate IsInviteUrl(u: Url) {
    && u.scheme == "https" && u.host == "open.multaiplayer.com" && (u.path == "/invite" || u.path == "/invite/")
    && u.username == "" && u.password.None? && u.port.None? && u.query.None? && u.fragment.Some?
  }

  /** The text is a link for this id with this payload. */
  predicate IsLink(c: Codec, text: string, id: string, payload: string) {
    && Utf8Length(text) <= MAX_CODE_BYTES
    && var u := c.parseUrl(text);
       u.Some? && IsInviteUrl(u.value) && IsFragment(u.value.fragment.value, id, payload)
  }

  /** The text carries this invite, sound or not. */
  ghost predicate Carries(c: Codec, text: string, id: string, v: InviteCode) {
    exists payload :: IsLink(c, text, id, payload) && BoundedToken(id, 160) && Payload(c, payload, v)
  }

  predicate Payload(c: Codec, payload: string, v: InviteCode) {
    && AllTokenChars(payload)
    && var bytes := Base64.Decode(payload);
       bytes.Some? && c.fromJson(bytes.value) == Some(v)
  }

  // ---- The parser ----

  datatype Parsed = Parsed(inviteId: string, invite: InviteCode)

  predicate HasField(parts: seq<string>, key: string, value: string) { Field(key, value) in parts }

  /** A slot holds the value of its field among the parts read so far. */
  ghost predicate Slot(slot: Option<string>, parts: seq<string>, key: string) {
    && (slot.Some? ==> HasField(parts, key, slot.value) && ValidValue(slot.value))
    && (slot.None? ==> forall v :: !HasField(parts, key, v))
  }

  /** The loop over the fields, with one slot for each. */
  method ParseFields(fragment: string) returns (r: Option<(string, string)>)
    ensures r.Some? ==> IsFragment(fragment, r.value.0, r.value.1)
    ensures r.None? ==> forall id, payload :: !IsFragment(fragment, id, payload)
  {
    hide Split, SplitOnce, Field, IsFragment, ValidValue, Slot;
    var parts := Split(fragment, '&');
    var inviteId: Option<string>, payload: Option<string>, approval: Option<string> := None, None, None;
    assert parts[..0] == [];
    NothingRead();
    for i := 0 to |parts|
      invariant Slot(inviteId, parts[..i], "invite")
      invariant Slot(payload, parts[..i], "multaiplayerJoin")
      invariant Slot(approval, parts[..i], "approval")
    {
      var (key, rest) := SplitOnce(parts[i], '=');
      assert parts[..i + 1] == parts[..i] + [parts[i]];
      if rest.None? || rest.value == "" || '%' in rest.value {
        BadPart(fragment, i, inviteId, payload, approval);
        return None;
      }
      ReadPart(inviteId, parts[..i], parts[i], "invite");
      ReadPart(payload, parts[..i], parts[i], "multaiplayerJoin");
      ReadPart(approval, parts[..i], parts[i], "approval");
      if key == "invite" && inviteId.None? {
        inviteId := rest;
      } else if key == "multaiplayerJoin" && payload.None? {
        payload := rest;
      } else if key == "approval" && approval.None? {
        approval := rest;
      } else {
        BadPart(fragment, i, inviteId, payload, approval);
        return None;
      }
    }
    assert parts[..|parts|] == parts;
    AllRead(fragment, inviteId, payload, approval);
    if |parts| != 3 || approval != Some("request") || inviteId.None? || payload.None? {
      return None;
    }
    return Some((inviteId.value, payload.value));
  }

  lemma NothingRead()
    ensures Slot(None, [], "invite") && Slot(None, [], "multaiplayerJoin") && Slot(None, [], "approval")
  {
  }

  lemma FieldSplits(key: string, value: string)
    requires '=' !in key
    ensures SplitOnce(Field(key, value), '=') == (key, Some(value))
  {
    SplitOnceAt(key, '=', value);
  }

  lemma OtherKey(part: string, key: string, value: string)
    requires '=' !in key
    ensures part == Field(key, value) <==> SplitOnce(part, '=') == (key, Some(value))
  {
    FieldSplits(key, value);
  }

  lemma HasFieldOfLonger(parts: seq<string>, part: string, key: string)
    ensures forall v :: HasField(parts + [part], key, v) <==> HasField(parts, key, v) || part == Field(key, v)
  {
    hide Field;
  }

  /** A part with a sound value fills the slot of its own key and leaves the others. */
  lemma ReadPart(slot: Option<string>, parts: seq<string>, part: string, key: string)
    requires Slot(slot, parts, key) && '=' !in key
    requires var (_, rest) := SplitOnce(part, '=');
             rest.Some? && rest.value != "" && '%' !in rest.value && '&' !in part
    ensures var (k, rest) := SplitOnce(part, '=');
            Slot(if k == key && slot.None? then rest else slot, parts + [part], key)
  {
    hide SplitOnce, Field, HasField;
    var (k, rest) := SplitOnce(part, '=');
    HasFieldOfLonger(parts, part, key);
    forall v ensures part == Field(key, v) <==> k == key && rest.value == v {
      OtherKey(part, key, v);
    }
    assert '&' !in rest.value;
  }

  /** Three fields, each in one part: no part is left over and none is there twice. */
  lemma PartsAreTheFields(fragment: string, id: string, payload: string, i: nat, j: nat)
    requires IsFragment(fragment, id, payload) && i < 3 && j < 3
    ensures var parts := Split(fragment, '&');
            && (parts[i] in {Field("invite", id), Field("multaiplayerJoin", payload), Field("approval", "request")})
            && (parts[i] == parts[j] ==> i == j)
  {
    hide Split;
    var parts := Split(fragment, '&');
    var a, b, c := Field("invite", id), Field("multaiplayerJoin", payload), Field("approval", "request");
    assert a[0] == 'i' && b[0] == 'm' && c[0] == 'a';
    var x :| 0 <= x < 3 && parts[x] == a;
    var y :| 0 <= y < 3 && parts[y] == b;
    var z :| 0 <= z < 3 && parts[z] == c;
  }

  /** A part that the loop rejects is in no fragment. */
  lemma BadPart(fragment: string, i: nat, inviteId: Option<string>, payload: Option<string>, approval: Option<string>)
    requires i < |Split(fragment, '&')|
    requires var parts := Split(fragment, '&');
             Slot(inviteId, parts[..i], "invite") && Slot(payload, parts[..i], "multaiplayerJoin")
                 && Slot(approval, parts[..i], "approval")
    requires var (key, rest) := SplitOnce(Split(fragment, '&')[i], '=');
             || rest.None? || rest.value == "" || '%' in rest.value
             || !((key == "invite" && inviteId.None?) || (key == "multaiplayerJoin" && payload.None?)
                 || (key == "approval" && approval.None?))
    ensures forall id, load :: !IsFragment(fragment, id, load)
  {
    hide Split, SplitOnce, Slot;
    forall id, load | IsFragment(fragment, id, load) ensures false {
      FieldSplits("invite", id);
      FieldSplits("multaiplayerJoin", load);
      FieldSplits("approval", "request");
      PartsAreTheFields(fragment, id, load, i, i);
      var (key, rest) := SplitOnce(Split(fragment, '&')[i], '=');
      var slot := if key == "invite" then inviteId else if key == "multaiplayerJoin" then payload else approval;
      SecondOfAKey(fragment, id, load, i, key, slot);
    }
  }

  lemma SecondOfAKey(fragment: string, id: string, payload: string, i: nat, key: string, slot: Option<string>)
    requires IsFragment(fragment, id, payload) && i < 3
    requires Slot(slot, Split(fragment, '&')[..i], key)
    requires SplitOnce(Split(fragment, '&')[i], '=').0 == key && '=' !in key
    ensures slot.None?
  {
    hide Split, SplitOnce;
    var parts := Split(fragment, '&');
    if slot.Some? {
      var j :| 0 <= j < i && parts[..i][j] == Field(key, slot.value);
      PartsAreTheFields(fragment, id, payload, i, j);
      PartsAreTheFields(fragment, id, payload, j, i);
      FieldSplits("invite", id);
      FieldSplits("multaiplayerJoin", payload);
      FieldSplits("approval", "request");
      FieldSplits(key, slot.value);
    }
  }

  lemma AllRead(fragment: string, inviteId: Option<string>, payload: Option<string>, approval: Option<string>)
    requires var parts := Split(fragment, '&');
             Slot(inviteId, parts, "invite") && Slot(payload, parts, "multaiplayerJoin")
                 && Slot(approval, parts, "approval")
    ensures if |Split(fragment, '&')| == 3 && approval == Some("request") && inviteId.Some? && payload.Some?
            then IsFragment(fragment, inviteId.value, payload.value)
            else forall id, load :: !IsFragment(fragment, id, load)
  {
    hide Split;
    forall id, load | IsFragment(fragment, id, load)
      ensures |Split(fragment, '&')| == 3 && approval == Some("request") && inviteId.Some? && payload.Some?
    {
      var parts := Split(fragment, '&');
      assert HasField(parts, "invite", id) && HasField(parts, "multaiplayerJoin", load)
          && HasField(parts, "approval", "request");
      var z :| 0 <= z < 3 && parts[z] == Field("approval", approval.value);
      PartsAreTheFields(fragment, id, load, z, z);
      FieldSplits("invite", id);
      FieldSplits("multaiplayerJoin", load);
      FieldSplits("approval", "request");
      FieldSplits("approval", approval.value);
    }
  }

  /** `parse_invite_code`. */
  method ParseInviteCode(c: Codec, text: string) returns (r: Result<Parsed, InviteCodeError>)
    ensures r.Ok? ==> Carries(c, text, r.value.inviteId, r.value.invite) && Validate(c, r.value.invite).None?
    ensures r.Err? ==>
              || (r.error == Invalid && forall id, v :: !Carries(c, text, id, v))
              || (exists id, v :: Carries(c, text, id, v) && Validate(c, v) == Some(r.error))
    ensures r.Ok? ==> SoundFields(r.value.invite) && SoundChecksum(c, r.value.invite)
    ensures r == Err(ChecksumMismatch) <==>
              exists id, v :: Carries(c, text, id, v) && SoundFields(v) && !SoundChecksum(c, v)
  {
    hide Validate, IsFragment, Utf8Length, BoundedToken, SoundFields, SoundChecksum;
    CarriedTells(c, text);
    if Utf8Length(text) > MAX_CODE_BYTES { return Err(Invalid); }
    var url := c.parseUrl(text);
    if url.None? || !IsInviteUrl(url.value) { return Err(Invalid); }
    var fields := ParseFields(url.value.fragment.value);
    if fields.None? { return Err(Invalid); }
    var (id, payload) := fields.value;
    OnePayload(c, text, id, payload);
    if !BoundedToken(id, 160) || !AllTokenChars(payload) { return Err(Invalid); }
    var json := Base64.Decode(payload);
    if json.None? { return Err(Invalid); }
    var invite := c.fromJson(json.value);
    if invite.None? { return Err(Invalid); }
    assert IsLink(c, text, id, payload) && Payload(c, payload, invite.value);
    var error := Validate(c, invite.value);
    if error.Some? {
      assert Carries(c, text, id, invite.value) && Validate(c, invite.value) == error;
      return Err(error.value);
    }
    return Ok(Parsed(id, invite.value));
  }

  lemma CarriedTells(c: Codec, text: string)
    ensures forall id, v, id', v' :: Carries(c, text, id, v) && Carries(c, text, id', v') ==> id == id' && v == v'
    ensures forall v :: Validate(c, v).None? <==> SoundFields(v) && SoundChecksum(c, v)
    ensures forall v :: Validate(c, v) == Some(ChecksumMismatch) <==> SoundFields(v) && !SoundChecksum(c, v)
  {
    hide Carries, Validate, SoundFields, SoundChecksum;
    forall id, v, id', v' | Carries(c, text, id, v) && Carries(c, text, id', v') ensures id == id' && v == v' {
      CarriesOne(c, text, id, v, id', v');
    }
    forall v
      ensures Validate(c, v).None? <==> SoundFields(v) && SoundChecksum(c, v)
      ensures Validate(c, v) == Some(ChecksumMismatch) <==> SoundFields(v) && !SoundChecksum(c, v)
    {
      ValidateTells(c, v);
    }
  }

  // ---- What a link is ----

  lemma HexTells(c: char)
    ensures IsHex(c) <==> c in "0123456789abcdef" || c in "ABCDEF"
  {
    var small, capital := "0123456789abcdef", "ABCDEF";
    if '0' <= c <= '9' { assert small[c as int - '0' as int] == c; }
    if 'a' <= c <= 'f' { assert small[10 + (c as int - 'a' as int)] == c; }
    if 'A' <= c <= 'F' { assert capital[c as int - 'A' as int] == c; }
  }

  /** A link of the client's is one address, with or without a slash at its end, and has nothing
      but a fragment. */
  lemma InviteUrlIff(u: Url)
    ensures IsInviteUrl(u) <==>
              && u.fragment.Some?
              && (|| u == Url("https", "open.multaiplayer.com", "/invite", "", None, None, None, u.fragment)
                  || u == Url("https", "open.multaiplayer.com", "/invite/", "", None, None, None, u.fragment))
  {
  }

  /** What a text must be to carry an invite. */
  lemma CarriesTells(c: Codec, text: string, id: string, v: InviteCode)
    requires Carries(c, text, id, v)
    ensures Utf8Length(text) <= 12_288 && 1 <= |id| && Utf8Length(id) <= 160 && AllTokenChars(id)
    ensures exists u, payload, bytes :: c.parseUrl(text) == Some(u) && IsInviteUrl(u)
              && IsFragment(u.fragment.value, id, payload)
              && payload == Base64.Encode(bytes) && c.fromJson(bytes) == Some(v)
  {
    hide IsFragment, Utf8Length, IsInviteUrl, Base64.Encode, Base64.Decode;
    var payload :| IsLink(c, text, id, payload) && BoundedToken(id, 160) && Payload(c, payload, v);
    Base64.DecodedEncodes(payload);
  }

  /** The text that is printed, and why none is. */
  lemma EncodeTells(c: Codec, v: InviteCode, id: string)
    ensures var payload := Base64.Encode(c.toJson(v));
            var text := "https://open.multaiplayer.com/invite#"
                        + Join(["invite=" + id, "multaiplayerJoin=" + payload, "approval=request"], "&");
            EncodeInvite(c, v, id) ==
              if !SoundFields(v) then Err(Invalid)
              else if !SoundChecksum(c, v) then Err(ChecksumMismatch)
              else if v.checksum.None? || !(1 <= |id| && Utf8Length(id) <= 160 && AllTokenChars(id))
                      || Utf8Length(text) > 12_288 then Err(Invalid)
              else Ok(text)
  {
    hide Validate, SoundFields, SoundChecksum, Utf8Length, Base64.Encode, Join, PrintFields, BoundedToken;
    ValidateTells(c, v);
    FieldsInFull(id, Base64.Encode(c.toJson(v)));
    TokenIff(id);
  }

  lemma TokenIff(id: string)
    ensures BoundedToken(id, 160) <==> 1 <= |id| && Utf8Length(id) <= 160 && AllTokenChars(id)
  {
    hide Utf8Length, AllTokenChars;
  }

  lemma FieldsInFull(id: string, payload: string)
    ensures PrintFields(id, payload) == ["invite=" + id, "multaiplayerJoin=" + payload, "approval=request"]
  {
    assert Field("invite", id) == "invite=" + id;
    assert Field("multaiplayerJoin", payload) == "multaiplayerJoin=" + payload;
    assert Field("approval", "request") == "approval=request";
  }

  /** A new invite has the current version and its own checksum, and is made exactly from sound
      fields. */
  lemma NewInviteTells(c: Codec, v: InviteCode)
    ensures var bare := InviteCode(4, v.teamId, v.roomId, v.roomName, v.capabilityHandle, v.capabilityUrlValue,
                                   v.expiresAt, v.hostUserId, v.hostDeviceId, v.hostHpkePublicKey,
                                   v.hostHpkeFingerprint, None);
            NewInvite(c, v) ==
              if SoundFields(bare) then Ok(bare.(checksum := Some(c.checksumOf(bare)))) else Err(Invalid)
  {
    hide SoundFields, ValidFields;
    var bare := v.(version := INVITE_VERSION, checksum := None);
    FieldsIff(bare);
  }

  // ---- Results ----

  /** The fields that a fragment holds are determined by it. */
  lemma FragmentIsUnique(fragment: string, id: string, payload: string)
    requires IsFragment(fragment, id, payload)
    ensures forall i, p :: IsFragment(fragment, i, p) ==> i == id && p == payload
  {
    hide Split;
    forall i, p | IsFragment(fragment, i, p) ensures i == id && p == payload {
      var parts := Split(fragment, '&');
      var x :| 0 <= x < 3 && parts[x] == Field("invite", i);
      var y :| 0 <= y < 3 && parts[y] == Field("multaiplayerJoin", p);
      PartsAreTheFields(fragment, id, payload, x, x);
      PartsAreTheFields(fragment, id, payload, y, y);
      FieldSplits("invite", id);
      FieldSplits("invite", i);
      FieldSplits("multaiplayerJoin", payload);
      FieldSplits("multaiplayerJoin", p);
      FieldSplits("approval", "request");
    }
  }

  lemma OnePayload(c: Codec, text: string, id: string, payload: string)
    requires IsLink(c, text, id, payload)
    ensures forall i, v :: Carries(c, text, i, v) ==> i == id && BoundedToken(id, 160) && Payload(c, payload, v)
  {
    hide IsFragment, BoundedToken, Payload;
    FragmentIsUnique(c.parseUrl(text).value.fragment.value, id, payload);
  }

  /** A text carries at most one invite under one id, so the parser has no choice. */
  lemma CarriesOne(c: Codec, text: string, id: string, v: InviteCode, id': string, v': InviteCode)
    requires Carries(c, text, id, v) && Carries(c, text, id', v')
    ensures id == id' && v == v'
  {
    hide IsFragment, BoundedToken;
    var payload :| IsLink(c, text, id, payload) && BoundedToken(id, 160) && Payload(c, payload, v);
    FragmentIsUnique(c.parseUrl(text).value.fragment.value, id, payload);
  }

  /** Any order of the three fields is a fragment for the same id and payload. */
  lemma AnyOrderIsAFragment(id: string, payload: string, parts: seq<string>)
    requires ValidValue(id) && ValidValue(payload)
    requires multiset(parts) == multiset(PrintFields(id, payload))
    ensures IsFragment(Join(parts, "&"), id, payload)
  {
    var fields := PrintFields(id, payload);
    assert |parts| == |multiset(parts)| == |multiset(fields)| == 3;
    forall x | x in fields ensures x in parts { assert x in multiset(fields); }
    forall x | x in parts ensures '&' !in x {
      assert x in multiset(parts) && x in fields;
    }
    assert fields[0] in fields && fields[1] in fields && fields[2] in fields;
    SplitOfJoined(parts, '&');
  }

  /** What the model asks of the libraries: JSON is read back as it was written, and a
      link of the printed form, with characters in its fragment that need no escape, is
      split where it was put together. */
  ghost predicate Lawful(c: Codec) { JsonReturns(c) && LinkParses(c) }

  ghost predicate JsonReturns(c: Codec) {
    forall v :: c.toJson(v) != [] && c.fromJson(c.toJson(v)) == Some(v)
  }

  ghost predicate LinkParses(c: Codec) {
    forall f: string :: PlainText(f) ==>
      c.parseUrl(INVITE_LINK + f)
      == Some(Url("https", "open.multaiplayer.com", "/invite", "", None, None, None, Some(f)))
  }

  predicate PlainChar(ch: char) { IsTokenChar(ch) || ch == '=' || ch == '&' }

  predicate PlainText(s: string) { forall i :: 0 <= i < |s| ==> PlainChar(s[i]) }

  lemma JoinOfThree(a: string, b: string, c: string, separator: string)
    ensures Join([a, b, c], separator) == a + separator + b + separator + c
  {
    assert [a, b, c][..2] == [a, b] && [a, b][..1] == [a];
    assert Join([a, b], separator) == Join([a], separator) + separator + b;
  }

  lemma PlainFields(id: string, payload: string)
    requires AllTokenChars(id) && AllTokenChars(payload)
    ensures PlainText(Join(PrintFields(id, payload), "&"))
  {
    hide IsTokenChar, Join;
    JoinOfThree(Field("invite", id), Field("multaiplayerJoin", payload), Field("approval", "request"), "&");
    PlainField("invite", id);
    PlainField("multaiplayerJoin", payload);
    PlainField("approval", "request");
  }

  lemma PlainField(key: string, value: string)
    requires key in {"invite", "multaiplayerJoin", "approval"} && (value == "request" || AllTokenChars(value))
    ensures PlainText(Field(key, value))
  {
    assert AllTokenChars("invite") && AllTokenChars("multaiplayerJoin") && AllTokenChars("approval");
    assert AllTokenChars("request");
    hide IsTokenChar;
  }

  /** Whatever the printer prints carries the invite it was given, under its id, and is
      accepted. Together with `CarriesOne`, parsing returns exactly what was printed. */
  lemma PrintedInviteIsCarried(c: Codec, v: InviteCode, id: string)
    requires Lawful(c) && EncodeInvite(c, v, id).Ok?
    ensures Carries(c, EncodeInvite(c, v, id).value, id, v) && Validate(c, v).None?
  {
    hide EncodeInvite, Utf8Length, Validate, Base64.Encode, Base64.Decode, Join, PrintFields, IsLink,
        BoundedToken, Lawful;
    var payload := Base64.Encode(c.toJson(v));
    PrintedText(c, v, id);
    PrintedPayload(c, v);
    PrintedLink(c, id, payload);
    assert IsLink(c, EncodeInvite(c, v, id).value, id, payload);
  }

  lemma PrintedText(c: Codec, v: InviteCode, id: string)
    requires EncodeInvite(c, v, id).Ok?
    ensures Validate(c, v).None? && BoundedToken(id, 160) && id != "" && AllTokenChars(id)
    ensures var text := EncodeInvite(c, v, id).value;
            text == INVITE_LINK + Join(PrintFields(id, Base64.Encode(c.toJson(v))), "&")
                && Utf8Length(text) <= MAX_CODE_BYTES
  {
    hide Validate, Utf8Length, Join, PrintFields;
  }

  lemma PrintedPayload(c: Codec, v: InviteCode)
    requires Lawful(c)
    ensures var payload := Base64.Encode(c.toJson(v));
            payload != "" && AllTokenChars(payload) && Payload(c, payload, v)
  {
    hide Base64.Encode, Base64.Decode, LinkParses;
    Base64.OnlyNothingIsEmpty(c.toJson(v));
    Base64.EncodedDecodes(c.toJson(v));
  }

  lemma PrintedLink(c: Codec, id: string, payload: string)
    requires Lawful(c) && id != "" && AllTokenChars(id) && payload != "" && AllTokenChars(payload)
    ensures var text := INVITE_LINK + Join(PrintFields(id, payload), "&");
            Utf8Length(text) <= MAX_CODE_BYTES ==> IsLink(c, text, id, payload)
  {
    hide Utf8Length, Join, PrintFields, IsFragment, ValidValue, JsonReturns, PlainText;
    PlainFields(id, payload);
    PlainValue(id);
    PlainValue(payload);
    AnyOrderIsAFragment(id, payload, PrintFields(id, payload));
  }

  lemma PlainValue(s: string)
    requires s != "" && AllTokenChars(s)
    ensures ValidValue(s)
  {
  }

  /** A new invite can be printed under every sound id, unless it is too long. */
  lemma NewInvitePrintsIff(c: Codec, v: InviteCode, id: string)
    requires NewInvite(c, v).Ok?
    ensures var made := NewInvite(c, v).value;
            EncodeInvite(c, made, id).Ok? <==>
              BoundedToken(id, 160)
              && Utf8Length(INVITE_LINK + Join(PrintFields(id, Base64.Encode(c.toJson(made))), "&")) <= MAX_CODE_BYTES
  {
    hide Utf8Length, BoundedToken;
  }
}
