/** Minting and verifying the session token. The MAC and the JSON codec are given. */
module SyncJwt {
  import opened Common
  import opened Base64Url

  const CLOCK_SKEW_SECONDS := 30
  const SYNC_JWT_TTL_SECONDS := 3600

  datatype Field = Str(s: string) | Num(n: real) | Infinite | JsNull | OtherValue

  /** What JSON text may hold: an object, null, or something without the fields asked for. */
  datatype Doc = Object(fields: map<string, Field>) | NullDoc | Bare

  datatype Crypto = Crypto(mac: (string, string) -> seq<Byte>, toJson: Doc -> seq<Byte>,
                           fromJson: seq<Byte> -> Option<Doc>)

  datatype Claims = Claims(workspaceId: string, workspaceRole: string, identityHash: string)

  datatype Refusal =
    | BadFormat | BadHeader | UnsupportedAlgorithm | BadType | BadSignatureText | BadSignature
    | BadPayload | BadExp | BadIat | Expired | FromTheFuture | BadNbf | NotYetValid
    | BadIssuer | BadAudience | BadRole | MissingClaims | BadWorkspaceRole

  // ---- splitting -----------------------------------------------------------

  function Split(s: string): (parts: seq<string>)
    ensures |parts| >= 1
  {
    if s == "" then [""]
    else
      var rest := Split(s[1..]);
      if s[0] == '.' then [""] + rest else [[s[0]] + rest[0]] + rest[1..]
  }

  predicate DotFree(s: string) {
    forall i :: 0 <= i < |s| ==> s[i] != '.'
  }

  lemma {:induction false} SplitFirst(a: string, rest: string)
    requires DotFree(a)
    ensures Split(a + "." + rest) == [a] + Split(rest)
  {
    var s := a + "." + rest;
    if a == "" {
      assert s[1..] == rest;
    } else {
      assert s[1..] == a[1..] + "." + rest;
      SplitFirst(a[1..], rest);
      assert a == [a[0]] + a[1..];
    }
  }

  lemma {:induction false} SplitNone(a: string)
    requires DotFree(a)
    ensures Split(a) == [a]
  {
    if a != "" {
      SplitNone(a[1..]);
      assert a == [a[0]] + a[1..];
    }
  }

  lemma SplitThree(a: string, b: string, c: string)
    requires DotFree(a) && DotFree(b) && DotFree(c)
    ensures Split(a + "." + b + "." + c) == [a, b, c]
  {
    assert a + "." + b + "." + c == a + "." + (b + "." + c);
    SplitFirst(a, b + "." + c);
    SplitFirst(b, c);
    SplitNone(c);
  }

  function Join(parts: seq<string>): string
    requires |parts| >= 1
  {
    if |parts| == 1 then parts[0] else parts[0] + "." + Join(parts[1..])
  }

  lemma JoinThree(parts: seq<string>)
    requires |parts| == 3
    ensures Join(parts) == parts[0] + "." + parts[1] + "." + parts[2]
  {
    assert parts[1..][1..] == [parts[2]];
    assert Join(parts[1..]) == parts[1] + "." + parts[2];
    assert parts[0] + "." + (parts[1] + "." + parts[2]) == parts[0] + "." + parts[1] + "." + parts[2];
  }

  lemma {:induction false} JoinSplit(s: string)
    ensures Join(Split(s)) == s
  {
    if s != "" {
      JoinSplit(s[1..]);
      var (parts, rest) := (Split(s), Split(s[1..]));
      assert s == [s[0]] + s[1..];
      if s[0] == '.' {
        assert parts[1..] == rest;
      } else {
        assert |rest| > 1 ==> parts[1..] == rest[1..];
      }
    }
  }

  // ---- minting -------------------------------------------------------------

  const HEADER := Object(map["alg" := Str("HS256"), "typ" := Str("JWT")])

  function Minted(c: Claims, now: int): Doc {
    Object(map["sub" := Str(c.identityHash), "iss" := Str("supabase"), "aud" := Str("authenticated"),
               "iat" := Num(now as real), "exp" := Num((now + SYNC_JWT_TTL_SECONDS) as real),
               "role" := Str("authenticated"),
               "workspace_id" := Str(c.workspaceId), "workspace_role" := Str(c.workspaceRole),
               "identity_hash" := Str(c.identityHash)])
  }

  function SigningInput(k: Crypto, payload: Doc): string {
    Encode(k.toJson(HEADER)) + "." + Encode(k.toJson(payload))
  }

  function SignSyncJwt(k: Crypto, payload: Doc, secret: string): string {
    SigningInput(k, payload) + "." + Encode(k.mac(secret, SigningInput(k, payload)))
  }

  // ---- verifying -----------------------------------------------------------

  /** A field as the program reads it: None when it is undefined. */
  function Get(d: Doc, name: string): Option<Field> {
    if d.Object? && name in d.fields then Some(d.fields[name]) else None
  }

  function Segment(k: Crypto, text: string): Option<Doc> {
    match Decode(text)
    case None => None
    case Some(bytes) => k.fromJson(bytes)
  }

  predicate NonEmpty(f: Option<Field>) {
    f.Some? && f.value.Str? && f.value.s != ""
  }

  /** The header checks. A null header cannot be read at all. */
  function CheckHeader(header: Option<Doc>): Option<Refusal> {
    if header.None? || header.value.NullDoc? then Some(BadHeader)
    else if Get(header.value, "alg") != Some(Str("HS256")) then Some(UnsupportedAlgorithm)
    else if Get(header.value, "typ") != None && Get(header.value, "typ") != Some(Str("JWT")) then Some(BadType)
    else None
  }

  predicate IsNumber(f: Option<Field>) {
    f.Some? && f.value.Num?
  }

  function CheckTimes(p: Doc, now: int): Option<Refusal> {
    var (exp, iat, nbf) := (Get(p, "exp"), Get(p, "iat"), Get(p, "nbf"));
    if !IsNumber(exp) then Some(BadExp)
    else if !IsNumber(iat) then Some(BadIat)
    else if exp.value.n < (now - CLOCK_SKEW_SECONDS) as real then Some(Expired)
    else if iat.value.n > (now + CLOCK_SKEW_SECONDS) as real then Some(FromTheFuture)
    else if nbf.Some? && !IsNumber(nbf) then Some(BadNbf)
    else if nbf.Some? && nbf.value.n > (now + CLOCK_SKEW_SECONDS) as real then Some(NotYetValid)
    else None
  }

  predicate IsWorkspaceRole(s: string) {
    s == "owner" || s == "editor" || s == "viewer"
  }

  function CheckIdentity(p: Doc): Result<Claims, Refusal> {
    var (id, role) := (Get(p, "workspace_id"), Get(p, "workspace_role"));
    var own := Get(p, "identity_hash");
    var hash := if own.None? || own.value.JsNull? then Get(p, "sub") else own;
    if Get(p, "iss") != Some(Str("supabase")) then Err(BadIssuer)
    else if Get(p, "aud") != Some(Str("authenticated")) then Err(BadAudience)
    else if Get(p, "role") != Some(Str("authenticated")) then Err(BadRole)
    else if !NonEmpty(id) || !NonEmpty(hash) || role.None? || !role.value.Str? then Err(MissingClaims)
    else if !IsWorkspaceRole(role.value.s) then Err(BadWorkspaceRole)
    else Result.Ok(Claims(id.value.s, role.value.s, hash.value.s))
  }

  function CheckPayload(payload: Option<Doc>, now: int): Result<Claims, Refusal> {
    if payload.None? || payload.value.NullDoc? then Err(BadPayload)
    else
      var times := CheckTimes(payload.value, now);
      if times.Some? then Err(times.value) else CheckIdentity(payload.value)
  }

  function VerifySyncJwt(k: Crypto, token: string, secret: string, now: int): Result<Claims, Refusal> {
    var parts := Split(token);
    if |parts| != 3 then Err(BadFormat)
    else
      var header := CheckHeader(Segment(k, parts[0]));
      var signature := Decode(parts[2]);
      if header.Some? then Err(header.value)
      else if signature.None? then Err(BadSignatureText)
      else if signature.value != k.mac(secret, parts[0] + "." + parts[1]) then Err(BadSignature)
      else CheckPayload(Segment(k, parts[1]), now)
  }

  // ---- mint, then verify ---------------------------------------------------

  predicate Survives(k: Crypto, d: Doc) {
    k.fromJson(k.toJson(d)) == Some(d)
  }

  lemma EncodedIsDotFree(bytes: seq<Byte>)
    ensures DotFree(Encode(bytes))
  {
    EncodeIs(bytes);
    hide Encode;
    assert !UrlSafe('.');
  }

  lemma SegmentOfEncoded(k: Crypto, d: Doc)
    requires Survives(k, d)
    ensures Segment(k, Encode(k.toJson(d))) == Some(d)
  {
    DecodeUndoesEncode(k.toJson(d));
  }

  lemma HeaderPasses()
    ensures CheckHeader(Some(HEADER)).None?
  {
  }

  /** A signed token splits into the three parts it was made of. */
  lemma SignedSplits(k: Crypto, payload: Doc, secret: string)
    ensures Split(SignSyncJwt(k, payload, secret)) ==
            [Encode(k.toJson(HEADER)), Encode(k.toJson(payload)), Encode(k.mac(secret, SigningInput(k, payload)))]
  {
    EncodedIsDotFree(k.toJson(HEADER));
    EncodedIsDotFree(k.toJson(payload));
    EncodedIsDotFree(k.mac(secret, SigningInput(k, payload)));
    hide Encode, Split, DotFree;
    SplitThree(Encode(k.toJson(HEADER)), Encode(k.toJson(payload)), Encode(k.mac(secret, SigningInput(k, payload))));
  }

  /** Checked with the key it was signed with, only the payload matters. */
  lemma SignedVerifies(k: Crypto, payload: Doc, secret: string, now: int)
    requires Survives(k, HEADER) && Survives(k, payload)
    ensures VerifySyncJwt(k, SignSyncJwt(k, payload, secret), secret, now) == CheckPayload(Some(payload), now)
  {
    SignedSplits(k, payload, secret);
    HeaderPasses();
    SegmentOfEncoded(k, HEADER);
    SegmentOfEncoded(k, payload);
    DecodeUndoesEncode(k.mac(secret, SigningInput(k, payload)));
    hide Encode, Decode, Split, SignSyncJwt, CheckPayload, CheckHeader, Segment;
  }

  lemma MintedFields(c: Claims, iat: int)
    ensures var p := Minted(c, iat);
            && Get(p, "iat") == Some(Num(iat as real)) && Get(p, "exp") == Some(Num((iat + 3600) as real))
              && Get(p, "nbf").None?
            && Get(p, "iss") == Some(Str("supabase")) && Get(p, "aud") == Some(Str("authenticated"))
            && Get(p, "role") == Some(Str("authenticated")) && Get(p, "workspace_id") == Some(Str(c.workspaceId))
            && Get(p, "workspace_role") == Some(Str(c.workspaceRole))
              && Get(p, "identity_hash") == Some(Str(c.identityHash))
  {
  }

  lemma MintedTimes(c: Claims, iat: int, now: int)
    ensures CheckTimes(Minted(c, iat), now) ==
            if now > iat + 3630 then Some(Expired) else if now < iat - 30 then Some(FromTheFuture) else None
  {
    MintedFields(c, iat);
    hide Get, Minted;
  }

  predicate GoodClaims(c: Claims) {
    c.workspaceId != "" && c.identityHash != "" && c.workspaceRole in {"owner", "editor", "viewer"}
  }

  lemma MintedIdentity(c: Claims, iat: int)
    ensures var r := CheckIdentity(Minted(c, iat)); (r.Ok? <==> GoodClaims(c)) && (r.Ok? ==> r.value == c)
  {
    MintedFields(c, iat);
    hide Get, Minted;
  }

  /**
   * A freshly minted token is accepted, with exactly its own claims, from 30
   * seconds before it was issued to 3630 seconds after, and never outside.
   */
  lemma MintedIsAcceptedIff(k: Crypto, c: Claims, iat: int, secret: string, now: int)
    requires Survives(k, HEADER) && Survives(k, Minted(c, iat))
    ensures var r := VerifySyncJwt(k, SignSyncJwt(k, Minted(c, iat), secret), secret, now);
            && (r.Ok? <==> iat - 30 <= now <= iat + 3630 && GoodClaims(c))
            && (r.Ok? ==> r.value == c)
            && (now > iat + 3630 ==> r == Err(Expired)) && (now < iat - 30 ==> r == Err(FromTheFuture))
  {
    SignedVerifies(k, Minted(c, iat), secret, now);
    MintedTimes(c, iat, now);
    MintedIdentity(c, iat);
    hide CheckTimes, CheckIdentity, GoodClaims, VerifySyncJwt, SignSyncJwt, Survives;
    assert !Minted(c, iat).NullDoc?;
    hide Minted;
  }

  /** The payload without its own identity field. */
  function WithoutIdentity(p: Doc): Doc
    requires p.Object?
  {
    Object(p.fields - {"identity_hash"})
  }

  lemma OtherFieldsLeft(p: Doc, name: string)
    requires p.Object?
    ensures Get(WithoutIdentity(p), name) == if name == "identity_hash" then None else Get(p, name)
  {
  }

  lemma SubjectIs(c: Claims, iat: int)
    ensures Get(Minted(c, iat), "sub") == Some(Str(c.identityHash)) && Minted(c, iat).Object?
  {
  }

  lemma FieldsWithoutIdentity(c: Claims, iat: int)
    ensures var p := WithoutIdentity(Minted(c, iat));
            && CheckTimes(p, iat) == None && (GoodClaims(c) ==> CheckIdentity(p) == Result.Ok(c))
  {
    MintedFields(c, iat);
    SubjectIs(c, iat);
    forall name
      ensures Get(WithoutIdentity(Minted(c, iat)), name)
              == if name == "identity_hash" then None else Get(Minted(c, iat), name)
    {
      OtherFieldsLeft(Minted(c, iat), name);
    }
    hide Get, Minted, WithoutIdentity;
  }

  /** The subject of a minted token alone identifies its bearer: without the other field it is accepted as the same. */
  lemma SubjectIsEnough(k: Crypto, c: Claims, iat: int, secret: string)
    requires Survives(k, HEADER) && Survives(k, WithoutIdentity(Minted(c, iat))) && GoodClaims(c)
    ensures VerifySyncJwt(k, SignSyncJwt(k, WithoutIdentity(Minted(c, iat)), secret), secret, iat) == Result.Ok(c)
  {
    SignedVerifies(k, WithoutIdentity(Minted(c, iat)), secret, iat);
    FieldsWithoutIdentity(c, iat);
    hide CheckTimes, CheckIdentity, GoodClaims, VerifySyncJwt, SignSyncJwt, Survives;
  }

  // ---- what acceptance means for any token ---------------------------------

  predicate SignatureMatches(k: Crypto, header: string, payload: string, signature: string, secret: string) {
    Decode(signature) == Some(k.mac(secret, header + "." + payload))
  }

  /**
   * Without a matching signature no claim is looked at: two tokens that differ only
   * in their payload are answered alike, at any two times, with an error that names
   * neither a claim nor a time.
   */
  lemma UnsignedSaysNothing(k: Crypto, header: string, payload: string, other: string, signature: string,
                            secret: string, now: int, later: int)
    requires DotFree(header) && DotFree(payload) && DotFree(other) && DotFree(signature)
    requires !SignatureMatches(k, header, payload, signature, secret)
             && !SignatureMatches(k, header, other, signature, secret)
    ensures var r := VerifySyncJwt(k, header + "." + payload + "." + signature, secret, now);
            && r == VerifySyncJwt(k, header + "." + other + "." + signature, secret, later)
            && r.Err? && r.error in {BadHeader, UnsupportedAlgorithm, BadType, BadSignatureText, BadSignature}
  {
    SplitThree(header, payload, signature);
    SplitThree(header, other, signature);
    hide Decode, Split, Segment, CheckPayload, DotFree;
  }

  /** The identity a payload names: its own field, or the subject when that is missing or null. */
  function IdentityOf(payload: Doc): Option<Field> {
    var own := Get(payload, "identity_hash");
    if own.None? || own.value.JsNull? then Get(payload, "sub") else own
  }

  /** A payload that a verifier may return these claims for at this time. */
  predicate Vouches(payload: Doc, c: Claims, now: int) {
    && Get(payload, "workspace_id") == Some(Str(c.workspaceId)) && c.workspaceId != ""
    && IdentityOf(payload) == Some(Str(c.identityHash)) && c.identityHash != ""
    && Get(payload, "workspace_role") == Some(Str(c.workspaceRole)) && IsWorkspaceRole(c.workspaceRole)
    && Get(payload, "iss") == Some(Str("supabase")) && Get(payload, "aud") == Some(Str("authenticated"))
    && Get(payload, "role") == Some(Str("authenticated"))
    && IsNumber(Get(payload, "exp")) && Get(payload, "exp").value.n >= (now - 30) as real
    && IsNumber(Get(payload, "iat")) && Get(payload, "iat").value.n <= (now + 30) as real
    && (Get(payload, "nbf").Some? ==>
          IsNumber(Get(payload, "nbf")) && Get(payload, "nbf").value.n <= (now + 30) as real)
  }

  /** The header says HS256, and JWT where it says a type. */
  predicate GoodHeader(header: Option<Doc>) {
    && header.Some? && header.value.Object?
    && "alg" in header.value.fields && header.value.fields["alg"] == Str("HS256")
    && ("typ" in header.value.fields ==> header.value.fields["typ"] == Str("JWT"))
  }

  lemma HeaderIff(header: Option<Doc>)
    ensures CheckHeader(header).None? <==> GoodHeader(header)
  {
  }

  lemma TimesIff(p: Doc, now: int)
    ensures CheckTimes(p, now).None?
       <==> (&& IsNumber(Get(p, "exp")) && Get(p, "exp").value.n >= (now - 30) as real
             && IsNumber(Get(p, "iat")) && Get(p, "iat").value.n <= (now + 30) as real
             && (Get(p, "nbf").Some? ==> IsNumber(Get(p, "nbf")) && Get(p, "nbf").value.n <= (now + 30) as real))
  {
    hide Get;
  }

  lemma PayloadIff(p: Doc, c: Claims, now: int)
    ensures !p.NullDoc? && Vouches(p, c, now) <==> CheckPayload(Some(p), now) == Result.Ok(c)
  {
    TimesIff(p, now);
    hide Get, CheckTimes, IsWorkspaceRole;
  }

  /**
   * A token is accepted with these claims exactly when it is three segments joined by
   * dots, its header passes, its last segment is the MAC of the first two, and its
   * payload vouches for the claims at this time.
   */
  lemma AcceptedIff(k: Crypto, token: string, secret: string, now: int, c: Claims)
    ensures VerifySyncJwt(k, token, secret, now) == Result.Ok(c)
       <==> (&& |Split(token)| == 3
             && GoodHeader(Segment(k, Split(token)[0]))
             && SignatureMatches(k, Split(token)[0], Split(token)[1], Split(token)[2], secret)
             && Segment(k, Split(token)[1]).Some? && !Segment(k, Split(token)[1]).value.NullDoc?
             && Vouches(Segment(k, Split(token)[1]).value, c, now))
    ensures |Split(token)| == 3 ==> token == Split(token)[0] + "." + Split(token)[1] + "." + Split(token)[2]
  {
    JoinSplit(token);
    var parts := Split(token);
    if |parts| == 3 {
      JoinThree(parts);
      HeaderIff(Segment(k, parts[0]));
      var payload := Segment(k, parts[1]);
      if payload.Some? {
        PayloadIff(payload.value, c, now);
      }
    }
    hide Decode, Split, Segment, CheckHeader, GoodHeader, Vouches, CheckTimes, CheckIdentity;
  }
}
