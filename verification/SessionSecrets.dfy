/** Where the two sides of a deployment find the signing secret, and when they find the same one. */
module SessionSecrets {
  import opened Common
  import opened SyncJwt

  const MIN_JWT_SECRET_LENGTH := 32

  /** The settings both sides look at, in the same order; a setting may be missing. */
  type Sources = seq<Option<string>>

  predicate LongEnough(secret: string) {
    |secret| >= MIN_JWT_SECRET_LENGTH
  }

  /** The minting side skips every setting that is missing, empty or too short. */
  function MintSecret(sources: Sources): Option<string> {
    if sources == [] then None
    else if sources[0].Some? && LongEnough(sources[0].value) then sources[0]
    else MintSecret(sources[1..])
  }

  function FirstDefined(sources: Sources): Option<string> {
    if sources == [] then None else if sources[0].Some? then sources[0] else FirstDefined(sources[1..])
  }

  /** The verifying side takes the first setting that is there, and gives up if that is too short. */
  function VerifySecret(sources: Sources): Option<string> {
    match FirstDefined(sources)
    case None => None
    case Some(secret) => if LongEnough(secret) then Some(secret) else None
  }

  /** A deployment that cannot mint hands out no token. */
  function Mint(k: Crypto, c: Claims, iat: int, sources: Sources): Option<string> {
    match MintSecret(sources)
    case None => None
    case Some(secret) => Some(SignSyncJwt(k, Minted(c, iat), secret))
  }

  datatype Answer = Unavailable | Checked(result: Result<Claims, Refusal>)

  /** A request with a token: without a secret that is the deployment's fault and not the caller's. */
  function RequireSyncJwt(k: Crypto, token: string, sources: Sources, now: int): Answer {
    match VerifySecret(sources)
    case None => Unavailable
    case Some(secret) => Checked(VerifySyncJwt(k, token, secret, now))
  }

  predicate FirstIsLongEnough(sources: Sources) {
    FirstDefined(sources).Some? && LongEnough(FirstDefined(sources).value)
  }

  /** `secret` is in a setting before which none is long enough. */
  ghost predicate IsFirstLongEnough(sources: Sources, secret: string) {
    exists i :: 0 <= i < |sources| && sources[i] == Some(secret) && |secret| >= 32
                && forall j :: 0 <= j < i && sources[j].Some? ==> |sources[j].value| < 32
  }

  lemma {:induction false} MintSecretIff(sources: Sources, secret: string)
    ensures MintSecret(sources) == Some(secret) <==> IsFirstLongEnough(sources, secret)
  {
    if sources != [] && !(sources[0].Some? && LongEnough(sources[0].value)) {
      var rest := sources[1..];
      MintSecretIff(rest, secret);
      if IsFirstLongEnough(rest, secret) {
        var i :| 0 <= i < |rest| && rest[i] == Some(secret) && LongEnough(secret)
                 && forall j :: 0 <= j < i && rest[j].Some? ==> !LongEnough(rest[j].value);
        assert sources[i + 1] == rest[i];
        assert forall j :: 0 < j < i + 1 ==> sources[j] == rest[j - 1];
      }
      if IsFirstLongEnough(sources, secret) {
        var i :| 0 <= i < |sources| && sources[i] == Some(secret) && LongEnough(secret)
                 && forall j :: 0 <= j < i && sources[j].Some? ==> !LongEnough(sources[j].value);
        assert rest[i - 1] == sources[i];
        assert forall j :: 0 <= j < i - 1 ==> rest[j] == sources[j + 1];
      }
    }
  }

  /** The verifying side never finds another secret than the minting side, but it may find none. */
  lemma {:induction false} SameSecretIff(sources: Sources)
    ensures VerifySecret(sources).Some? <==> FirstIsLongEnough(sources)
    ensures VerifySecret(sources).Some? ==> VerifySecret(sources) == MintSecret(sources)
  {
    if sources != [] && sources[0].None? {
      SameSecretIff(sources[1..]);
    }
  }

  /**
   * A token that a deployment mints is accepted by the same deployment, in its time and
   * with its own claims, exactly when the first setting that is there is long enough;
   * otherwise every request is answered that the service is unavailable.
   */
  lemma OwnTokenIsServedIff(k: Crypto, c: Claims, iat: int, sources: Sources, now: int)
    requires Survives(k, HEADER) && Survives(k, Minted(c, iat)) && Mint(k, c, iat, sources).Some?
    ensures var answer := RequireSyncJwt(k, Mint(k, c, iat, sources).value, sources, now);
            && (answer == Checked(Result.Ok(c))
                <==> FirstIsLongEnough(sources) && iat - 30 <= now <= iat + 3630 && GoodClaims(c))
            && (answer == Unavailable <==> !FirstIsLongEnough(sources))
  {
    SameSecretIff(sources);
    hide MintSecret, FirstDefined, VerifySyncJwt, SignSyncJwt, Minted, GoodClaims, FirstIsLongEnough, VerifySecret;
    if VerifySecret(sources).Some? {
      MintedIsAcceptedIff(k, c, iat, VerifySecret(sources).value, now);
    }
  }

  /** An empty first setting before a good one: tokens are minted, and none is served. */
  lemma EmptySettingShutsOut(k: Crypto, c: Claims, iat: int, secret: string, now: int)
    requires LongEnough(secret)
    ensures var sources := [Some(""), Some(secret)];
            && Mint(k, c, iat, sources) == Some(SignSyncJwt(k, Minted(c, iat), secret))
            && forall token :: RequireSyncJwt(k, token, sources, now) == Unavailable
  {
    var sources: Sources := [Some(""), Some(secret)];
    assert sources[1..] == [Some(secret)] && MintSecret([Some(secret)]) == Some(secret);
    hide SignSyncJwt, VerifySyncJwt, Minted;
  }
}
