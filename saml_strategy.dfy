/**
 * The SAML strategy's own logic: configuration defaults, the identity provider's
 * entry-point URL, and the mapping from a validated assertion profile to the user
 * object placed on the request. Signature checking and the certificate reads belong to
 * the SAML library and the file system and are not modelled.
 */
module Saml {
  import opened Config

  /** The attributes of a validated assertion the service uses. */
  datatype SamlProfile = SamlProfile(
    nameID: string,
    username: string,
    email: string,
    firstName: string,
    lastName: string)

  /** The user object the verify callback hands to Passport (the `User` interface). */
  datatype SamlUser = SamlUser(
    id: string,
    username: string,
    email: string,
    firstName: string,
    lastName: string,
    requiresDuo: bool,
    duoVerified: bool)

  /** ValidateInResponseTo of the SAML library: whether a response's InResponseTo is checked. */
  datatype InResponseToCheck = Never | IfPresent | Always

  const UnspecifiedNameId := "urn:oasis:names:tc:SAML:1.1:nameid-format:unspecified"

  /** The strategy options that come from configuration, with the fixed ones beside them. */
  datatype SamlOptions = SamlOptions(
    entryPoint: string,
    issuer: string,
    callbackUrl: string,
    wantAssertionsSigned: bool,
    disableRequestedAuthnContext: bool,
    validateInResponseTo: InResponseToCheck,
    acceptedClockSkewMs: int,
    identifierFormat: string)

  const DefaultKeycloakUrl := "http://localhost:8080"
  const DefaultRealm := "test-realm"
  const DefaultEntityId := "mini-microservice"
  const DefaultCallbackUrl := "http://localhost:8085/api/auth/saml/callback"

  function KeycloakUrl(env: Env): string { GetOr(env, "KEYCLOAK_URL", DefaultKeycloakUrl) }
  function KeycloakRealm(env: Env): string { GetOr(env, "KEYCLOAK_REALM", DefaultRealm) }

  /** `${KEYCLOAK_URL}/realms/${KEYCLOAK_REALM}/protocol/saml`. */
  function EntryPoint(url: string, realm: string): (e: string)
    ensures |e| == |url| + |realm| + 22
    ensures e[..|url|] == url
    ensures e[|url|..|url| + 8] == "/realms/"
    ensures e[|url| + 8..|url| + 8 + |realm|] == realm
    ensures e[|url| + 8 + |realm|..] == "/protocol/saml"
  {
    url + "/realms/" + realm + "/protocol/saml"
  }

  /** The options passed to the SAML library by the constructor. */
  function Options(env: Env): (o: SamlOptions)
    ensures o.entryPoint == EntryPoint(KeycloakUrl(env), KeycloakRealm(env))
    ensures o.issuer == GetOr(env, "SAML_ENTITY_ID", DefaultEntityId)
    ensures o.callbackUrl == GetOr(env, "SAML_CALLBACK_URL", DefaultCallbackUrl)
    ensures !o.wantAssertionsSigned && o.disableRequestedAuthnContext && o.acceptedClockSkewMs == 5000
    ensures o.validateInResponseTo == Never
    ensures o.identifierFormat == UnspecifiedNameId
  {
    SamlOptions(
      EntryPoint(KeycloakUrl(env), KeycloakRealm(env)),
      GetOr(env, "SAML_ENTITY_ID", DefaultEntityId),
      GetOr(env, "SAML_CALLBACK_URL", DefaultCallbackUrl),
      false,
      true,
      Never,
      5000,
      UnspecifiedNameId)
  }

  /** The verify callback: the profile's attributes, with both Duo flags false. */
  function MapProfile(p: SamlProfile): (u: SamlUser)
    ensures !u.requiresDuo && !u.duoVerified
    ensures ProfileOf(u) == p
  {
    SamlUser(p.nameID, p.username, p.email, p.firstName, p.lastName, false, false)
  }

  /** Recovers the profile attributes from a mapped user. */
  function ProfileOf(u: SamlUser): SamlProfile {
    SamlProfile(u.id, u.username, u.email, u.firstName, u.lastName)
  }

  /** The strategy's validate: the profile is passed on unchanged. */
  function Validate(p: SamlProfile): (r: SamlProfile)
    ensures r == p
  {
    p
  }

  // ---------------------------------------------------------------------------
  // Properties

  /** The entry point built from the default server and realm. */
  lemma DefaultEntryPoint()
    ensures EntryPoint(DefaultKeycloakUrl, DefaultRealm) == "http://localhost:8080/realms/test-realm/protocol/saml"
  {
    assert "http://localhost:8080" + "/realms/" == "http://localhost:8080/realms/";
    assert "http://localhost:8080/realms/" + "test-realm" == "http://localhost:8080/realms/test-realm";
    assert "http://localhost:8080/realms/test-realm" + "/protocol/saml"
        == "http://localhost:8080/realms/test-realm/protocol/saml";
  }

  /** With nothing configured, every option takes its default. */
  lemma EmptyEnvGivesDefaults()
    ensures Options(map[]).entryPoint == "http://localhost:8080/realms/test-realm/protocol/saml"
    ensures Options(map[]).issuer == DefaultEntityId
    ensures Options(map[]).callbackUrl == DefaultCallbackUrl
  {
    assert KeycloakUrl(map[]) == DefaultKeycloakUrl;
    assert KeycloakRealm(map[]) == DefaultRealm;
    DefaultEntryPoint();
  }

  /** A value set to the empty string counts as absent (`||`, not `??`): the options are those without it. */
  lemma EmptyValueFallsBack(env: Env, key: string)
    requires key in env && env[key] == ""
    ensures Options(env) == Options(env - {key})
  {
    var env' := env - {key};
    assert forall k, d :: GetOr(env, k, d) == GetOr(env', k, d);
  }
}
