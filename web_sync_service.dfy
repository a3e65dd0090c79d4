/**
 * The synchronisation service and the registries it changes, as objects updated in
 * place (packages/core/src/services/web-sync-service.ts). Each method is specified by
 * the matching function of module Reconcile on the state before the call.
 */
module WebSync {
  import opened Types
  import opened Secrets
  import opened AwsSsoIntegrationModel
  import opened Reconcile
  import ReconcileProperties

  /** The process-wide session registry, keyed by session id. */
  class SessionManagementService {
    var sessions: map<SessionId, Session>

    constructor (initial: map<SessionId, Session>)
      ensures sessions == initial
    {
      sessions := initial;
    }

    /** Lookup without side effects: the session filed under `sessionId`, if any. */
    function GetSessionById(sessionId: SessionId): (r: Option<Session>)
      reads this
      ensures r.Some? <==> sessionId in sessions
      ensures r.Some? ==> r.value == sessions[sessionId]
    {
      if sessionId in sessions then Some(sessions[sessionId]) else None
    }

    /** Removes the session; deleting an absent id changes nothing. */
    method Delete(sessionId: SessionId)
      modifies this
      ensures sessions == old(sessions) - {sessionId}
    {
      sessions := sessions - {sessionId};
    }

    /** Registers a session a `create` call built, under its own id. */
    method AddSession(session: Session)
      modifies this
      ensures sessions == old(sessions)[session.sessionId := session]
    {
      sessions := sessions[session.sessionId := session];
    }
  }

  /** The profile registry: names to ids, with fresh ids for new names. */
  class NamedProfilesService {
    var profiles: ProfileStore

    ghost predicate Valid()
      reads this
    {
      ProfileStoreValid(profiles)
    }

    constructor (initial: ProfileStore)
      requires ProfileStoreValid(initial)
      ensures Valid() && profiles == initial
    {
      profiles := initial;
    }

    /** Returns the profile named `name`, creating it with a fresh id when there is none. */
    method MergeProfileName(name: string) returns (profile: Profile)
      requires Valid()
      modifies this
      ensures Valid()
      ensures var merged := Reconcile.MergeProfileName(old(profiles), name);
              profile == merged.profile && profiles == merged.store
    {
      if name in profiles.ids {
        profile := Profile(profiles.ids[name], name);
      } else {
        profile := Profile(profiles.nextId, name);
        profiles := ProfileStore(profiles.ids[name := profiles.nextId], profiles.nextId + 1);
      }
    }
  }

  /** The arguments of `createIntegration`. */
  datatype AwsSsoIntegrationCreationParams = AwsSsoIntegrationCreationParams(
    alias: string, portalUrl: string, region: string, browserOpening: string, integrationId: string)

  /** The list of SSO integrations. */
  class AwsSsoIntegrationService {
    var integrations: seq<AwsSsoIntegration>

    constructor (initial: seq<AwsSsoIntegration>)
      ensures integrations == initial
    {
      integrations := initial;
    }

    /** Appends the integration the constructor builds from the parameters; no token expiration yet. */
    method CreateIntegration(params: AwsSsoIntegrationCreationParams)
      modifies this
      ensures integrations == old(integrations) + [NewAwsSsoIntegration(
        params.integrationId, params.alias, params.portalUrl, params.region, params.browserOpening, None)]
    {
      var integration := NewAwsSsoIntegration(
        params.integrationId, params.alias, params.portalUrl, params.region, params.browserOpening, None);
      integrations := integrations + [integration];
    }
  }

  /** The request options of the HTTP client: the headers to send, if any. */
  datatype RequestConfig = RequestConfig(headers: Option<map<string, string>>)

  /** The options once `accessToken` is known: one bearer authorization header. */
  function BearerConfig(accessToken: string): RequestConfig {
    RequestConfig(Some(map["Authorization" := "Bearer " + accessToken]))
  }

  /**
   * The key import and the vault fetch, given as the opaque steps they are: import the
   * user's encoded key pair, then fetch the secrets over the HTTP client configured by
   * `config` and decrypt them with the private key.
   */
  function FetchSecrets(
    user: User,
    config: RequestConfig,
    importRsaKeys: RsaKeyJsonPair -> Result<CryptoKeyPair, SyncError>,
    getSecrets: (RequestConfig, CryptoKey) -> Result<seq<LocalSecret>, SyncError>): Result<seq<LocalSecret>, SyncError>
  {
    match importRsaKeys(RsaKeyJsonPair(user.privateRSAKey, user.publicRSAKey))
    case Failure(e) => Failure(e)
    case Success(keys) => getSecrets(config, keys.privateKey)
  }

  /** The orchestrator: signs in, fetches the secrets and reconciles them one by one. */
  class WebSyncService {
    const sessionManagementService: SessionManagementService
    const namedProfilesService: NamedProfilesService
    const awsSsoIntegrationService: AwsSsoIntegrationService
    var currentUser: Option<User>

    /** The state of the three registries, as one value. */
    ghost function State(): LocalState
      reads sessionManagementService, namedProfilesService, awsSsoIntegrationService
    {
      LocalState(sessionManagementService.sessions, namedProfilesService.profiles, awsSsoIntegrationService.integrations)
    }

    constructor (
      sessionManagementService: SessionManagementService,
      namedProfilesService: NamedProfilesService,
      awsSsoIntegrationService: AwsSsoIntegrationService)
      ensures this.sessionManagementService == sessionManagementService
      ensures this.namedProfilesService == namedProfilesService
      ensures this.awsSsoIntegrationService == awsSsoIntegrationService
      ensures currentUser == None
    {
      this.sessionManagementService := sessionManagementService;
      this.namedProfilesService := namedProfilesService;
      this.awsSsoIntegrationService := awsSsoIntegrationService;
      currentUser := None;
    }

    /**
     * `syncSecrets`: the sign-in request goes out with the options of the user signed
     * in so far; the new user is recorded as soon as the sign-in succeeds, so the vault
     * fetch carries the new user's bearer token. A failing step leaves the registries as
     * they were and surfaces its error; otherwise the vault's list is processed in order
     * and returned unchanged.
     */
    method SyncSecrets(
      signIn: RequestConfig -> Result<User, SyncError>,
      importRsaKeys: RsaKeyJsonPair -> Result<CryptoKeyPair, SyncError>,
      getSecrets: (RequestConfig, CryptoKey) -> Result<seq<LocalSecret>, SyncError>)
      returns (r: Result<seq<LocalSecret>, SyncError>)
      requires namedProfilesService.Valid()
      modifies this, sessionManagementService, namedProfilesService, awsSsoIntegrationService
      ensures namedProfilesService.Valid()
      ensures old(StateValid(State())) ==> StateValid(State())
      ensures var signedIn := signIn(old(GetHttpClientConfig()));
              signedIn.Failure? ==>
                r == Failure(signedIn.error) && currentUser == old(currentUser) && State() == old(State())
      ensures var signedIn := signIn(old(GetHttpClientConfig()));
              signedIn.Success? ==>
                currentUser == Some(signedIn.value) && GetHttpClientConfig() == BearerConfig(signedIn.value.accessToken)
      ensures var signedIn := signIn(old(GetHttpClientConfig()));
              signedIn.Success? ==>
                var fetched := FetchSecrets(
                  signedIn.value, BearerConfig(signedIn.value.accessToken), importRsaKeys, getSecrets);
                r == fetched &&
                (fetched.Failure? ==> State() == old(State())) &&
                (fetched.Success? ==> State() == SyncAll(old(State()), fetched.value))
    {
      var signedIn := signIn(GetHttpClientConfig());
      if signedIn.Failure? {
        return Failure(signedIn.error);
      }
      currentUser := Some(signedIn.value);
      var rsaKeys := GetRsaKeys(signedIn.value, importRsaKeys);
      if rsaKeys.Failure? {
        return Failure(rsaKeys.error);
      }
      var fetched := getSecrets(GetHttpClientConfig(), rsaKeys.value.privateKey);
      if fetched.Failure? {
        return fetched;
      }
      var createSessionDtos := fetched.value;
      for i := 0 to |createSessionDtos|
        invariant namedProfilesService.Valid()
        invariant currentUser == Some(signedIn.value)
        invariant State() == SyncAll(old(State()), createSessionDtos[..i])
      {
        SyncSecret(createSessionDtos[i]);
        assert createSessionDtos[..i + 1][..i] == createSessionDtos[..i];
      }
      assert createSessionDtos[..|createSessionDtos|] == createSessionDtos;
      if old(StateValid(State())) {
        ReconcileProperties.SyncAllPreservesValid(old(State()), createSessionDtos);
      }
      return Success(createSessionDtos);
    }

    /** `syncSecret`: dispatch on the secret's tag; an unrecognised tag does nothing. */
    method SyncSecret(localSecret: LocalSecret)
      requires namedProfilesService.Valid()
      modifies sessionManagementService, namedProfilesService, awsSsoIntegrationService
      ensures namedProfilesService.Valid()
      ensures State() == Reconcile.SyncSecret(old(State()), localSecret)
    {
      match localSecret
      case AwsSsoIntegrationSecret(id, alias, portalUrl, region, browserOpening) =>
        awsSsoIntegrationService.CreateIntegration(
          AwsSsoIntegrationCreationParams(alias, portalUrl, region, browserOpening, id));
      case AwsIamUserSessionSecret(sessionId, sessionName, profileName, accessKey, secretKey, region, mfaDevice) =>
        var profileId := SetupAwsSession(sessionId, profileName);
        sessionManagementService.AddSession(
          AwsIamUserSession(sessionId, sessionName, region, profileId, accessKey, secretKey, mfaDevice));
      case AwsIamRoleChainedSessionSecret(
          sessionId, sessionName, profileName, region, roleArn, roleSessionName, parentSessionId) =>
        var profileId := SetupAwsSession(sessionId, profileName);
        sessionManagementService.AddSession(
          AwsIamRoleChainedSession(sessionId, sessionName, region, profileId, roleArn, roleSessionName, parentSessionId));
      case UnrecognizedSecret(_) =>
    }

    /**
     * `setupAwsSession`: reuse the profile of a session already filed under
     * `sessionId`, deleting that session, or else merge the profile by name.
     */
    method SetupAwsSession(sessionId: SessionId, profileName: string) returns (profileId: ProfileId)
      requires namedProfilesService.Valid()
      modifies sessionManagementService, namedProfilesService
      ensures namedProfilesService.Valid()
      ensures var setup := Reconcile.SetupAwsSession(old(State()), sessionId, profileName);
              profileId == setup.profileId && State() == setup.state
    {
      var localSession := sessionManagementService.GetSessionById(sessionId);
      if localSession.Some? {
        sessionManagementService.Delete(sessionId);
        profileId := localSession.value.profileId;
      } else {
        var profile := namedProfilesService.MergeProfileName(profileName);
        profileId := profile.id;
      }
    }

    /** `getRSAKeys`: hands the user's encoded key pair to the key import. */
    method GetRsaKeys(user: User, importRsaKeys: RsaKeyJsonPair -> Result<CryptoKeyPair, SyncError>)
      returns (keys: Result<CryptoKeyPair, SyncError>)
      ensures keys == importRsaKeys(RsaKeyJsonPair(user.privateRSAKey, user.publicRSAKey))
    {
      var rsaKeyJsonPair := RsaKeyJsonPair(user.privateRSAKey, user.publicRSAKey);
      keys := importRsaKeys(rsaKeyJsonPair);
    }

    /** `getHttpClientConfig`: a bearer header exactly when a user is set, no options before. */
    function GetHttpClientConfig(): (c: RequestConfig)
      reads this
      ensures c.headers.Some? <==> currentUser.Some?
      ensures currentUser.Some? ==>
        c.headers.value.Keys == {"Authorization"} &&
        c.headers.value["Authorization"] == "Bearer " + currentUser.value.accessToken
    {
      if currentUser.Some? then BearerConfig(currentUser.value.accessToken) else RequestConfig(None)
    }
  }
}
