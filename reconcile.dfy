/**
 * The reconciliation of vault secrets against local state, as functions of the state
 * (packages/core/src/services/web-sync-service.ts). The classes in module WebSync change
 * this state in place and are specified by these functions.
 */
module Reconcile {
  import opened Types
  import opened Secrets
  import opened AwsSsoIntegrationModel

  /** The profile registry: each name's id, and the next id the registry will hand out. */
  datatype ProfileStore = ProfileStore(ids: map<string, ProfileId>, nextId: ProfileId)

  /** Every id was handed out before, and no two names share an id. */
  ghost predicate ProfileStoreValid(ps: ProfileStore) {
    (forall n :: n in ps.ids ==> ps.ids[n] < ps.nextId) &&
    (forall a, b :: a in ps.ids && b in ps.ids && a != b ==> ps.ids[a] != ps.ids[b])
  }

  /** All local state a synchronisation touches: sessions, profiles and SSO integrations. */
  datatype LocalState = LocalState(
    sessions: map<SessionId, Session>,
    profiles: ProfileStore,
    integrations: seq<AwsSsoIntegration>)

  /**
   * The registries' invariant: the profile registry is valid, every session is filed
   * under its own id, and every session is bound to a registered profile.
   */
  ghost predicate StateValid(st: LocalState) {
    ProfileStoreValid(st.profiles) &&
    forall k :: k in st.sessions ==>
      st.sessions[k].sessionId == k && st.sessions[k].profileId in st.profiles.ids.Values
  }

  datatype Merged = Merged(profile: Profile, store: ProfileStore)

  /**
   * `mergeProfileName`: the profile registered under `name`, or a new one with a fresh
   * id when there is none.
   */
  function MergeProfileName(ps: ProfileStore, name: string): (r: Merged)
    ensures r.profile.name == name
    ensures name in r.store.ids && r.store.ids[name] == r.profile.id
    ensures name in ps.ids ==> r.profile.id == ps.ids[name] && r.store == ps
    ensures name !in ps.ids ==> r.store.ids == ps.ids[name := r.profile.id]
    ensures ProfileStoreValid(ps) ==> ProfileStoreValid(r.store)
    ensures ProfileStoreValid(ps) && name !in ps.ids ==> r.profile.id !in ps.ids.Values
  {
    if name in ps.ids then
      Merged(Profile(ps.ids[name], name), ps)
    else
      Merged(Profile(ps.nextId, name), ProfileStore(ps.ids[name := ps.nextId], ps.nextId + 1))
  }

  datatype Setup = Setup(profileId: ProfileId, state: LocalState)

  /**
   * `setupAwsSession`: a session already filed under `sessionId` is deleted and its
   * profile id reused; otherwise the profile is merged by name.
   */
  function SetupAwsSession(st: LocalState, sessionId: SessionId, profileName: string): (r: Setup)
    ensures sessionId !in r.state.sessions
    ensures r.state.integrations == st.integrations
    ensures sessionId in st.sessions ==>
      r.state.sessions == st.sessions - {sessionId} &&
      r.profileId == st.sessions[sessionId].profileId &&
      r.state.profiles == st.profiles
    ensures sessionId !in st.sessions ==>
      r.state.sessions == st.sessions &&
      profileName in r.state.profiles.ids && r.state.profiles.ids[profileName] == r.profileId &&
      r.state.profiles == MergeProfileName(st.profiles, profileName).store
  {
    if sessionId in st.sessions then
      Setup(st.sessions[sessionId].profileId, st.(sessions := st.sessions - {sessionId}))
    else
      var merged := MergeProfileName(st.profiles, profileName);
      Setup(merged.profile.id, st.(profiles := merged.store))
  }

  /** The session a session secret's `create` call registers, bound to `profileId`. */
  function SessionFor(x: LocalSecret, profileId: ProfileId): Session
    requires x.IsSession()
  {
    if x.AwsIamUserSessionSecret? then
      AwsIamUserSession(x.sessionId, x.sessionName, x.region, profileId, x.accessKey, x.secretKey, x.mfaDevice)
    else
      AwsIamRoleChainedSession(
        x.sessionId, x.sessionName, x.region, profileId, x.roleArn, x.roleSessionName, x.parentSessionId)
  }

  /** The integration `createIntegration` records for an SSO secret; no expiration is known yet. */
  function IntegrationFor(x: LocalSecret): (i: AwsSsoIntegration)
    requires x.AwsSsoIntegrationSecret?
    ensures i.base.id == x.id && i.base.alias == x.alias && i.base.integrationType == AwsSso
    ensures i.portalUrl == x.portalUrl && i.region == x.region && i.browserOpening == x.browserOpening
    ensures i.accessTokenExpiration == None
  {
    NewAwsSsoIntegration(x.id, x.alias, x.portalUrl, x.region, x.browserOpening, None)
  }

  /**
   * `syncSecret`: an SSO secret registers an integration and nothing else; a session
   * secret reconciles its profile and then registers its session; any other tag
   * changes nothing.
   */
  function SyncSecret(st: LocalState, x: LocalSecret): (r: LocalState)
    ensures x.UnrecognizedSecret? ==> r == st
    ensures x.AwsSsoIntegrationSecret? ==>
      r.sessions == st.sessions && r.profiles == st.profiles &&
      r.integrations == st.integrations + [IntegrationFor(x)]
    ensures x.IsSession() ==>
      r.integrations == st.integrations &&
      x.sessionId in r.sessions &&
      r.sessions - {x.sessionId} == st.sessions - {x.sessionId} &&
      r.sessions[x.sessionId] == SessionFor(x, r.sessions[x.sessionId].profileId)
    ensures x.IsSession() && x.sessionId in st.sessions ==>
      r.sessions[x.sessionId].profileId == st.sessions[x.sessionId].profileId &&
      r.profiles == st.profiles
    ensures x.IsSession() && x.sessionId !in st.sessions ==>
      var merged := MergeProfileName(st.profiles, x.profileName);
      r.sessions[x.sessionId].profileId == merged.profile.id && r.profiles == merged.store
    ensures x.AwsIamUserSessionSecret? ==>
      var s := r.sessions[x.sessionId];
      s.AwsIamUserSession? && s.sessionId == x.sessionId && s.sessionName == x.sessionName &&
      s.accessKey == x.accessKey && s.secretKey == x.secretKey &&
      s.region == x.region && s.mfaDevice == x.mfaDevice
    ensures x.AwsIamRoleChainedSessionSecret? ==>
      var s := r.sessions[x.sessionId];
      s.AwsIamRoleChainedSession? && s.sessionId == x.sessionId && s.sessionName == x.sessionName &&
      s.region == x.region && s.roleArn == x.roleArn &&
      s.roleSessionName == x.roleSessionName && s.parentSessionId == x.parentSessionId
  {
    match x
    case AwsSsoIntegrationSecret(_, _, _, _, _) =>
      st.(integrations := st.integrations + [IntegrationFor(x)])
    case UnrecognizedSecret(_) =>
      st
    case _ =>
      var setup := SetupAwsSession(st, x.sessionId, x.profileName);
      var session := SessionFor(x, setup.profileId);
      setup.state.(sessions := setup.state.sessions[x.sessionId := session])
  }

  /** The integrations a list of secrets creates, in list order. */
  function IntegrationsCreated(ss: seq<LocalSecret>): seq<AwsSsoIntegration>
    decreases |ss|
  {
    if ss == [] then []
    else
      var x := ss[|ss| - 1];
      IntegrationsCreated(ss[..|ss| - 1]) + (if x.AwsSsoIntegrationSecret? then [IntegrationFor(x)] else [])
  }

  /**
   * The `for` loop of `syncSecrets`: the secrets processed one after another in vault
   * order, each seeing the state the ones before it left. Sessions are never lost
   * (a re-synced one is deleted and created again), a profile's id never changes once
   * assigned, and the SSO secrets' integrations are appended in order.
   */
  function SyncAll(st: LocalState, ss: seq<LocalSecret>): (r: LocalState)
    ensures r.integrations == st.integrations + IntegrationsCreated(ss)
    ensures st.sessions.Keys <= r.sessions.Keys
    ensures forall n :: n in st.profiles.ids ==> n in r.profiles.ids && r.profiles.ids[n] == st.profiles.ids[n]
    decreases |ss|
  {
    if ss == [] then st
    else SyncSecret(SyncAll(st, ss[..|ss| - 1]), ss[|ss| - 1])
  }
}
