# Secret synchronisation and reconciliation of a cloud-credential desktop manager

This project models the web synchronisation engine of the Leapp credential manager
in Dafny and proves properties of that model. The engine signs a user in and imports
their RSA key pair. It then fetches the decrypted secrets from the remote vault and
turns each secret, in vault order, into local state:

- an SSO secret becomes an entry in the integration list;
- an IAM-user or role-chained secret becomes a session in the session registry,
  bound to a profile in the profile registry.

The heart of it is the reconciliation rule `setupAwsSession`:

- a session already filed under the secret's session id is deleted, and its profile id is reused;
- otherwise the profile is found or created by name (`mergeProfileName`).

The project has two layers:

- `reconcile.dfy` (module `Reconcile`) states the engine as functions of one value,
  `LocalState`, which holds the sessions, the profiles and the integrations.
- `web_sync_service.dfy` (module `WebSync`) has the classes that change that state in
  place: `WebSyncService` with its `currentUser` field, and the three registries it
  writes to. The postconditions of `WebSyncService.SyncSecrets`, `SyncSecret`,
  `SetupAwsSession` and `NamedProfilesService.MergeProfileName` equate the new state
  with the matching `Reconcile` function applied to the old state. The registry
  primitives (`SessionManagementService.Delete` and `AddSession`,
  `AwsSsoIntegrationService.CreateIntegration`) state their new map or list directly.
  `SyncSecrets` keeps the source's `for` loop, and its invariant says that the
  registries equal the model of the prefix of the list processed so far.

`reconcile_properties.dfy` (module `ReconcileProperties`) proves the promised
properties about the functions:

- the loop is sequential composition;
- the registries' invariant is preserved;
- profiles are merged by name;
- for each session id, the last secret wins;
- re-syncing the same list leaves sessions and profiles unchanged.

`aws_sso_integration.dfy` models the SSO integration record and its constructor.
`secrets.dfy` holds the data model, and `types.dfy` holds `Option` and `Result`.

Modelling choices:

- Sign-in, key import and the vault fetch with its decryption are opaque. `SyncSecrets`
  receives each of them as a total function that returns a `Result`, so each can fail
  with the error it would throw. The sign-in and the fetch go through the HTTP client,
  which reads `getHttpClientConfig()` when a request is made
  (packages/core/src/services/web-sync-service.ts:36-39). So both functions receive the
  request options in force at that moment: the sign-in gets those of the user signed in
  before, if any, and the fetch gets the new user's bearer token.
- Generated unique profile ids are modelled by a counter in the profile registry
  (`ProfileStore.nextId`). The registry's invariant keeps every id below the counter,
  so a new id is fresh.
- The code of `SessionManagementService`, `NamedProfilesService`,
  `AwsSsoIntegrationService`, the per-type session services and `SessionFactory` is
  not part of this model. What they do is assumed, as follows:
  - `getSessionById` is a lookup;
  - `delete` removes exactly that entry and is a no-op on an absent id;
  - a session service's `create` always succeeds and registers the session under the
    `sessionId` it is given;
  - `mergeProfileName` is find-or-create;
  - `createIntegration` appends the integration built by the `AwsSsoIntegration`
    constructor, with the integration id it is given and no token expiration. This
    last assumption is a modelling choice; nothing in the model's source states it.
- An absent value (`undefined`) is `None`. So `accessTokenExpiration` and the IAM-user
  `mfaDevice` are `Option<string>`.
- The base `Integration` constructor is not part of this model. Its four arguments are
  recorded as a value; the fourth, always `false`, is named `isOnline` here.
- An unrecognised `secretType` could be expected to raise a validation error. The
  code's `if`/`else if` chain has no final `else`, though, so such a secret is
  silently skipped. The model follows the code: `SyncSecret` maps
  `UnrecognizedSecret` to the unchanged state, and `SyncAllSkipsUnrecognized` proves
  that such a secret can be dropped from the list without any effect.

## Model

| member | source | states |
|---|---|---|
| `AwsSsoIntegrationModel.NewAwsSsoIntegration` | packages/core/src/models/aws/aws-sso-integration.ts:5-14 | id and alias reach the base unchanged; the type is always `awsSso` and the fourth base argument always `false`; portal URL, region, browser opening and expiration are stored as given |
| `AwsSsoIntegrationModel.NewAwsSsoIntegrationInjective` | packages/core/src/models/aws/aws-sso-integration.ts:5-14 | two constructed integrations are equal exactly when their six arguments are, so nothing is lost |
| `Reconcile.MergeProfileName` | packages/core/src/services/web-sync-service.ts:101 | returns the profile registered under the name, unchanged registry, if there is one; otherwise registers the name with an id not used by any profile; the registry invariant is kept |
| `Reconcile.SetupAwsSession` | packages/core/src/services/web-sync-service.ts:95-103 | existing session: it is removed, the id returned is its profile id, profiles unchanged; no session: no session removed, the id returned is the one registered under the profile name by the merge |
| `Reconcile.IntegrationFor` | packages/core/src/services/web-sync-service.ts:57-65 | the integration created for an SSO secret has the secret's id as integration id and its alias, portal URL, region and browser opening, type `awsSso`, no expiration |
| `Reconcile.SyncSecret` | packages/core/src/services/web-sync-service.ts:56-93 | SSO secret: only the integration list grows by its integration; IAM-user secret: a session with sessionId, sessionName, accessKey, secretKey, region, mfaDevice copied and the profile id of `setupAwsSession`; role-chained secret: likewise with region, roleArn, roleSessionName and parentSessionId copied; no other session changes; unrecognised tag: nothing changes |
| `Reconcile.SyncAll` | packages/core/src/services/web-sync-service.ts:50-52 | processing in order appends the SSO integrations in list order, never removes a session, and never changes a profile's id once assigned |
| `ReconcileProperties.MergeProfileNameIdempotent` | packages/core/src/services/web-sync-service.ts:101 | merging a name twice returns the same profile and the second merge changes nothing |
| `ReconcileProperties.MergeDistinctNames` | packages/core/src/services/web-sync-service.ts:101 | in a valid registry two different names get two different ids |
| `ReconcileProperties.SetupSameNameSameProfile` | packages/core/src/services/web-sync-service.ts:100-101 | two first-time setups with the same profile name return the same id, and the second creates no profile |
| `ReconcileProperties.SetupAwsSessionPreservesValid` | packages/core/src/services/web-sync-service.ts:95-103 | the registries' invariant (unique names and ids, sessions filed under their id and bound to a registered profile) survives a setup |
| `ReconcileProperties.SyncSecretPreservesValid` | packages/core/src/services/web-sync-service.ts:56-93 | the registries' invariant survives one secret |
| `ReconcileProperties.SyncSecretTwice` | packages/core/src/services/web-sync-service.ts:95-103 | re-syncing an unchanged session secret leaves exactly the state one sync left: one session with that id, its original profile, no new profile |
| `ReconcileProperties.SyncAllAppend` | packages/core/src/services/web-sync-service.ts:50-52 | processing `a + b` is processing `b` from the state `a` left, so each secret sees every change of the secrets before it |
| `ReconcileProperties.SyncAllSkipsUnrecognized` | packages/core/src/services/web-sync-service.ts:56-93 | a secret with an unrecognised tag can be removed anywhere from the list without changing the outcome |
| `ReconcileProperties.SyncAllPreservesValid` | packages/core/src/services/web-sync-service.ts:46-54 | the registries' invariant survives a whole synchronisation |
| `ReconcileProperties.LastSessionSecret` | packages/core/src/services/web-sync-service.ts:50-52 | the secret found is a session secret with the requested id that stands in the list with no later session secret for that id; none is found only when no session secret in the list has that id |
| `ReconcileProperties.FirstSessionSecret` | packages/core/src/services/web-sync-service.ts:50-52 | the secret found is a session secret with the requested id that stands in the list with no earlier session secret for that id; none is found only when no session secret in the list has that id |
| `ReconcileProperties.SyncAllLastWins` | packages/core/src/services/web-sync-service.ts:50-52 | after a sync, each session id named by the list holds the session built from the last secret naming it; every other session is untouched |
| `ReconcileProperties.SyncAllKeepsBindings` | packages/core/src/services/web-sync-service.ts:95-99 | a session registered before a sync, whatever the list holds, is still registered afterwards and bound to the same profile |
| `ReconcileProperties.SyncAllCoveredKeepsBindings` | packages/core/src/services/web-sync-service.ts:95-99 | when every session id of the list is already registered, a sync creates no profile, adds no session id and keeps every session's profile |
| `ReconcileProperties.ResyncIsStable` | packages/core/src/services/web-sync-service.ts:46-54 | syncing the same list a second time leaves sessions and profiles exactly as after the first; the integration list grows by the same integrations once more |
| `ReconcileProperties.FirstNameBinds` | packages/core/src/services/web-sync-service.ts:50-52 | a session id not registered before a sync ends bound to the profile registered under the profile name of the first secret in the list naming it |
| `ReconcileProperties.SameProfileNameSharesProfile` | packages/core/src/services/web-sync-service.ts:50-52 | anywhere in a list, two session secrets that are the first for their new session ids and share a profile name are bound to one profile, the one registered under that name |
| `ReconcileProperties.DifferentProfileNamesSeparateProfiles` | packages/core/src/services/web-sync-service.ts:50-52 | anywhere in a list, two session secrets that are the first for their new session ids and have different profile names are bound to different profiles |
| `ReconcileProperties.EndToEndScenario` | packages/core/src/services/web-sync-service.ts:50-91 | an IAM-user secret `s1` and a role-chained secret `s2` with parent `s1`, both for profile `dev`, give two sessions on one profile, and `s2` keeps parent `s1` |
| `WebSync.SessionManagementService.GetSessionById` | packages/core/src/services/web-sync-service.ts:96 | returns a session exactly when one is filed under the id, and that session |
| `WebSync.SessionManagementService.Delete` | packages/core/src/services/web-sync-service.ts:98 | the registry afterwards is the old one without that id |
| `WebSync.SessionManagementService.AddSession` | packages/core/src/services/web-sync-service.ts:70-91 | the session is filed under its own id, nothing else changes |
| `WebSync.NamedProfilesService.MergeProfileName` | packages/core/src/services/web-sync-service.ts:101 | the profile returned and the new registry are those of `Reconcile.MergeProfileName` on the old registry; the invariant is kept |
| `WebSync.AwsSsoIntegrationService.CreateIntegration` | packages/core/src/services/web-sync-service.ts:59-65 | the list afterwards is the old list plus the integration the constructor builds from the parameters |
| `WebSync.WebSyncService.SyncSecrets` | packages/core/src/services/web-sync-service.ts:46-54 | the sign-in is sent with the options in force before the call; a failed sign-in changes nothing and surfaces its error; once signed in the user is recorded and the vault fetch is made with that user's bearer header; a failing key import or fetch surfaces its error with the registries unchanged; otherwise the registries equal `SyncAll` of the old state over the fetched list, which is returned unchanged |
| `WebSync.WebSyncService.SyncSecret` | packages/core/src/services/web-sync-service.ts:56-93 | the new registries equal `Reconcile.SyncSecret` of the old ones |
| `WebSync.WebSyncService.SetupAwsSession` | packages/core/src/services/web-sync-service.ts:95-103 | the id returned and the new registries are those of `Reconcile.SetupAwsSession` on the old registries |
| `WebSync.WebSyncService.GetHttpClientConfig` | packages/core/src/services/web-sync-service.ts:110-117 | headers exist exactly when a user is set, and then they are the single header `Authorization: Bearer <accessToken>` |

## Left out

- RSA key import and decryption (the `EncryptionProvider` over Web Crypto) are a foreign cryptographic backend. The key import and the vault fetch are opaque parameters of `SyncSecrets`.
- WebSync.WebSyncService.GetRsaKeys: only hands the user's encoded key pair to the opaque key import (packages/core/src/services/web-sync-service.ts:105-108). So its contract says no more than that.
- The sign-in and vault requests over HTTP (axios, the `localhost:3000` endpoint) are network I/O. Only the header-selection rule of `getHttpClientConfig` is kept.
- `async`/`await`: each awaited call is an ordinary sequential step.
- Errors thrown by a session service's `create` (for example, the validation of required fields) are not modelled, because those services are not part of this model. Every `create` call is taken to succeed. In the source, a `create` that throws after the `delete` at packages/core/src/services/web-sync-service.ts:98 leaves that session deleted. `SyncAll`'s "never removes a session", `SyncAllKeepsBindings` and `ResyncIsStable` rest on this assumption.
- `SyncAllLastWins` and `ResyncIsStable` also rest on the assumption that `delete` removes exactly the one entry.
- The `sessionService` argument of `setupAwsSession` is not modelled. Its `delete` of both session types is modelled as removal from the session registry. Anything more it may do, such as stopping an active session or removing stored keys, belongs to services that are not part of this model.
- `SessionFactory.getSessionService` is not modelled as a separate dispatch. The variant of the session that is registered records which service's `create` was called.
- The generated unique profile ids are modelled by a counter (see above). Randomness is not modelled.
- The discriminator strings of `SecretType` are not modelled. Each recognised tag is a variant of `LocalSecret`. A secret whose tag matches none of them is `UnrecognizedSecret`, whatever its other fields.
- The commented-out `isOnline` getter of the SSO integration is dead code and reads the clock, so it is not modelled.
