/**
 * The records that flow through the synchronisation: the decrypted secrets the vault
 * returns, the local sessions and profiles they become, the signed-in user, and the
 * errors the opaque remote and cryptographic steps can raise.
 */
module Secrets {
  import opened Types

  type SessionId = string

  /** Profile identifiers; a counter stands in for the generated unique ids. */
  type ProfileId = nat

  /**
   * A decrypted vault secret, one variant per `secretType` tag the synchronisation
   * recognises (`awsSsoIntegration`, `awsIamUserSession`, `awsIamRoleChainedSession`),
   * and one for a payload whose tag is none of them.
   */
  datatype LocalSecret =
    | AwsSsoIntegrationSecret(
        id: string, alias: string, portalUrl: string, region: string, browserOpening: string)
    | AwsIamUserSessionSecret(
        sessionId: SessionId, sessionName: string, profileName: string,
        accessKey: string, secretKey: string, region: string, mfaDevice: Option<string>)
    | AwsIamRoleChainedSessionSecret(
        sessionId: SessionId, sessionName: string, profileName: string, region: string,
        roleArn: string, roleSessionName: string, parentSessionId: SessionId)
    | UnrecognizedSecret(secretType: string)
  {
    /** The two variants that become local sessions bound to a profile. */
    predicate IsSession() {
      AwsIamUserSessionSecret? || AwsIamRoleChainedSessionSecret?
    }
  }

  /** A local session as registered by its type's `create` call. */
  datatype Session =
    | AwsIamUserSession(
        sessionId: SessionId, sessionName: string, region: string, profileId: ProfileId,
        accessKey: string, secretKey: string, mfaDevice: Option<string>)
    | AwsIamRoleChainedSession(
        sessionId: SessionId, sessionName: string, region: string, profileId: ProfileId,
        roleArn: string, roleSessionName: string, parentSessionId: SessionId)

  /** A named profile. */
  datatype Profile = Profile(id: ProfileId, name: string)

  /** The signed-in user: the encoded RSA key pair and the bearer token. */
  datatype User = User(privateRSAKey: string, publicRSAKey: string, accessToken: string)

  /** The encoded key pair handed to the key import. */
  datatype RsaKeyJsonPair = RsaKeyJsonPair(privateKey: string, publicKey: string)

  /** An imported key, as an opaque handle. */
  datatype CryptoKey = CryptoKey(handle: string)

  datatype CryptoKeyPair = CryptoKeyPair(privateKey: CryptoKey, publicKey: CryptoKey)

  /** What the sign-in, the key import and the vault fetch can throw. */
  datatype SyncError = AuthenticationError | NetworkError | KeyImportError | DecryptionError
}
