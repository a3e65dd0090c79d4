/**
 * The AWS single-sign-on integration record (packages/core/src/models/aws/aws-sso-integration.ts).
 * The base class `Integration` is not part of this model; it is represented by the
 * four values the constructor hands to it.
 */
module AwsSsoIntegrationModel {
  import opened Types

  /**
   * The integration kinds: the SSO kind this constructor uses, and the kinds of the
   * other integrations, which are not part of this model.
   */
  datatype IntegrationType = AwsSso | OtherIntegrationType

  /** What the base `Integration` constructor receives: id, alias, type and the online flag. */
  datatype Integration = Integration(id: string, alias: string, integrationType: IntegrationType, isOnline: bool)

  /** An SSO integration: the base part plus the four fields the subclass stores itself. */
  datatype AwsSsoIntegration = AwsSsoIntegration(
    base: Integration,
    portalUrl: string,
    region: string,
    browserOpening: string,
    accessTokenExpiration: Option<string>)

  /**
   * The constructor: id and alias go to the base unchanged, together with the
   * constant type `awsSso` and the constant `false`; the other four arguments are
   * stored as given.
   */
  function NewAwsSsoIntegration(
    id: string, alias: string, portalUrl: string, region: string,
    browserOpening: string, accessTokenExpiration: Option<string>): (r: AwsSsoIntegration)
    ensures r.base.id == id && r.base.alias == alias
    ensures r.base.integrationType == AwsSso
    ensures !r.base.isOnline
    ensures r.portalUrl == portalUrl && r.region == region && r.browserOpening == browserOpening
    ensures r.accessTokenExpiration == accessTokenExpiration
  {
    AwsSsoIntegration(Integration(id, alias, AwsSso, false), portalUrl, region, browserOpening, accessTokenExpiration)
  }

  /**
   * The constructor loses nothing: two integrations it builds are equal exactly when
   * all six arguments are, so the arguments can be read back from the record.
   */
  lemma NewAwsSsoIntegrationInjective(
    id1: string, alias1: string, url1: string, region1: string, browser1: string, exp1: Option<string>,
    id2: string, alias2: string, url2: string, region2: string, browser2: string, exp2: Option<string>)
    ensures NewAwsSsoIntegration(id1, alias1, url1, region1, browser1, exp1)
              == NewAwsSsoIntegration(id2, alias2, url2, region2, browser2, exp2)
            <==> (id1, alias1, url1, region1, browser1, exp1) == (id2, alias2, url2, region2, browser2, exp2)
  {
  }
}
