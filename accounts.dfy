/** Reading the plugin's account out of the host configuration
    (extensions/nexus/src/accounts.ts). The plugin has a single account,
    whose id is the host SDK's default account id. */
module Accounts {
  import opened Wrappers
  import opened BotTypes

  /** `DEFAULT_ACCOUNT_ID` of the host SDK. */
  const DefaultAccountId: string := "default"

  /** What the monitor needs to connect. */
  datatype Credentials = Credentials(serverUrl: string, botId: string, token: Option<string>)

  /** A present, non-empty string: JavaScript truthiness of an optional
      string field. */
  predicate Given(s: Option<string>) {
    s.Some? && s.value != ""
  }

  /** `resolveGatewayCredentials`: nothing unless the section is present
      with a non-empty `serverUrl` and `botId`; otherwise those two and the
      token, copied unchanged. */
  function ResolveGatewayCredentials(cfg: Option<GatewayConfig>): (r: Option<Credentials>)
    ensures r.Some? <==> cfg.Some? && Given(cfg.value.serverUrl) && Given(cfg.value.botId)
    ensures r.Some? ==> r.value.serverUrl != "" && r.value.botId != ""
    ensures r.Some? ==> Some(r.value.serverUrl) == cfg.value.serverUrl && Some(r.value.botId) == cfg.value.botId
    ensures r.Some? ==> r.value.token == cfg.value.token
  {
    if cfg.None? || !Given(cfg.value.serverUrl) || !Given(cfg.value.botId) then None
    else Some(Credentials(cfg.value.serverUrl.value, cfg.value.botId.value, cfg.value.token))
  }

  /** What the host is told about the account. */
  datatype ResolvedAccount = ResolvedAccount(
    accountId: string, enabled: bool, configured: bool, serverUrl: Option<string>, botId: Option<string>)

  /** `resolveGatewayAccount`: the default account, enabled only when the
      section says `enabled: true`, configured exactly when credentials
      resolve, with the section's server URL and bot id echoed. */
  function ResolveGatewayAccount(cfg: Fields): (r: ResolvedAccount)
    ensures r.accountId == DefaultAccountId
    ensures r.enabled <==> NexusSection(cfg).Some? && NexusSection(cfg).value.enabled == Some(true)
    ensures r.configured <==> ResolveGatewayCredentials(NexusSection(cfg)).Some?
    ensures NexusSection(cfg).None? ==> r.serverUrl.None? && r.botId.None?
    ensures NexusSection(cfg).Some? ==> r.serverUrl == NexusSection(cfg).value.serverUrl && r.botId == NexusSection(cfg).value.botId
  {
    var section := NexusSection(cfg);
    ResolvedAccount(
      DefaultAccountId,
      if section.Some? && section.value.enabled.Some? then section.value.enabled.value else false,
      ResolveGatewayCredentials(section).Some?,
      if section.Some? then section.value.serverUrl else None,
      if section.Some? then section.value.botId else None)
  }

  /** A configured account has a server URL and a bot id to report. */
  lemma ConfiguredHasEndpoint(cfg: Fields)
    requires ResolveGatewayAccount(cfg).configured
    ensures ResolveGatewayAccount(cfg).serverUrl.Some? && ResolveGatewayAccount(cfg).serverUrl.value != ""
    ensures ResolveGatewayAccount(cfg).botId.Some? && ResolveGatewayAccount(cfg).botId.value != ""
  {
  }
}
