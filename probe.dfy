/** The account probe (extensions/nexus/src/probe.ts). It makes no
    connection: its answer depends on the configuration alone. */
module Probe {
  import opened Wrappers
  import opened BotTypes
  import Accounts

  datatype ProbeResult = ProbeResult(ok: bool, error: Option<string>, botId: Option<string>, botName: Option<string>)

  const NotConfigured: string := "Gateway not configured (serverUrl and botId required)"

  /** `probeGateway`: not configured without a non-empty server URL and bot
      id; otherwise success, echoing the bot's id and name. */
  function ProbeGateway(cfg: Option<GatewayConfig>): (r: ProbeResult)
    ensures r.ok <==> Accounts.ResolveGatewayCredentials(cfg).Some?
    ensures !r.ok ==> r == ProbeResult(false, Some(NotConfigured), None, None)
    ensures r.ok ==> r.error.None? && r.botId == cfg.value.botId && r.botName == cfg.value.botName
    ensures r.ok ==> r.botId == Some(Accounts.ResolveGatewayCredentials(cfg).value.botId)
  {
    if cfg.None? || !Accounts.Given(cfg.value.serverUrl) || !Accounts.Given(cfg.value.botId) then
      ProbeResult(false, Some(NotConfigured), None, None)
    else
      ProbeResult(true, None, cfg.value.botId, cfg.value.botName)
  }
}
