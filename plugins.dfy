/** Program start-up: Go runs the init() of every plugin file of the scanner
    package, in file-name order, before main; together they fill the registry.
    The geolocation, certificate, archive and registration probes talk to
    services outside the model, so their checks are parameters. */
module Plugins {
  import opened Http
  import opened Registry
  import CorePlugins
  import DnsPlugin
  import MethodsPlugin
  import RobotsPlugin
  import SecurityTxtPlugin
  import SocialsPlugin
  import TechPlugin

  /** The names the core, DNS and methods plugin files register. */
  const FirstNames: set<string> := {"missing_headers", "exposed_files", "dns_records", "http_methods"}

  /** The names the robots, security.txt, socials and tech plugin files register. */
  const RestNames: set<string> := {"robots_txt", "security_txt", "social_links", "tech_stack"}

  /** The names of the probes whose substance lies outside the model. */
  const ForeignNames: set<string> := {"geolocation", "ssl_certificate", "wayback_machine", "whois_info"}

  /** The names the plugin files register, twelve in all. */
  const PluginNames: set<string> := FirstNames + RestNames + ForeignNames

  const GeoDescription := "Locates the server IP geographically using ip-api.com"
  const SslDescription := "Analyzes SSL/TLS certificate details"
  const WaybackDescription := "Checks for historical snapshots on archive.org"
  const WhoisDescription := "Fetches domain registration data like Registrar and Expiry Dates"

  /** The registry once every init() has run, in file-name order, on the empty map. */
  function StartupChecks(net: Network, resolve: DnsPlugin.Resolver, geo: Check, ssl: Check, wayback: Check, whois: Check)
    : map<string, CheckDefinition>
  {
    map[]
      ["missing_headers" := CheckDefinition("missing_headers", CorePlugins.HeadersDescription, CorePlugins.HeadersProbe(net))]
      ["exposed_files" := CheckDefinition("exposed_files", CorePlugins.ExposedDescription, CorePlugins.ExposedProbe(net))]
      ["dns_records" := CheckDefinition("dns_records", DnsPlugin.DnsDescription, DnsPlugin.DnsProbe(resolve))]
      ["geolocation" := CheckDefinition("geolocation", GeoDescription, geo)]
      ["http_methods" := CheckDefinition("http_methods", MethodsPlugin.MethodsDescription, MethodsPlugin.MethodsProbe(net))]
      ["robots_txt" := CheckDefinition("robots_txt", RobotsPlugin.RobotsDescription, RobotsPlugin.RobotsProbe(net))]
      ["security_txt" := CheckDefinition("security_txt", SecurityTxtPlugin.SecurityTxtDescription, SecurityTxtPlugin.SecurityTxtProbe(net))]
      ["social_links" := CheckDefinition("social_links", SocialsPlugin.SocialsDescription, SocialsPlugin.SocialsProbe(net))]
      ["ssl_certificate" := CheckDefinition("ssl_certificate", SslDescription, ssl)]
      ["tech_stack" := CheckDefinition("tech_stack", TechPlugin.TechDescription, TechPlugin.TechProbe(net))]
      ["wayback_machine" := CheckDefinition("wayback_machine", WaybackDescription, wayback)]
      ["whois_info" := CheckDefinition("whois_info", WhoisDescription, whois)]
  }

  /** The init() of plugins_geo.go. */
  method RegisterGeo(registry: CheckRegistry, geo: Check)
    requires registry.Valid()
    modifies registry
    ensures registry.Valid()
    ensures registry.checks == old(registry.checks)["geolocation" := CheckDefinition("geolocation", GeoDescription, geo)]
  {
    registry.Register("geolocation", GeoDescription, geo);
  }

  /** The init() of plugins_ssl.go. */
  method RegisterSsl(registry: CheckRegistry, ssl: Check)
    requires registry.Valid()
    modifies registry
    ensures registry.Valid()
    ensures registry.checks == old(registry.checks)["ssl_certificate" := CheckDefinition("ssl_certificate", SslDescription, ssl)]
  {
    registry.Register("ssl_certificate", SslDescription, ssl);
  }

  /** The init() of plugins_wayback.go. */
  method RegisterWayback(registry: CheckRegistry, wayback: Check)
    requires registry.Valid()
    modifies registry
    ensures registry.Valid()
    ensures registry.checks == old(registry.checks)["wayback_machine" := CheckDefinition("wayback_machine", WaybackDescription, wayback)]
  {
    registry.Register("wayback_machine", WaybackDescription, wayback);
  }

  /** The init() of plugins_whois.go. */
  method RegisterWhois(registry: CheckRegistry, whois: Check)
    requires registry.Valid()
    modifies registry
    ensures registry.Valid()
    ensures registry.checks == old(registry.checks)["whois_info" := CheckDefinition("whois_info", WhoisDescription, whois)]
  {
    registry.Register("whois_info", WhoisDescription, whois);
  }

  /** Every plugin file's init(), in file-name order, on the empty registry the package starts with. */
  method RegisterAll(net: Network, resolve: DnsPlugin.Resolver, geo: Check, ssl: Check, wayback: Check, whois: Check)
    returns (registry: CheckRegistry)
    ensures fresh(registry) && registry.Valid()
    ensures registry.checks == StartupChecks(net, resolve, geo, ssl, wayback, whois)
    ensures registry.checks.Keys == PluginNames
    ensures registry.checks["missing_headers"].execute == CorePlugins.HeadersProbe(net)
    ensures registry.checks["exposed_files"].execute == CorePlugins.ExposedProbe(net)
    ensures registry.checks["dns_records"].execute == DnsPlugin.DnsProbe(resolve)
    ensures registry.checks["http_methods"].execute == MethodsPlugin.MethodsProbe(net)
    ensures registry.checks["robots_txt"].execute == RobotsPlugin.RobotsProbe(net)
    ensures registry.checks["security_txt"].execute == SecurityTxtPlugin.SecurityTxtProbe(net)
    ensures registry.checks["social_links"].execute == SocialsPlugin.SocialsProbe(net)
    ensures registry.checks["tech_stack"].execute == TechPlugin.TechProbe(net)
  {
    registry := new CheckRegistry();
    CorePlugins.Init(registry, net);
    DnsPlugin.Init(registry, resolve);
    RegisterGeo(registry, geo);
    MethodsPlugin.Init(registry, net);
    RobotsPlugin.Init(registry, net);
    SecurityTxtPlugin.Init(registry, net);
    SocialsPlugin.Init(registry, net);
    RegisterSsl(registry, ssl);
    TechPlugin.Init(registry, net);
    RegisterWayback(registry, wayback);
    RegisterWhois(registry, whois);
    StartupNames(net, resolve, geo, ssl, wayback, whois);
    StartupProbes(net, resolve, geo, ssl, wayback, whois);
  }

  /** After start-up the registry holds exactly the twelve plugin names. */
  lemma StartupNames(net: Network, resolve: DnsPlugin.Resolver, geo: Check, ssl: Check, wayback: Check, whois: Check)
    ensures StartupChecks(net, resolve, geo, ssl, wayback, whois).Keys == PluginNames
  {
  }

  /** Each of the eight modelled names runs its plugin's probe. */
  lemma StartupProbes(net: Network, resolve: DnsPlugin.Resolver, geo: Check, ssl: Check, wayback: Check, whois: Check)
    ensures StartupChecks(net, resolve, geo, ssl, wayback, whois)["missing_headers"].execute == CorePlugins.HeadersProbe(net)
    ensures StartupChecks(net, resolve, geo, ssl, wayback, whois)["exposed_files"].execute == CorePlugins.ExposedProbe(net)
    ensures StartupChecks(net, resolve, geo, ssl, wayback, whois)["dns_records"].execute == DnsPlugin.DnsProbe(resolve)
    ensures StartupChecks(net, resolve, geo, ssl, wayback, whois)["http_methods"].execute == MethodsPlugin.MethodsProbe(net)
    ensures StartupChecks(net, resolve, geo, ssl, wayback, whois)["robots_txt"].execute == RobotsPlugin.RobotsProbe(net)
    ensures StartupChecks(net, resolve, geo, ssl, wayback, whois)["security_txt"].execute == SecurityTxtPlugin.SecurityTxtProbe(net)
    ensures StartupChecks(net, resolve, geo, ssl, wayback, whois)["social_links"].execute == SocialsPlugin.SocialsProbe(net)
    ensures StartupChecks(net, resolve, geo, ssl, wayback, whois)["tech_stack"].execute == TechPlugin.TechProbe(net)
  {
  }

  /** Each of the four outside probes runs the check it was given, under the source's description. */
  lemma StartupForeign(net: Network, resolve: DnsPlugin.Resolver, geo: Check, ssl: Check, wayback: Check, whois: Check)
    ensures StartupChecks(net, resolve, geo, ssl, wayback, whois)["geolocation"] == CheckDefinition("geolocation", GeoDescription, geo)
    ensures StartupChecks(net, resolve, geo, ssl, wayback, whois)["ssl_certificate"] == CheckDefinition("ssl_certificate", SslDescription, ssl)
    ensures StartupChecks(net, resolve, geo, ssl, wayback, whois)["wayback_machine"] == CheckDefinition("wayback_machine", WaybackDescription, wayback)
    ensures StartupChecks(net, resolve, geo, ssl, wayback, whois)["whois_info"] == CheckDefinition("whois_info", WhoisDescription, whois)
  {
  }
}
