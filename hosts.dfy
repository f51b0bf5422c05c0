/** The hostname filter of the per-module reports: the GA4 filter is an
    exact match against one hostname, or an OR of two. */
module Hosts {
  /** The hostnames a filter lets through. */
  datatype HostFilter = AnyOf(hosts: seq<string>)

  predicate Accepts(f: HostFilter, host: string) {
    host in f.hosts
  }

  const PortalModule := "portal"

  /** The portal's two hostnames. */
  const PortalHosts := ["glygen.org", "www.glygen.org"]

  /** `get_subdomain_filter` of the top-20 pages report: the portal's two
      hostnames, or `<module>.glygen.org` for any other module. */
  function PageHostFilter(moduleName: string): HostFilter {
    if moduleName != PortalModule then AnyOf([moduleName + ".glygen.org"]) else AnyOf(PortalHosts)
  }

  /** `get_subdomain_filter` of the referral and country reports: the
      portal's two hostnames, or the wiki for any other module. */
  function WikiHostFilter(moduleName: string): HostFilter {
    if moduleName != PortalModule then AnyOf(["wiki.glygen.org"]) else AnyOf(PortalHosts)
  }

  /** The portal accepts exactly its two hostnames, in both reports. */
  lemma PortalAccepts(host: string)
    ensures Accepts(PageHostFilter(PortalModule), host) <==> host == "glygen.org" || host == "www.glygen.org"
    ensures Accepts(WikiHostFilter(PortalModule), host) <==> host == "glygen.org" || host == "www.glygen.org"
  {
  }

  /** Any other module's pages report accepts exactly its own subdomain,
      and the subdomains of two modules never overlap. */
  lemma ModuleAccepts(moduleName: string, other: string, host: string)
    requires moduleName != PortalModule && other != PortalModule && moduleName != other
    ensures Accepts(PageHostFilter(moduleName), host) <==> host == moduleName + ".glygen.org"
    ensures !(Accepts(PageHostFilter(moduleName), host) && Accepts(PageHostFilter(other), host))
  {
    if host == moduleName + ".glygen.org" && host == other + ".glygen.org" {
      SuffixCancels(moduleName, other, ".glygen.org");
    }
  }

  /** The referral and country reports of every non-portal module read the
      same hostname, whatever the module's name. */
  lemma WikiIgnoresModule(moduleName: string, other: string, host: string)
    requires moduleName != PortalModule && other != PortalModule
    ensures Accepts(WikiHostFilter(moduleName), host) <==> host == "wiki.glygen.org"
    ensures WikiHostFilter(moduleName) == WikiHostFilter(other)
  {
  }

  lemma SuffixCancels(a: string, b: string, suffix: string)
    requires a + suffix == b + suffix
    ensures a == b
  {
    assert |a| == |b|;
    assert a == (a + suffix)[..|a|];
    assert b == (b + suffix)[..|b|];
  }
}
