/** When a link that the URL validator accepts is recorded as bad. */
module UrlPolicy {
  import opened LinkTypes

  /** The connect timeout actually set: none for a negative setting (the
      system default stays), otherwise the setting itself (0 waits forever). */
  function ConnectTimeout(timeout: int): (t: Option<nat>)
    ensures t.Some? <==> timeout >= 0
    ensures t.Some? ==> t.value == timeout
  {
    if timeout >= 0 then Some(timeout) else None
  }

  /** A HEAD response that shows the URL is alive: 200, or a 3xx code that
      the connection did not follow by itself. */
  predicate ProbeOk(outcome: Probe) {
    outcome.Status? && (outcome.code == 200 || 300 <= outcome.code < 400)
  }

  /** Some configured pattern matches the whole host. */
  predicate HostIgnored(regexs: seq<string>, w: World, host: string) {
    exists re :: re in regexs && w.matches(host, re)
  }

  /** The link is recorded as bad: each flag of the policy turns one reason
      on, and the HEAD probe is only a reason when no exclusion applies. */
  function UrlIsBad(p: Policy, w: World, link: string): (bad: bool)
    // with every flag off nothing is bad
    ensures bad ==> p.failOnBadUrls || p.failOnLocalHost || p.failOnIgnoredHost
    // an unparsable URL is bad exactly when bad URLs fail
    ensures w.parseUrl(link).Malformed? ==> (bad <==> p.failOnBadUrls)
    // a protocol outside the http family is never bad
    ensures w.parseUrl(link).Url? && !("http" <= w.parseUrl(link).protocol) ==> !bad
    // literal localhost decides before the ignore patterns are looked at
    ensures w.parseUrl(link).Url? && "http" <= w.parseUrl(link).protocol && w.parseUrl(link).host == "localhost"
      ==> (bad <==> p.failOnLocalHost)
    ensures w.parseUrl(link).Url? && "http" <= w.parseUrl(link).protocol && w.parseUrl(link).host != "localhost"
      && HostIgnored(p.ignoreHostRegexs, w, w.parseUrl(link).host)
      ==> (bad <==> p.failOnIgnoredHost)
    // a probed URL is bad exactly when the response fails and bad URLs fail
    ensures w.parseUrl(link).Url? && "http" <= w.parseUrl(link).protocol && w.parseUrl(link).host != "localhost"
      && !HostIgnored(p.ignoreHostRegexs, w, w.parseUrl(link).host)
      ==> (bad <==> p.failOnBadUrls && !ProbeOk(w.probe(link, ConnectTimeout(p.connectionTimeout))))
  {
    var u := w.parseUrl(link);
    var http := u.Url? && "http" <= u.protocol;
    var local := http && u.host == "localhost";
    var ignored := http && !local && HostIgnored(p.ignoreHostRegexs, w, u.host);
    var probed := http && !local && !ignored;
    (p.failOnLocalHost && local)
    || (p.failOnIgnoredHost && ignored)
    || (p.failOnBadUrls && (u.Malformed? || (probed && !ProbeOk(w.probe(link, ConnectTimeout(p.connectionTimeout))))))
  }

  /** Only a URL that passes every exclusion is probed: the verdict for any
      other URL is the same whatever the network would answer. */
  lemma NoProbeWhenExcluded(p: Policy, w: World, link: string, other: (string, Option<nat>) -> Probe)
    requires w.parseUrl(link).Url? ==>
      !("http" <= w.parseUrl(link).protocol) || w.parseUrl(link).host == "localhost"
      || HostIgnored(p.ignoreHostRegexs, w, w.parseUrl(link).host)
    ensures UrlIsBad(p, w, link) == UrlIsBad(p, w.(probe := other), link)
  {
    var w' := w.(probe := other);
    if w.parseUrl(link).Url? {
      assert HostIgnored(p.ignoreHostRegexs, w, w.parseUrl(link).host)
         == HostIgnored(p.ignoreHostRegexs, w', w'.parseUrl(link).host);
    }
  }

  /** A negative connect-timeout setting leaves the system default in place,
      so every negative setting gives the same verdict. */
  lemma NegativeTimeoutsAgree(p: Policy, w: World, link: string, t1: int, t2: int)
    requires t1 < 0 && t2 < 0
    ensures UrlIsBad(p.(connectionTimeout := t1), w, link) == UrlIsBad(p.(connectionTimeout := t2), w, link)
  {
  }
}
