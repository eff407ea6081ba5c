/**
 * Which DNS name each of the four checks queries.
 *
 * MX and SPF ask about the domain itself; DKIM asks about the fixed
 * selector `default` under the `_domainkey` namespace of the domain
 * (section 3.6.2.1 of RFC 6376); DMARC asks about `_dmarc` under the
 * domain (section 6.1 of RFC 7489). No normalisation is applied to the
 * domain: it is used exactly as given on the command line.
 */
module QueryNames {

  /** The four checks, in the order the script runs them. */
  datatype Check = Mx | Spf | Dkim | Dmarc

  /** The checks that look at TXT records for a version marker. */
  type TxtCheck = c: Check | !c.Mx? witness Spf

  /** The only DKIM selector the script tries. */
  const DkimSelector: string := "default"

  /** The name that check `check` queries for `domain`. */
  function QueryName(check: Check, domain: string): (name: string)
    // the domain is always the trailing part of the name queried
    ensures |domain| <= |name| && name[|name| - |domain|..] == domain
    // only MX and SPF query the bare domain
    ensures name == domain <==> check.Mx? || check.Spf?
  {
    match check
    case Mx => domain
    case Spf => domain
    case Dkim => DkimSelector + "._domainkey." + domain
    case Dmarc => "_dmarc." + domain
  }

  /** The exact names, label by label: MX and SPF ask about the domain itself. */
  lemma BareNameLabels(domain: string)
    ensures QueryName(Mx, domain) == domain
    ensures QueryName(Spf, domain) == domain
  {
  }

  /** DKIM asks about the `default` selector in the `_domainkey` namespace of the domain. */
  lemma DkimNameLabels(domain: string)
    ensures QueryName(Dkim, domain) == "default." + "_domainkey." + domain
  {
  }

  /** DMARC asks about `_dmarc` under the domain. */
  lemma DmarcNameLabels(domain: string)
    ensures QueryName(Dmarc, domain) == "_dmarc." + domain
  {
  }

  /** A check never confuses two domains: the name it queries determines the domain. */
  lemma QueryNameInjective(check: Check, d1: string, d2: string)
    requires QueryName(check, d1) == QueryName(check, d2)
    ensures d1 == d2
  {
  }

  /** The DKIM and DMARC names are distinct from each other for every domain. */
  lemma DerivedNamesDiffer(d1: string, d2: string)
    ensures QueryName(Dkim, d1) != QueryName(Dmarc, d2)
  {
    var dkim, dmarc := QueryName(Dkim, d1), QueryName(Dmarc, d2);
    assert dkim[0] == 'd';
    assert dmarc[0] == '_';
  }
}
