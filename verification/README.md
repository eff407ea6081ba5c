# email_security_check — a verified model

`email_security_check.py` audits a domain's email-authentication set-up. It
takes one domain on the command line and runs four DNS checks in a fixed
order: MX, SPF, DKIM and DMARC. Each check prints its own verdict. This
project models that decision logic in Dafny and proves what the script
guarantees. The DNS resolver and the terminal are the script's
collaborators, and here they are explicit values.

- `dns.dfy` (module `Dns`): the resolver interface. A `Resolver` gives, for
  every query name, an `Answer` for MX and one for TXT. An answer is either
  the records returned in resolver order, `NoAnswer`, or `OtherError`
  carrying the message of any other exception.
- `query_names.dfy` (module `QueryNames`): the name each check queries. MX
  and SPF query the domain itself. DKIM queries
  `default._domainkey.<domain>`, the `_domainkey` namespace of section
  3.6.2.1 of RFC 6376 with a fixed `default` selector. DMARC queries
  `_dmarc.<domain>` (section 6.1 of RFC 7489).
- `markers.dfy` (module `Markers`): the marker scan. It walks the TXT
  records in resolver order and stops at the first one that contains
  `v=spf1`, `v=DKIM1` or `v=DMARC1`. The test is Python's `in`: a plain,
  case-sensitive substring test. It is not the version-prefix rule of the
  RFCs. `Contains` is proved equal to the substring predicate `Occurs`, and
  `ScanForMarker` (the loop) is proved equal to the first-match function
  `FirstMarked`.
- `outcomes.dfy` (module `Outcomes`): each check maps the resolver's answer
  to exactly one outcome:
  - `Found` when records came back. For TXT checks, `Found` needs a record
    with the marker.
  - `FoundInvalid` when records came back but none holds the marker.
  - `Absent` for `NoAnswer`.
  - `Error(message)` for any other exception.
- `report.dfy` (module `Report`): the printed report. Each printed line is
  an abstract `Line` value that keeps its kind and its data but not its
  wording. `Transcript` is everything a run prints. `IssuedQueries` is every
  resolver call a run makes. `Outline` is a report's skeleton of banner,
  blank lines and verdict lines.
- `session.dfy` (module `EmailSecurityCheck`): the script as a class
  `Session`. It holds the resolver, the log of queries made (`queries`) and
  the log of lines printed (`output`). Its methods mirror
  `query_mx_record`, the three TXT check functions and `main`. Each method
  says exactly how it extends both logs.

The three TXT check functions in the script are identical except for the
name they query, the marker they look for and their wording. They are
modelled by one method, `QueryTxtRecord`, parameterised by the check.

Two edge cases of the code, which the model follows:
- A TXT answer that is present but has no records yields Found-Invalid,
  because the loop runs zero times. It does not yield Absent. dnspython
  raises `NoAnswer` instead of returning an empty answer, so this case does
  not arise in practice. The same empty answer makes the MX check print its
  found line and no exchanger lines.
- NXDOMAIN on the queried name is not `NoAnswer`. It is reported as an
  error, like every exception other than `NoAnswer`.

## Model

| member | source | states |
|---|---|---|
| `QueryNames.QueryName` | email_security_check.py:11-61 | Builds the names of lines 11 (MX), 25 (SPF), 43 (DKIM) and 61 (DMARC). The domain is always the trailing part of the queried name. The name equals the bare domain exactly for MX and SPF, so DKIM and DMARC never query the bare domain. |
| `QueryNames.BareNameLabels` | email_security_check.py:11-25 | MX (line 11) and SPF (line 25) query `domain` itself. |
| `QueryNames.DkimNameLabels` | email_security_check.py:41-44 | DKIM queries exactly `"default." + "_domainkey." + domain`. |
| `QueryNames.DmarcNameLabels` | email_security_check.py:61-62 | DMARC queries exactly `"_dmarc." + domain`. |
| `QueryNames.QueryNameInjective` | email_security_check.py:43 | For a fixed check, the queried name determines the domain, so two domains never share a query. |
| `QueryNames.DerivedNamesDiffer` | email_security_check.py:43-61 | The DKIM name and the DMARC name never coincide, for any two domains. |
| `Markers.Marker` | email_security_check.py:27-64 | Each TXT check's marker is a `v=` version tag with a non-empty value (lines 27, 46 and 64). |
| `Markers.MarkerLiterals` | email_security_check.py:27-64 | The markers are exactly `v=spf1` (line 27), `v=DKIM1` (line 46) and `v=DMARC1` (line 64). |
| `Markers.Contains` | email_security_check.py:27 | The executable `marker in text` is true exactly when the marker occurs in the text as a contiguous, case-sensitive substring. |
| `Markers.FirstMarked` | email_security_check.py:26-29 | Returns the index of a record holding the marker, with no earlier record holding it. Returns None exactly when no record holds it. |
| `Markers.FirstMarkedUnique` | email_security_check.py:26-66 | The first match of the scans at lines 26-29, 45-48 and 63-66 is unique: any index that is a first match is the one `FirstMarked` returns. |
| `Markers.ScanForMarker` | email_security_check.py:26-66 | The loop of lines 26-29, 45-48 and 63-66 that returns at the first record containing the marker ends at the first matching index, or finds none exactly when no record matches. |
| `Markers.SpfMarkerExamples` | email_security_check.py:27 | `v=spf1 include:_spf.example.com` matches the SPF marker. `spf=v1` does not, and neither does `V=SPF1 -all`. |
| `Markers.DkimMarkerIsCaseSensitive` | email_security_check.py:46 | `V=dkim1; k=rsa` does not match the DKIM marker. `k=rsa; v=DKIM1` does, because the marker may occur anywhere in the text. |
| `Outcomes.MxOutcome` | email_security_check.py:10-19 | The MX check reports Found with all returned records in order, Absent exactly on NoAnswer, and Error with the exception's message on any other failure. It never reports Found-Invalid. |
| `Outcomes.TxtOutcome` | email_security_check.py:24-36 | Found(r) exactly when records came back and r is the first record holding the marker. Found-Invalid exactly when records came back and none holds it. Absent exactly on NoAnswer. Error with the exception's message otherwise. |
| `Outcomes.FoundRecordHoldsMarker` | email_security_check.py:64-65 | A reported DMARC/SPF/DKIM record is one the resolver returned, and it contains the marker. |
| `Outcomes.InvalidIsNotAbsent` | email_security_check.py:30-34 | Records without a match are never reported as Absent, and NoAnswer is never reported as Found-Invalid. |
| `Outcomes.SpfSingleRecordExample` | email_security_check.py:25-28 | A lone TXT record `v=spf1 -all` is reported as Found with exactly that text. |
| `Outcomes.FirstMatchWins` | email_security_check.py:45-48 | When the first record holds the marker, it is the one reported, whatever follows it. |
| `Report.ExchangerLines` | email_security_check.py:13-14 | The MX listing has one line per returned record and line i shows record i, so no record is dropped, reordered or duplicated. |
| `Report.MxTwoRecordsExample` | email_security_check.py:11-14 | Records `mail1.example.com` (10) and `mail2.example.com` (20) are listed after the found line, in that order. |
| `Report.MxLines` | email_security_check.py:12-19 | Every MX block starts with a verdict line for MX: the found line exactly for Found, the no-record line exactly for NoAnswer (followed by the recommendation, and nothing else), the error line exactly for an error. A Found block is the found line followed by exactly one line per returned record, record i on line i + 1. A recommendation line appears exactly after NoAnswer. An error block is the error line with the exception's message alone. |
| `Report.TxtLines` | email_security_check.py:24-74 | Every TXT block (lines 28-36, 47-55 and 65-74) starts with a verdict line for its check: the found line exactly for Found, the no-valid-record line exactly for Found-Invalid, the no-record line exactly for NoAnswer, the error line exactly for an error; Found-Invalid and Absent blocks are that line and their recommendation. A Found block is the single found line showing the record found. A recommendation line (of any kind) appears exactly for Found-Invalid and Absent, never after Found or an error, and its advice is the no-valid-record one exactly for Found-Invalid. An error block is the error line with the exception's message alone. |
| `Report.MxBlockOutline` | email_security_check.py:12-19 | An MX block holds exactly one verdict line, however many exchangers it lists. |
| `Report.TxtBlockOutline` | email_security_check.py:24-74 | A TXT block holds exactly one verdict line, so it reports at most one record. |
| `Report.AuditOf` | email_security_check.py:88-100 | The four outcomes of one run. MX is never Found-Invalid. A reported SPF record was returned for the domain itself and contains `v=spf1`. A reported DKIM record was returned for `default._domainkey.<domain>` and contains `v=DKIM1`. A reported DMARC record was returned for `_dmarc.<domain>` and contains `v=DMARC1`. |
| `Report.Transcript` | email_security_check.py:79-101 | The output is the usage line alone exactly when the argument count is not one domain. With one domain, the report opens with the banner naming the domain and a blank line, and ends with a blank line. |
| `Report.IssuedQueries` | email_security_check.py:88-100 | A wrong argument count issues no query. One domain issues four queries, and the DKIM and DMARC ones do not name the bare domain. |
| `Report.TranscriptOutline` | email_security_check.py:85-101 | Whatever the resolver answers, a one-domain run prints the banner, a blank line, then verdicts for MX, SPF, DKIM and DMARC in that order, each followed by exactly one blank line. A usage error prints no verdict. |
| `Report.ChecksAreIndependent` | email_security_check.py:87-101 | Each check's outcome depends only on the resolver's answer to its own query, so no failure in one check affects another. |
| `EmailSecurityCheck.Session.ResolveMx` | email_security_check.py:11 | The answer is the resolver's MX answer for the name. The call is logged, and nothing is printed. |
| `EmailSecurityCheck.Session.ResolveTxt` | email_security_check.py:25 | The answer is the resolver's TXT answer for the name. The call is logged, and nothing is printed. |
| `EmailSecurityCheck.Session.Emit` | email_security_check.py:12-101 | Printing appends exactly the given lines to the output, in order, and makes no DNS query. |
| `EmailSecurityCheck.Session.ListExchangers` | email_security_check.py:13-14 | The loop appends exactly the exchanger lines of the records, in order, and makes no query. |
| `EmailSecurityCheck.Session.QueryMxRecord` | email_security_check.py:8-19 | Makes one MX query for the domain. Its outcome is `MxOutcome` of the answer, and it prints exactly that outcome's MX block. |
| `EmailSecurityCheck.Session.QueryTxtRecord` | email_security_check.py:22-74 | Makes one TXT query for the check's derived name. Its outcome is `TxtOutcome` of the answer with the check's marker, and it prints exactly that outcome's block. |
| `EmailSecurityCheck.Session.Run` | email_security_check.py:77-101 | The exit status is 1 for an argument count other than one domain, and 0 otherwise. The queries made are `IssuedQueries`, none on a usage error. The lines printed are the `Transcript`: usage alone, or the banner then the four blocks in order. |

## Left out

- `dns.resolver.resolve` itself (network I/O in a library that is not part of this model). It is an injected `Resolver` value that answers each name deterministically for the whole run.
- How dnspython renders a TXT record through `str(txt)` (quoting, joining character-strings). Each record is an opaque string.
- The wording and colours of printed lines (`termcolor.colored`). Lines are abstract `Line` values that keep their kind and data.
- `sys.argv` and `sys.exit` beyond the argument-count rule: `Run` takes the command line as a sequence and returns the exit status.
- Exceptions raised after the resolver call inside a `try` (for instance while printing). These would also become error lines, and they are not modelled.
- Any SPF, DKIM or DMARC record parsing or validation under RFC 7208, RFC 6376 or RFC 7489. The script performs none, only the substring test.
