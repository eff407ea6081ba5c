/**
 * How each check classifies what the resolver did.
 *
 * Every check catches exactly two kinds of exception around its resolver
 * call: `NoAnswer`, which becomes Absent, and any other exception, which
 * becomes Error carrying the exception's text. Nothing escapes a check.
 * When records come back, MX reports all of them; a TXT check reports the
 * first record holding its marker, or Found-Invalid when none does.
 */
module Outcomes {
  import opened Dns
  import opened Markers

  /** What one check concludes; `D` is what a successful check reports. */
  datatype Outcome<+D> =
    | Found(detail: D)
    | FoundInvalid
    | Absent
    | Error(message: string)

  /** The outcome of the MX check (lines 10-19 of the script). */
  function MxOutcome(answer: Answer<MxRecord>): (o: Outcome<seq<MxRecord>>)
    // every returned record is reported, in resolver order
    ensures o.Found? <==> answer.Records?
    ensures o.Found? ==> o.detail == answer.records
    ensures o.Absent? <==> answer.NoAnswer?
    ensures o.Error? <==> answer.OtherError?
    ensures o.Error? ==> o.message == answer.message
    // the MX check has no notion of an invalid record
    ensures !o.FoundInvalid?
  {
    match answer
    case Records(rs) => Found(rs)
    case NoAnswer => Absent
    case OtherError(m) => Error(m)
  }

  /** The outcome of a TXT check looking for `marker`. */
  function TxtOutcome(answer: Answer<string>, marker: string): (o: Outcome<string>)
    // Found with record r exactly when r is the first record holding the marker
    ensures o.Found? <==> answer.Records? && exists k: nat :: IsFirstMarked(answer.records, marker, k)
    ensures o.Found? ==> exists k: nat :: IsFirstMarked(answer.records, marker, k) && o.detail == answer.records[k]
    // records came back, but none holds the marker
    ensures o.FoundInvalid? <==> answer.Records? && NoneMarked(answer.records, marker)
    ensures o.Absent? <==> answer.NoAnswer?
    ensures o.Error? <==> answer.OtherError?
    ensures o.Error? ==> o.message == answer.message
  {
    match answer
    case Records(rs) =>
      (match FirstMarked(rs, marker)
       case Some(k) => Found(rs[k])
       case None => FoundInvalid)
    case NoAnswer => Absent
    case OtherError(m) => Error(m)
  }

  /** The record a TXT check reports is one the resolver returned, and it holds the marker. */
  lemma FoundRecordHoldsMarker(answer: Answer<string>, marker: string)
    requires TxtOutcome(answer, marker).Found?
    ensures answer.Records? && TxtOutcome(answer, marker).detail in answer.records
    ensures Contains(TxtOutcome(answer, marker).detail, marker)
  {
  }

  /** Records without any match are never confused with an empty answer, and vice versa. */
  lemma InvalidIsNotAbsent(records: seq<string>, marker: string)
    ensures TxtOutcome(Records(records), marker) != Absent
    ensures TxtOutcome(NoAnswer, marker) != FoundInvalid
  {
  }

  /** A single `v=spf1 -all` TXT record is reported as the SPF record, verbatim. */
  lemma SpfSingleRecordExample()
    ensures TxtOutcome(Records(["v=spf1 -all"]), Marker(QueryNames.Spf)) == Found("v=spf1 -all")
  {
  }

  /** Later records are not consulted once one holds the marker: the first match wins. */
  lemma FirstMatchWins(records: seq<string>, marker: string)
    requires records != [] && Contains(records[0], marker)
    ensures TxtOutcome(Records(records), marker) == Found(records[0])
  {
  }
}
