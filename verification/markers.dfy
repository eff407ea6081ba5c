/**
 * The marker scan shared by the SPF, DKIM and DMARC checks.
 *
 * Each of those checks walks the TXT records in the order the resolver
 * returned them and stops at the first one whose text contains its marker
 * (`v=spf1`, `v=DKIM1` or `v=DMARC1`). The test is Python's `in` on
 * strings: a plain, case-sensitive substring test anywhere in the text.
 * It is not the version-prefix rule of section 4.5 of RFC 7208 or of
 * section 6.3 of RFC 7489, and a second matching record is never looked at.
 */
module Markers {
  import opened QueryNames

  datatype Option<+T> = None | Some(value: T)

  /** The marker each TXT check looks for: a `v=` version tag with a value. */
  function Marker(check: TxtCheck): (m: string)
    ensures |m| > 2 && m[..2] == "v="
  {
    match check
    case Spf => "v=spf1"
    case Dkim => "v=DKIM1"
    case Dmarc => "v=DMARC1"
  }

  /** The exact marker strings: `v=spf1` for SPF, `v=DKIM1` for DKIM, `v=DMARC1` for DMARC. */
  lemma MarkerLiterals()
    ensures Marker(Spf) == "v=spf1"
    ensures Marker(Dkim) == "v=DKIM1"
    ensures Marker(Dmarc) == "v=DMARC1"
  {
  }

  /** `marker` occurs somewhere in `text`, starting at some position. */
  ghost predicate Occurs(marker: string, text: string) {
    exists i :: 0 <= i <= |text| && marker <= text[i..]
  }

  /** Dropping the first character keeps every occurrence that does not start there. */
  lemma OccursInTail(marker: string, text: string)
    requires text != [] && !(marker <= text)
    ensures Occurs(marker, text) <==> Occurs(marker, text[1..])
  {
    if Occurs(marker, text) {
      var i :| 0 <= i <= |text| && marker <= text[i..];
      assert i != 0 by { assert text[0..] == text; }
      assert text[1..][i - 1..] == text[i..];
    }
    if Occurs(marker, text[1..]) {
      var i :| 0 <= i <= |text[1..]| && marker <= text[1..][i..];
      assert text[1..][i..] == text[i + 1..];
    }
  }

  /** Python's `marker in text`, computed. */
  function Contains(text: string, marker: string): (r: bool)
    ensures r <==> Occurs(marker, text)
    decreases |text|
  {
    if marker <= text then
      assert text[0..] == text;
      true
    else if text == [] then
      false
    else
      OccursInTail(marker, text);
      Contains(text[1..], marker)
  }

  /** The marker's first character does not occur in the text, so neither does the marker. */
  lemma FirstCharMissing(marker: string, text: string)
    requires marker != [] && marker[0] !in text
    ensures !Occurs(marker, text)
  {
  }

  /** `k` is the first record, in resolver order, whose text holds the marker. */
  ghost predicate IsFirstMarked(records: seq<string>, marker: string, k: nat) {
    && k < |records|
    && Occurs(marker, records[k])
    && forall j :: 0 <= j < k ==> !Occurs(marker, records[j])
  }

  /** No record holds the marker. */
  ghost predicate NoneMarked(records: seq<string>, marker: string) {
    forall j :: 0 <= j < |records| ==> !Occurs(marker, records[j])
  }

  /** The position of the first record holding the marker, if any. */
  function FirstMarked(records: seq<string>, marker: string): (k: Option<nat>)
    ensures k.Some? ==> IsFirstMarked(records, marker, k.value)
    ensures k.None? ==> NoneMarked(records, marker)
  {
    if records == [] then None
    else if Contains(records[0], marker) then Some(0)
    else match FirstMarked(records[1..], marker)
      case None => None
      case Some(j) => Some(j + 1)
  }

  /** There is only one first match, so the scan can report at most one record. */
  lemma FirstMarkedUnique(records: seq<string>, marker: string, k: nat)
    requires IsFirstMarked(records, marker, k)
    ensures FirstMarked(records, marker) == Some(k)
  {
  }

  /**
   * The `for txt in records: if marker in str(txt): ... return` loop of the
   * three TXT checks: the index of the record it stops at, or None when it
   * runs off the end.
   */
  method ScanForMarker(records: seq<string>, marker: string) returns (k: Option<nat>)
    ensures k == FirstMarked(records, marker)
    ensures k.Some? ==> IsFirstMarked(records, marker, k.value)
    ensures k.None? ==> NoneMarked(records, marker)
  {
    var i := 0;
    while i < |records|
      invariant 0 <= i <= |records|
      invariant forall j :: 0 <= j < i ==> !Occurs(marker, records[j])
    {
      if Contains(records[i], marker) {
        FirstMarkedUnique(records, marker, i);
        return Some(i);
      }
      i := i + 1;
    }
    k := None;
  }

  /** The match is on the literal marker: a record merely mentioning SPF is not one. */
  lemma SpfMarkerExamples()
    ensures Contains("v=spf1 include:_spf.example.com", Marker(Spf))
    ensures !Contains("spf=v1", Marker(Spf))
    ensures !Contains("V=SPF1 -all", Marker(Spf))
  {
    var t := "v=spf1 include:_spf.example.com";
    assert t[..6] == "v=spf1";
    assert t[0..] == t;
    var s := "spf=v1";
    forall i | 0 <= i <= |s| ensures !("v=spf1" <= s[i..]) {
      if i == 0 { assert s[0..][0] == 's'; }
    }
    FirstCharMissing("v=spf1", "V=SPF1 -all");
  }

  /** The test is case-sensitive: this other-case spelling does not match, a mid-text marker does. */
  lemma DkimMarkerIsCaseSensitive()
    ensures !Contains("V=dkim1; k=rsa", Marker(Dkim))
    ensures Contains("k=rsa; v=DKIM1", Marker(Dkim))
  {
    FirstCharMissing("v=DKIM1", "V=dkim1; k=rsa");
    var s := "k=rsa; v=DKIM1";
    assert "v=DKIM1" <= s[7..];
  }
}
