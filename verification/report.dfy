/**
 * What a run prints, as a sequence of abstract lines.
 *
 * The wording and colours of the printed text are not modelled; each
 * printed line is a `Line` value recording which kind of line it is and
 * the data it shows. A run prints a banner and a blank line, then for MX,
 * SPF, DKIM and DMARC, in that order, that check's block followed by one
 * blank line. Every block starts with a verdict line ([✓] or [✗]).
 */
module Report {
  import opened Dns
  import opened QueryNames
  import opened Markers
  import opened Outcomes

  datatype Line =
    | UsageLine                                             // "Usage: ... <domain>"
    | BannerLine(domain: string)                            // "Checking email security for domain: ..."
    | BlankLine
    | FoundLine(check: Check, name: string, record: Option<string>)  // [✓]; TXT checks show the record
    | ExchangerLine(mx: MxRecord)                           // "  - <exchange> (Priority: <preference>)"
    | InvalidLine(check: Check, name: string)               // [✗] no valid record
    | AbsentLine(check: Check, name: string)                // [✗] no record
    | ErrorLine(check: Check, name: string, message: string) // [✗] error fetching, with the message
    | RecommendationLine(check: Check, afterInvalid: bool)  // "  Recommendation: ..."

  /**
   * The lines the MX loop prints, one per record, built up as the loop does.
   * Every MX record is listed, in resolver order: none dropped, reordered or duplicated.
   */
  function ExchangerLines(rs: seq<MxRecord>): (lines: seq<Line>)
    ensures |lines| == |rs|
    ensures forall i :: 0 <= i < |rs| ==> lines[i] == ExchangerLine(rs[i])
  {
    if rs == [] then []
    else
      var init := rs[..|rs| - 1];
      assert forall i :: 0 <= i < |init| ==> init[i] == rs[i];
      ExchangerLines(init) + [ExchangerLine(rs[|rs| - 1])]
  }

  /** The block the MX check prints for its outcome. */
  function MxLines(name: string, o: Outcome<seq<MxRecord>>): (lines: seq<Line>)
    requires !o.FoundInvalid?
    ensures lines != [] && Heading(lines[0]) == Some(Mx)
    // found: the found line, then one line per record, every record in resolver order
    ensures o.Found? ==>
      && |lines| == |o.detail| + 1
      && lines[0] == FoundLine(Mx, name, None)
      && forall i :: 0 <= i < |o.detail| ==> lines[i + 1] == ExchangerLine(o.detail[i])
    // a recommendation follows exactly when there was no answer
    ensures (exists b :: RecommendationLine(Mx, b) in lines) <==> o.Absent?
    // which verdict heads the block: found exactly for Found, absent exactly for NoAnswer
    ensures lines[0].FoundLine? <==> o.Found?
    ensures lines[0].AbsentLine? <==> o.Absent?
    ensures lines[0].ErrorLine? <==> o.Error?
    ensures o.Absent? ==> lines == [AbsentLine(Mx, name), RecommendationLine(Mx, false)]
    ensures o.Error? ==> lines == [ErrorLine(Mx, name, o.message)]
  {
    match o
    case Found(rs) =>
      [FoundLine(Mx, name, None)] + ExchangerLines(rs)
    case Absent => [AbsentLine(Mx, name), RecommendationLine(Mx, false)]
    case Error(m) => [ErrorLine(Mx, name, m)]
  }

  /** The block a TXT check prints for its outcome. */
  function TxtLines(check: TxtCheck, name: string, o: Outcome<string>): (lines: seq<Line>)
    ensures lines != [] && Heading(lines[0]) == Some(check)
    // found: the block is the found line alone, showing the record found
    ensures o.Found? ==> lines == [FoundLine(check, name, Some(o.detail))]
    // a recommendation follows exactly when nothing valid was found and the query did not fail,
    // and its advice depends on whether records came back at all
    ensures (exists b :: RecommendationLine(check, b) in lines) <==> o.FoundInvalid? || o.Absent?
    ensures forall b :: RecommendationLine(check, b) in lines ==> b == o.FoundInvalid?
    // which verdict heads the block: records without a match and no answer at all are told apart
    ensures lines[0].FoundLine? <==> o.Found?
    ensures lines[0].InvalidLine? <==> o.FoundInvalid?
    ensures lines[0].AbsentLine? <==> o.Absent?
    ensures lines[0].ErrorLine? <==> o.Error?
    ensures o.FoundInvalid? ==> lines == [InvalidLine(check, name), RecommendationLine(check, true)]
    ensures o.Absent? ==> lines == [AbsentLine(check, name), RecommendationLine(check, false)]
    ensures o.Error? ==> lines == [ErrorLine(check, name, o.message)]
  {
    match o
    case Found(r) => [FoundLine(check, name, Some(r))]
    case FoundInvalid => [InvalidLine(check, name), RecommendationLine(check, true)]
    case Absent => [AbsentLine(check, name), RecommendationLine(check, false)]
    case Error(m) => [ErrorLine(check, name, m)]
  }

  /** The check a verdict line reports on; other lines report on none. */
  function Heading(line: Line): Option<Check> {
    match line
    case FoundLine(c, _, _) => Some(c)
    case InvalidLine(c, _) => Some(c)
    case AbsentLine(c, _) => Some(c)
    case ErrorLine(c, _, _) => Some(c)
    case _ => None
  }

  /** The skeleton of a report: banners, blank lines and verdict lines only. */
  datatype Mark = Banner | Gap | Verdict(check: Check)

  function MarkOf(line: Line): seq<Mark> {
    match line
    case BannerLine(_) => [Banner]
    case BlankLine => [Gap]
    case _ => if Heading(line).Some? then [Verdict(Heading(line).value)] else []
  }

  function Outline(lines: seq<Line>): seq<Mark> {
    if lines == [] then [] else MarkOf(lines[0]) + Outline(lines[1..])
  }

  lemma {:induction false} OutlineAppend(a: seq<Line>, b: seq<Line>)
    ensures Outline(a + b) == Outline(a) + Outline(b)
  {
    if a == [] {
      assert a + b == b;
    } else {
      assert (a + b)[0] == a[0];
      assert (a + b)[1..] == a[1..] + b;
      OutlineAppend(a[1..], b);
    }
  }

  lemma OutlinePair(x: Line, y: Line)
    ensures Outline([x, y]) == MarkOf(x) + MarkOf(y)
  {
    OutlineSingle(y);
    assert [x, y][1..] == [y];
  }

  lemma OutlineSingle(x: Line)
    ensures Outline([x]) == MarkOf(x)
  {
  }

  lemma {:induction false} OutlineOfExchangers(rs: seq<MxRecord>)
    ensures Outline(ExchangerLines(rs)) == []
  {
    if rs != [] {
      OutlineOfExchangers(rs[..|rs| - 1]);
      OutlineAppend(ExchangerLines(rs[..|rs| - 1]), [ExchangerLine(rs[|rs| - 1])]);
    }
  }

  /** Each block has exactly one verdict line, so a check reports at most one record. */
  lemma MxBlockOutline(name: string, o: Outcome<seq<MxRecord>>)
    requires !o.FoundInvalid?
    ensures Outline(MxLines(name, o)) == [Verdict(Mx)]
  {
    match o {
      case Found(rs) =>
        OutlineAppend([FoundLine(Mx, name, None)], ExchangerLines(rs));
        OutlineOfExchangers(rs);
        OutlineSingle(FoundLine(Mx, name, None));
      case Absent => OutlinePair(AbsentLine(Mx, name), RecommendationLine(Mx, false));
      case Error(m) => OutlineSingle(ErrorLine(Mx, name, m));
    }
  }

  lemma TxtBlockOutline(check: TxtCheck, name: string, o: Outcome<string>)
    ensures Outline(TxtLines(check, name, o)) == [Verdict(check)]
  {
    match o {
      case Found(r) => OutlineSingle(FoundLine(check, name, Some(r)));
      case FoundInvalid => OutlinePair(InvalidLine(check, name), RecommendationLine(check, true));
      case Absent => OutlinePair(AbsentLine(check, name), RecommendationLine(check, false));
      case Error(m) => OutlineSingle(ErrorLine(check, name, m));
    }
  }

  /** A block followed by the blank line `main` prints after it. */
  function Section(block: seq<Line>): seq<Line> {
    block + [BlankLine]
  }

  lemma SectionOutline(block: seq<Line>)
    ensures Outline(Section(block)) == Outline(block) + [Gap]
  {
    OutlineAppend(block, [BlankLine]);
    OutlineSingle(BlankLine);
  }

  /** The four outcomes of one audit of `domain`. */
  datatype Audit = Audit(
    mx: Outcome<seq<MxRecord>>,
    spf: Outcome<string>,
    dkim: Outcome<string>,
    dmarc: Outcome<string>)

  lemma ReportedRecord(answer: Answer<string>, marker: string)
    ensures TxtOutcome(answer, marker).Found? ==>
      answer.Records? && TxtOutcome(answer, marker).detail in answer.records
      && Contains(TxtOutcome(answer, marker).detail, marker)
  {
    if TxtOutcome(answer, marker).Found? {
      FoundRecordHoldsMarker(answer, marker);
    }
  }

  function AuditOf(resolver: Resolver, domain: string): (a: Audit)
    // the MX check has no notion of an invalid record
    ensures !a.mx.FoundInvalid?
    // a reported record was returned for that check's own name and holds that check's marker
    ensures a.spf.Found? ==>
      && resolver.txt(domain).Records? && a.spf.detail in resolver.txt(domain).records
      && Contains(a.spf.detail, "v=spf1")
    ensures a.dkim.Found? ==>
      && resolver.txt("default." + "_domainkey." + domain).Records?
      && a.dkim.detail in resolver.txt("default." + "_domainkey." + domain).records
      && Contains(a.dkim.detail, "v=DKIM1")
    ensures a.dmarc.Found? ==>
      && resolver.txt("_dmarc." + domain).Records?
      && a.dmarc.detail in resolver.txt("_dmarc." + domain).records
      && Contains(a.dmarc.detail, "v=DMARC1")
  {
    BareNameLabels(domain);
    DkimNameLabels(domain);
    DmarcNameLabels(domain);
    MarkerLiterals();
    ReportedRecord(resolver.txt(QueryName(Spf, domain)), Marker(Spf));
    ReportedRecord(resolver.txt(QueryName(Dkim, domain)), Marker(Dkim));
    ReportedRecord(resolver.txt(QueryName(Dmarc, domain)), Marker(Dmarc));
    Audit(
      MxOutcome(resolver.mx(QueryName(Mx, domain))),
      TxtOutcome(resolver.txt(QueryName(Spf, domain)), Marker(Spf)),
      TxtOutcome(resolver.txt(QueryName(Dkim, domain)), Marker(Dkim)),
      TxtOutcome(resolver.txt(QueryName(Dmarc, domain)), Marker(Dmarc)))
  }

  /** Everything a run with command line `argv` prints (argv[0] is the program). */
  function Transcript(resolver: Resolver, argv: seq<string>): (lines: seq<Line>)
    // a wrong argument count prints the usage line and nothing else
    ensures |argv| != 2 <==> lines == [UsageLine]
    // one domain: the banner naming it and a blank line open the report, a blank line closes it
    ensures |argv| == 2 ==>
      && |lines| > 2 && lines[0] == BannerLine(argv[1]) && lines[1] == BlankLine
      && lines[|lines| - 1] == BlankLine
  {
    if |argv| != 2 then [UsageLine]
    else
      var domain := argv[1];
      var a := AuditOf(resolver, domain);
      var s1 := Section(MxLines(QueryName(Mx, domain), a.mx));
      var s2 := Section(TxtLines(Spf, QueryName(Spf, domain), a.spf));
      var s3 := Section(TxtLines(Dkim, QueryName(Dkim, domain), a.dkim));
      var s4 := Section(TxtLines(Dmarc, QueryName(Dmarc, domain), a.dmarc));
      Bracketed(domain, s1, s2, s3, s4);
      [BannerLine(domain), BlankLine] + s1 + s2 + s3 + s4
  }

  /** A report that opens with the banner and a blank line and ends with a section. */
  lemma Bracketed(domain: string, s1: seq<Line>, s2: seq<Line>, s3: seq<Line>, s4: seq<Line>)
    requires s4 != [] && s4[|s4| - 1] == BlankLine
    ensures var r := [BannerLine(domain), BlankLine] + s1 + s2 + s3 + s4;
      |r| > 2 && r[0] == BannerLine(domain) && r[1] == BlankLine && r[|r| - 1] == BlankLine
  {
  }

  /** The resolver calls a run with command line `argv` makes, in order. */
  function IssuedQueries(argv: seq<string>): (qs: seq<Query>)
    // a usage error stops the run before any DNS query
    ensures |argv| != 2 ==> qs == []
    // the DKIM and DMARC queries never ask about the bare domain
    ensures |argv| == 2 ==> |qs| == 4 && qs[2].name != argv[1] && qs[3].name != argv[1]
  {
    if |argv| != 2 then []
    else
      var domain := argv[1];
      [ Query(QueryName(Mx, domain), MX),
        Query(QueryName(Spf, domain), TXT),
        Query(QueryName(Dkim, domain), TXT),
        Query(QueryName(Dmarc, domain), TXT) ]
  }

  /**
   * Whatever the resolver answers, a run with one domain reports MX, SPF,
   * DKIM and DMARC in that order, one verdict each, every block followed by
   * exactly one blank line; a run with any other argument count reports nothing.
   */
  lemma TranscriptOutline(resolver: Resolver, argv: seq<string>)
    ensures |argv| == 2 ==>
      Outline(Transcript(resolver, argv))
      == [Banner, Gap, Verdict(Mx), Gap, Verdict(Spf), Gap, Verdict(Dkim), Gap, Verdict(Dmarc), Gap]
    ensures |argv| != 2 ==> Outline(Transcript(resolver, argv)) == []
  {
    if |argv| == 2 {
      var domain := argv[1];
      var a := AuditOf(resolver, domain);
      var b1 := MxLines(QueryName(Mx, domain), a.mx);
      var b2 := TxtLines(Spf, QueryName(Spf, domain), a.spf);
      var b3 := TxtLines(Dkim, QueryName(Dkim, domain), a.dkim);
      var b4 := TxtLines(Dmarc, QueryName(Dmarc, domain), a.dmarc);
      MxBlockOutline(QueryName(Mx, domain), a.mx);
      TxtBlockOutline(Spf, QueryName(Spf, domain), a.spf);
      TxtBlockOutline(Dkim, QueryName(Dkim, domain), a.dkim);
      TxtBlockOutline(Dmarc, QueryName(Dmarc, domain), a.dmarc);
      SectionsOutline(domain, b1, b2, b3, b4);
    } else {
      assert Outline([UsageLine]) == MarkOf(UsageLine) + Outline([]);
    }
  }

  lemma SectionsOutline(domain: string, b1: seq<Line>, b2: seq<Line>, b3: seq<Line>, b4: seq<Line>)
    requires Outline(b1) == [Verdict(Mx)] && Outline(b2) == [Verdict(Spf)]
    requires Outline(b3) == [Verdict(Dkim)] && Outline(b4) == [Verdict(Dmarc)]
    ensures Outline([BannerLine(domain), BlankLine] + Section(b1) + Section(b2) + Section(b3) + Section(b4))
         == [Banner, Gap, Verdict(Mx), Gap, Verdict(Spf), Gap, Verdict(Dkim), Gap, Verdict(Dmarc), Gap]
  {
    var start := [BannerLine(domain), BlankLine];
    OutlinePair(BannerLine(domain), BlankLine);
    var m0 := [Banner, Gap];
    var p1 := start + Section(b1);
    AppendSection(start, b1, Mx);
    assert Outline(p1) == m0 + [Verdict(Mx), Gap];
    var m1 := m0 + [Verdict(Mx), Gap];
    var p2 := p1 + Section(b2);
    AppendSection(p1, b2, Spf);
    assert Outline(p2) == m1 + [Verdict(Spf), Gap];
    var m2 := m1 + [Verdict(Spf), Gap];
    var p3 := p2 + Section(b3);
    AppendSection(p2, b3, Dkim);
    assert Outline(p3) == m2 + [Verdict(Dkim), Gap];
    var m3 := m2 + [Verdict(Dkim), Gap];
    AppendSection(p3, b4, Dmarc);
    var m4 := m3 + [Verdict(Dmarc), Gap];
    assert Outline(p3 + Section(b4)) == m4;
    assert m4 == [Banner, Gap, Verdict(Mx), Gap, Verdict(Spf), Gap, Verdict(Dkim), Gap, Verdict(Dmarc), Gap];
  }

  lemma AppendSection(prefix: seq<Line>, block: seq<Line>, check: Check)
    requires Outline(block) == [Verdict(check)]
    ensures Outline(prefix + Section(block)) == Outline(prefix) + [Verdict(check), Gap]
  {
    SectionOutline(block);
    OutlineAppend(prefix, Section(block));
  }

  /**
   * Failures are isolated: what one check reports depends only on the
   * resolver's answer to that check's own query, never on the others.
   */
  lemma ChecksAreIndependent(r1: Resolver, r2: Resolver, domain: string)
    ensures r1.mx(domain) == r2.mx(domain) ==> AuditOf(r1, domain).mx == AuditOf(r2, domain).mx
    ensures r1.txt(domain) == r2.txt(domain) ==> AuditOf(r1, domain).spf == AuditOf(r2, domain).spf
    ensures r1.txt(QueryName(Dkim, domain)) == r2.txt(QueryName(Dkim, domain))
            ==> AuditOf(r1, domain).dkim == AuditOf(r2, domain).dkim
    ensures r1.txt(QueryName(Dmarc, domain)) == r2.txt(QueryName(Dmarc, domain))
            ==> AuditOf(r1, domain).dmarc == AuditOf(r2, domain).dmarc
  {
  }

  /** Two MX records, preferences 10 and 20, are listed in the order the resolver gave them. */
  lemma MxTwoRecordsExample()
    ensures
      var rs := [MxRecord("mail1.example.com", 10), MxRecord("mail2.example.com", 20)];
      MxLines("example.com", MxOutcome(Records(rs)))
      == [FoundLine(Mx, "example.com", None), ExchangerLine(rs[0]), ExchangerLine(rs[1])]
  {
  }
}
