/**
 * The script itself: the four check functions and `main`, as methods of a
 * `Session` that owns the two things they act on — the resolver they ask
 * (a fixed `Resolver` value) and what they print. The session records every
 * resolver call it makes (`queries`) and every line it prints (`output`),
 * in order; each method says exactly how it extends both logs.
 */
module EmailSecurityCheck {
  import opened Dns
  import opened QueryNames
  import opened Markers
  import opened Outcomes
  import opened Report

  lemma AppendAssoc<T>(a: seq<T>, b: seq<T>, c: seq<T>)
    ensures a + b + c == a + (b + c)
  {
  }

  /** The lines `main` prints one after another add up to the transcript. */
  lemma RunOutput(out0: seq<Line>, resolver: Resolver, argv: seq<string>)
    requires |argv| == 2
    ensures
      var d := argv[1];
      var a := AuditOf(resolver, d);
      out0 + [BannerLine(d), BlankLine]
      + MxLines(d, a.mx) + [BlankLine]
      + TxtLines(Spf, QueryName(Spf, d), a.spf) + [BlankLine]
      + TxtLines(Dkim, QueryName(Dkim, d), a.dkim) + [BlankLine]
      + TxtLines(Dmarc, QueryName(Dmarc, d), a.dmarc) + [BlankLine]
      == out0 + Transcript(resolver, argv)
  {
    var d := argv[1];
    var a := AuditOf(resolver, d);
    assert QueryName(Mx, d) == d;
    var start := [BannerLine(d), BlankLine];
    var b1, b2 := MxLines(d, a.mx), TxtLines(Spf, QueryName(Spf, d), a.spf);
    var b3, b4 := TxtLines(Dkim, QueryName(Dkim, d), a.dkim), TxtLines(Dmarc, QueryName(Dmarc, d), a.dmarc);
    var p1 := start + Section(b1);
    var p2 := p1 + Section(b2);
    var p3 := p2 + Section(b3);
    var p4 := p3 + Section(b4);
    assert p4 == Transcript(resolver, argv);
    AppendAssoc(out0, start, b1);
    AppendAssoc(out0 + start, b1, [BlankLine]);
    AppendAssoc(out0, start, Section(b1));
    assert out0 + start + b1 + [BlankLine] == out0 + p1;
    AppendAssoc(out0 + p1, b2, [BlankLine]);
    AppendAssoc(out0, p1, Section(b2));
    assert out0 + p1 + b2 + [BlankLine] == out0 + p2;
    AppendAssoc(out0 + p2, b3, [BlankLine]);
    AppendAssoc(out0, p2, Section(b3));
    assert out0 + p2 + b3 + [BlankLine] == out0 + p3;
    AppendAssoc(out0 + p3, b4, [BlankLine]);
    AppendAssoc(out0, p3, Section(b4));
  }

  /** The resolver calls `main` makes one after another are the issued queries. */
  lemma RunQueries(asked0: seq<Query>, argv: seq<string>)
    requires |argv| == 2
    ensures
      var d := argv[1];
      asked0 + [Query(d, MX)] + [Query(QueryName(Spf, d), TXT)]
      + [Query(QueryName(Dkim, d), TXT)] + [Query(QueryName(Dmarc, d), TXT)]
      == asked0 + IssuedQueries(argv)
  {
  }

  class Session {
    const resolver: Resolver
    var queries: seq<Query>
    var output: seq<Line>

    constructor (resolver: Resolver)
      ensures this.resolver == resolver && queries == [] && output == []
    {
      this.resolver := resolver;
      queries := [];
      output := [];
    }

    /** `dns.resolver.resolve(name, 'MX')`. */
    method ResolveMx(name: string) returns (answer: Answer<MxRecord>)
      modifies this
      ensures answer == resolver.mx(name)
      ensures queries == old(queries) + [Query(name, MX)] && output == old(output)
    {
      answer := resolver.mx(name);
      queries := queries + [Query(name, MX)];
    }

    /** `dns.resolver.resolve(name, 'TXT')`. */
    method ResolveTxt(name: string) returns (answer: Answer<string>)
      modifies this
      ensures answer == resolver.txt(name)
      ensures queries == old(queries) + [Query(name, TXT)] && output == old(output)
    {
      answer := resolver.txt(name);
      queries := queries + [Query(name, TXT)];
    }

    /** Prints `lines`. */
    method Emit(lines: seq<Line>)
      modifies this
      ensures output == old(output) + lines && queries == old(queries)
    {
      output := output + lines;
    }

    /** The `for mx in mx_records: print(...)` loop: one line per record, in order. */
    method ListExchangers(rs: seq<MxRecord>)
      modifies this
      ensures output == old(output) + ExchangerLines(rs) && queries == old(queries)
    {
      for i := 0 to |rs|
        invariant output == old(output) + ExchangerLines(rs[..i])
        invariant queries == old(queries)
      {
        assert rs[..i + 1][..i] == rs[..i];
        output := output + [ExchangerLine(rs[i])];
      }
      assert rs[..|rs|] == rs;
    }

    /** `query_mx_record(domain)`. */
    method QueryMxRecord(domain: string) returns (o: Outcome<seq<MxRecord>>)
      modifies this
      ensures o == MxOutcome(resolver.mx(domain))
      ensures queries == old(queries) + [Query(domain, MX)]
      ensures output == old(output) + MxLines(domain, o)
    {
      var answer := ResolveMx(domain);
      match answer {
        case Records(rs) =>
          ghost var out0 := output;
          Emit([FoundLine(Mx, domain, None)]);
          ListExchangers(rs);
          o := Found(rs);
          AppendAssoc(out0, [FoundLine(Mx, domain, None)], ExchangerLines(rs));
          assert MxLines(domain, o) == [FoundLine(Mx, domain, None)] + ExchangerLines(rs);
        case NoAnswer =>
          Emit([AbsentLine(Mx, domain), RecommendationLine(Mx, false)]);
          o := Absent;
        case OtherError(m) =>
          Emit([ErrorLine(Mx, domain, m)]);
          o := Error(m);
      }
    }

    /**
     * `query_spf_record`, `query_dkim_record` and `query_dmarc_record`,
     * which differ only in the name they query and the marker they seek.
     */
    method QueryTxtRecord(check: TxtCheck, domain: string) returns (o: Outcome<string>)
      modifies this
      ensures o == TxtOutcome(resolver.txt(QueryName(check, domain)), Marker(check))
      ensures queries == old(queries) + [Query(QueryName(check, domain), TXT)]
      ensures output == old(output) + TxtLines(check, QueryName(check, domain), o)
    {
      var name := QueryName(check, domain);
      var answer := ResolveTxt(name);
      match answer {
        case Records(rs) =>
          var k := ScanForMarker(rs, Marker(check));
          match k {
            case Some(i) =>
              Emit([FoundLine(check, name, Some(rs[i]))]);
              o := Found(rs[i]);
            case None =>
              Emit([InvalidLine(check, name), RecommendationLine(check, true)]);
              o := FoundInvalid;
          }
        case NoAnswer =>
          Emit([AbsentLine(check, name), RecommendationLine(check, false)]);
          o := Absent;
        case OtherError(m) =>
          Emit([ErrorLine(check, name, m)]);
          o := Error(m);
      }
    }

    /**
     * `main`: `argv` is the whole command line, program name first; the
     * result is the exit status.
     */
    method Run(argv: seq<string>) returns (status: int)
      modifies this
      ensures status == (if |argv| == 2 then 0 else 1)
      ensures queries == old(queries) + IssuedQueries(argv)
      ensures output == old(output) + Transcript(resolver, argv)
    {
      if |argv| != 2 {
        Emit([UsageLine]);
        return 1;
      }
      var domain := argv[1];
      ghost var out0, asked0 := output, queries;
      Emit([BannerLine(domain), BlankLine]);
      var mx := QueryMxRecord(domain);
      Emit([BlankLine]);
      var spf := QueryTxtRecord(Spf, domain);
      Emit([BlankLine]);
      var dkim := QueryTxtRecord(Dkim, domain);
      Emit([BlankLine]);
      var dmarc := QueryTxtRecord(Dmarc, domain);
      Emit([BlankLine]);
      assert QueryName(Mx, domain) == domain;
      RunOutput(out0, resolver, argv);
      RunQueries(asked0, argv);
      status := 0;
    }
  }
}
