/** The filter pass of `vep_json_parser.py`, step by step as the script runs
    it, each step proved against the reference definition in `VepModel`. */
module VepParser {
  import opened VepModel

  /** Extending the scanned prefix by one transcript extends the kept list by
      that transcript exactly when it passes. */
  lemma KeptStep(ts: seq<Transcript>, i: nat)
    requires i < |ts|
    ensures Kept(ts[..i + 1]) == Kept(ts[..i]) + (if Passes(ts[i]) then [ts[i]] else [])
  {
    assert ts[..i + 1][..i] == ts[..i];
  }

  /** The five accumulators hold, position by position, the fields of the
      transcripts in `kept`. */
  ghost predicate Accumulated(kept: seq<Transcript>, sources: seq<string>,
                              biotypes: seq<string>, phenotypes: seq<seq<string>>,
                              hgvsp: seq<string>, geneIds: seq<string>, terms: seq<seq<string>>)
  {
    |biotypes| == |phenotypes| == |hgvsp| == |geneIds| == |terms| == |kept| &&
    forall j :: 0 <= j < |kept| ==>
      biotypes[j] == OrDash(kept[j].biotype) &&
      phenotypes[j] == TranscriptPhenotypes(kept[j], sources) &&
      hgvsp[j] == OrDash(kept[j].hgvsp) &&
      geneIds[j] == OrDash(kept[j].geneId) &&
      terms[j] == kept[j].consequenceTerms
  }

  /** Appending one transcript's fields keeps the accumulators in step. */
  lemma AccumulatedStep(kept: seq<Transcript>, sources: seq<string>,
                        biotypes: seq<string>, phenotypes: seq<seq<string>>,
                        hgvsp: seq<string>, geneIds: seq<string>, terms: seq<seq<string>>, t: Transcript)
    requires Accumulated(kept, sources, biotypes, phenotypes, hgvsp, geneIds, terms)
    ensures Accumulated(kept + [t], sources, biotypes + [OrDash(t.biotype)],
                        phenotypes + [TranscriptPhenotypes(t, sources)], hgvsp + [OrDash(t.hgvsp)],
                        geneIds + [OrDash(t.geneId)], terms + [t.consequenceTerms])
  {
  }

  /** The transcript scan: keeps the HIGH or MODERATE transcripts that pass the
      score gate and fills the five parallel accumulators from them. */
  method ScanTranscripts(ts: seq<Transcript>, sources: seq<string>)
    returns (relevant: bool, biotypes: seq<string>, phenotypes: seq<seq<string>>,
             hgvsp: seq<string>, geneIds: seq<string>, terms: seq<seq<string>>)
    ensures relevant <==> Kept(ts) != []
    ensures |biotypes| == |phenotypes| == |hgvsp| == |geneIds| == |terms| == |Kept(ts)|
    ensures forall j :: 0 <= j < |Kept(ts)| ==>
      biotypes[j] == OrDash(Kept(ts)[j].biotype) &&
      phenotypes[j] == TranscriptPhenotypes(Kept(ts)[j], sources) &&
      hgvsp[j] == OrDash(Kept(ts)[j].hgvsp) &&
      geneIds[j] == OrDash(Kept(ts)[j].geneId) &&
      terms[j] == Kept(ts)[j].consequenceTerms
  {
    relevant := false;
    biotypes, phenotypes, hgvsp, geneIds, terms := [], [], [], [], [];
    ghost var kept: seq<Transcript> := [];
    for i := 0 to |ts|
      invariant kept == Kept(ts[..i])
      invariant relevant <==> kept != []
      invariant Accumulated(kept, sources, biotypes, phenotypes, hgvsp, geneIds, terms)
    {
      KeptStep(ts, i);
      var trc := ts[i];
      if trc.impact == "HIGH" || trc.impact == "MODERATE" {
        if trc.siftScore.Some? && trc.polypenPrediction.Some? {
          if !(trc.siftScore.value < 0.05 && trc.polypenPrediction.value > 0.446) {
            continue;
          }
        }
        AccumulatedStep(kept, sources, biotypes, phenotypes, hgvsp, geneIds, terms, trc);
        relevant := true;
        if trc.biotype.Some? {
          biotypes := biotypes + [trc.biotype.value];
        } else {
          biotypes := biotypes + ["-"];
        }
        if trc.phenotypes.Some? {
          phenotypes := phenotypes + [MatchingPhenotypes(trc.phenotypes.value, sources)];
        } else {
          phenotypes := phenotypes + [[]];
        }
        hgvsp := hgvsp + [if trc.hgvsp.Some? then trc.hgvsp.value else "-"];
        geneIds := geneIds + [if trc.geneId.Some? then trc.geneId.value else "-"];
        terms := terms + [trc.consequenceTerms];
        kept := kept + [trc];
      }
    }
    assert ts[..|ts|] == ts;
  }

  /** Extending the scanned prefix by one colocated variant moves the last
      rare position to it exactly when it is rare. */
  lemma LastRareStep(cvs: seq<Colocated>, i: nat, threshold: real)
    requires i < |cvs|
    ensures LastRareIndex(cvs[..i + 1], threshold) ==
      if IsRare(cvs[i], threshold) then Some(i) else LastRareIndex(cvs[..i], threshold)
  {
    assert cvs[..i + 1][..i] == cvs[..i];
  }

  /** The frequency scan of a record that the transcript scan found relevant:
      a common colocated variant clears relevance for good, and the rsID and
      frequency text come from the last rare one. */
  method ScanColocated(cvs: seq<Colocated>, cfg: Config)
    returns (relevant: bool, idRs: string, freq: string)
    ensures relevant <==> !AnyCommon(cvs, cfg.threshold)
    ensures idRs == RsId(cvs, cfg.threshold)
    ensures freq == FreqField(cvs, cfg)
  {
    relevant, idRs, freq := true, "-", "-";
    for i := 0 to |cvs|
      invariant relevant <==> forall j :: 0 <= j < i ==> !IsCommon(cvs[j], cfg.threshold)
      invariant idRs == RsId(cvs[..i], cfg.threshold)
      invariant freq == FreqField(cvs[..i], cfg)
    {
      LastRareStep(cvs, i, cfg.threshold);
      var cv := cvs[i];
      if cv.frequencies.Some? {
        var freqs := GnomadeValues(cv.frequencies.value);
        if forall f :: f in freqs ==> f <= cfg.threshold {
          freq := FreqText(freqs, cfg.show);
          idRs := cv.id;
        } else {
          relevant := false;
        }
      }
    }
    assert cvs[..|cvs|] == cvs;
  }

  /** The lines are the rows formatted, one line per row, in the same order. */
  ghost predicate Renders(lines: seq<string>, rows: seq<Row>)
  {
    |lines| == |rows| && forall i :: 0 <= i < |lines| ==> lines[i] == Line(rows[i])
  }

  lemma RendersAppend(lines1: seq<string>, rows1: seq<Row>, lines2: seq<string>, rows2: seq<Row>)
    requires Renders(lines1, rows1) && Renders(lines2, rows2)
    ensures Renders(lines1 + lines2, rows1 + rows2)
  {
  }

  /** One iteration of the record loop: both scans, then one line per kept
      transcript when the record is still relevant. */
  method FilterRecord(r: Record, cfg: Config) returns (lines: seq<string>)
    ensures Renders(lines, RecordRows(r, cfg))
  {
    var relevant := false;
    var freq, idRs := "-", "-";
    var phenotypes: seq<seq<string>> := [];
    var hgvsp: seq<string> := [];
    var geneIds: seq<string> := [];
    var terms: seq<seq<string>> := [];
    var biotypes: seq<string> := [];
    if r.transcripts.Some? {
      relevant, biotypes, phenotypes, hgvsp, geneIds, terms := ScanTranscripts(r.transcripts.value, cfg.sources);
    }
    if relevant && r.colocated.Some? {
      relevant, idRs, freq := ScanColocated(r.colocated.value, cfg);
    }
    assert relevant <==> Reported(r, cfg);
    assert relevant ==> idRs == RsId(ColocatedOf(r), cfg.threshold);
    assert relevant ==> freq == FreqField(ColocatedOf(r), cfg);
    lines := [];
    if relevant {
      for i := 0 to |geneIds|
        invariant |lines| == i
        invariant forall j :: 0 <= j < i ==>
          lines[j] == Line(Row(r.input, r.alleleString, r.strand, idRs, freq,
                               terms[j], biotypes[j], hgvsp[j], geneIds[j], phenotypes[j]))
      {
        lines := lines + [Line(Row(r.input, r.alleleString, r.strand, idRs, freq,
                                   terms[i], biotypes[i], hgvsp[i], geneIds[i], phenotypes[i]))];
      }
    }
  }

  lemma AllRowsStep(records: seq<Record>, k: nat, cfg: Config)
    requires k < |records|
    ensures AllRows(records[..k + 1], cfg) == AllRows(records[..k], cfg) + RecordRows(records[k], cfg)
  {
    assert records[..k + 1][..k] == records[..k];
  }

  /** The whole pass over the parsed document: the report lines after the
      header, in record order and, within a record, in transcript order. */
  method FilterRecords(records: seq<Record>, cfg: Config) returns (sel: seq<string>)
    ensures Renders(sel, AllRows(records, cfg))
  {
    sel := [];
    for k := 0 to |records|
      invariant Renders(sel, AllRows(records[..k], cfg))
    {
      var lines := FilterRecord(records[k], cfg);
      AllRowsStep(records, k, cfg);
      RendersAppend(sel, AllRows(records[..k], cfg), lines, RecordRows(records[k], cfg));
      sel := sel + lines;
    }
    assert records[..|records|] == records;
  }
}
