/** What the filter promises about the rows it keeps, stated over the
    reference definition in `VepModel` (which `VepParser` is proved to follow). */
module VepProperties {
  import opened Text
  import opened VepModel

  // ---------------------------------------------------------------- transcripts

  /** The kept transcripts are exactly the passing ones. */
  lemma {:induction false} KeptMembers(ts: seq<Transcript>)
    ensures forall t :: t in Kept(ts) <==> t in ts && Passes(t)
  {
    if ts != [] {
      var init, last := ts[..|ts| - 1], ts[|ts| - 1];
      assert ts == init + [last];
      KeptMembers(init);
    }
  }

  /** Keeping distributes over concatenation: the scan keeps transcripts in
      their original order. */
  lemma {:induction false} KeptAppend(a: seq<Transcript>, b: seq<Transcript>)
    ensures Kept(a + b) == Kept(a) + Kept(b)
  {
    if b == [] {
      assert a + b == a;
    } else {
      var init, last := b[..|b| - 1], b[|b| - 1];
      assert (a + b)[..|a + b| - 1] == a + init;
      assert (a + b)[|a + b| - 1] == last;
      KeptAppend(a, init);
    }
  }

  /** Replacing a record's transcripts by others with the same kept list
      leaves its rows unchanged. */
  lemma SameKeptSameRows(r: Record, ts: seq<Transcript>, cfg: Config)
    requires r.transcripts.Some? && Kept(ts) == Kept(r.transcripts.value)
    ensures RecordRows(r.(transcripts := Some(ts)), cfg) == RecordRows(r, cfg)
  {
  }

  /** A transcript the scan does not keep can be removed from the record
      without changing any row. */
  lemma DroppingUnkeptTranscript(r: Record, cfg: Config, i: nat)
    requires r.transcripts.Some? && i < |r.transcripts.value|
    requires !Passes(r.transcripts.value[i])
    ensures var ts := r.transcripts.value;
      RecordRows(r.(transcripts := Some(ts[..i] + ts[i + 1..])), cfg) == RecordRows(r, cfg)
  {
    var ts := r.transcripts.value;
    var t := ts[i];
    assert Kept([t]) == [] by {
      assert [t][..0] == [];
    }
    calc {
      Kept(ts);
      { assert ts == (ts[..i] + [t]) + ts[i + 1..]; }
      Kept((ts[..i] + [t]) + ts[i + 1..]);
      { KeptAppend(ts[..i] + [t], ts[i + 1..]); KeptAppend(ts[..i], [t]); }
      Kept(ts[..i]) + Kept(ts[i + 1..]);
      { KeptAppend(ts[..i], ts[i + 1..]); }
      Kept(ts[..i] + ts[i + 1..]);
    }
    SameKeptSameRows(r, ts[..i] + ts[i + 1..], cfg);
  }

  /** A transcript whose impact is neither HIGH nor MODERATE never contributes a row. */
  lemma LowImpactNeverContributes(r: Record, cfg: Config, i: nat)
    requires r.transcripts.Some? && i < |r.transcripts.value|
    requires !HighOrModerate(r.transcripts.value[i])
    ensures var ts := r.transcripts.value;
      RecordRows(r.(transcripts := Some(ts[..i] + ts[i + 1..])), cfg) == RecordRows(r, cfg)
  {
    DroppingUnkeptTranscript(r, cfg, i);
  }

  /** A transcript carrying both scores contributes no row unless SIFT is below
      0.05 and the PolyPhen value above 0.446. */
  lemma FailedScoreGateNeverContributes(r: Record, cfg: Config, i: nat)
    requires r.transcripts.Some? && i < |r.transcripts.value|
    requires r.transcripts.value[i].siftScore.Some? && r.transcripts.value[i].polypenPrediction.Some?
    requires !(r.transcripts.value[i].siftScore.value < 0.05 && r.transcripts.value[i].polypenPrediction.value > 0.446)
    ensures var ts := r.transcripts.value;
      RecordRows(r.(transcripts := Some(ts[..i] + ts[i + 1..])), cfg) == RecordRows(r, cfg)
  {
    DroppingUnkeptTranscript(r, cfg, i);
  }

  /** With either score missing, the impact alone decides. */
  lemma MissingScoreImpactDecides(t: Transcript)
    requires t.siftScore.None? || t.polypenPrediction.None?
    ensures Kept([t]) == if HighOrModerate(t) then [t] else []
  {
  }

  /** The score gate on four sample transcripts: both scores present and
      both conditions met keeps the transcript; PolyPhen at or below 0.446
      drops it; no scores at all leaves the impact to decide. */
  lemma ScoreGateExamples()
    ensures Passes(Transcript("HIGH", Some(0.01), Some(0.5), None, None, None, None, []))
    ensures !Passes(Transcript("HIGH", Some(0.01), Some(0.3), None, None, None, None, []))
    ensures Passes(Transcript("MODERATE", None, None, None, None, None, None, []))
    ensures !Passes(Transcript("LOW", None, None, None, None, None, None, []))
  {
  }

  /** A record without `transcript_consequences` produces no rows. */
  lemma NoTranscriptsNoRows(r: Record, cfg: Config)
    requires r.transcripts.None?
    ensures RecordRows(r, cfg) == []
  {
  }

  /** A reported record emits one row per kept transcript, each carrying that
      transcript's fields (missing text fields as `-`), in transcript order. */
  lemma RowsFollowKeptTranscripts(r: Record, cfg: Config)
    ensures |RecordRows(r, cfg)| == if Reported(r, cfg) then |Kept(r.transcripts.value)| else 0
    ensures Reported(r, cfg) ==> forall i :: 0 <= i < |RecordRows(r, cfg)| ==>
      var t := Kept(r.transcripts.value)[i];
      var row := RecordRows(r, cfg)[i];
      t in r.transcripts.value && HighOrModerate(t) &&
      row.terms == t.consequenceTerms && row.biotype == OrDash(t.biotype) &&
      row.hgvsp == OrDash(t.hgvsp) && row.geneId == OrDash(t.geneId) &&
      row.phenotypes == TranscriptPhenotypes(t, cfg.sources)
  {
    if Reported(r, cfg) {
      KeptMembers(r.transcripts.value);
    }
  }

  /** Two kept transcripts and no colocated variants give exactly two rows,
      both with `-` for the rsID and the frequencies. */
  lemma TwoKeptTranscriptsNoColocated(r: Record, cfg: Config, t1: Transcript, t2: Transcript)
    requires r.transcripts == Some([t1, t2]) && r.colocated.None?
    requires Passes(t1) && Passes(t2)
    ensures RecordRows(r, cfg) == [RowOf(r, t1, cfg, "-", "-"), RowOf(r, t2, cfg, "-", "-")]
  {
    KeptAppend([t1], [t2]);
    assert [t1] + [t2] == [t1, t2];
    assert [t1][..0] == [] && [t2][..0] == [];
  }

  // ----------------------------------------------------------------- phenotypes

  /** The phenotype filter keeps order: it distributes over concatenation. */
  lemma {:induction false} MatchingPhenotypesAppend(a: seq<Phenotype>, b: seq<Phenotype>, sources: seq<string>)
    ensures MatchingPhenotypes(a + b, sources) == MatchingPhenotypes(a, sources) + MatchingPhenotypes(b, sources)
  {
    if a == [] {
      assert a + b == b;
    } else {
      var head := if a[0].source in sources then [a[0].phenotype] else [];
      calc {
        MatchingPhenotypes(a + b, sources);
        { assert (a + b)[0] == a[0]; assert (a + b)[1..] == a[1..] + b; }
        head + MatchingPhenotypes(a[1..] + b, sources);
        { MatchingPhenotypesAppend(a[1..], b, sources); }
        head + (MatchingPhenotypes(a[1..], sources) + MatchingPhenotypes(b, sources));
        (head + MatchingPhenotypes(a[1..], sources)) + MatchingPhenotypes(b, sources);
      }
    }
  }

  // ---------------------------------------------------------- colocated variants

  /** One common colocated variant drops the record for good, whatever the
      other colocated variants are and however many transcripts were kept. */
  lemma CommonVariantDropsRecord(r: Record, cfg: Config, i: nat)
    requires r.colocated.Some? && i < |r.colocated.value|
    requires IsCommon(r.colocated.value[i], cfg.threshold)
    ensures RecordRows(r, cfg) == []
  {
  }

  /** Every frequency of a colocated variant with frequencies is either at or
      below the threshold, or some is above it. */
  lemma RareOrCommon(cv: Colocated, threshold: real)
    requires cv.frequencies.Some?
    ensures IsRare(cv, threshold) != IsCommon(cv, threshold)
  {
  }

  /** Rarity is decided entry by entry: a colocated variant is rare iff it
      has frequencies and every allele entry's `gnomade` value is at or below
      the threshold, and common iff some entry's value is above it. */
  lemma RareIffAllEntries(cv: Colocated, threshold: real)
    ensures IsRare(cv, threshold) <==>
      cv.frequencies.Some? && forall a :: a in cv.frequencies.value ==> a.gnomade <= threshold
    ensures IsCommon(cv, threshold) <==>
      cv.frequencies.Some? && exists a :: a in cv.frequencies.value && a.gnomade > threshold
  {
    if cv.frequencies.Some? {
      var fs := cv.frequencies.value;
      var values := GnomadeValues(fs);
      forall a | a in fs
        ensures a.gnomade in values
      {
        var i :| 0 <= i < |fs| && fs[i] == a;
        assert values[i] == a.gnomade;
      }
      forall f | f in values
        ensures exists a :: a in fs && a.gnomade == f
      {
        var i :| 0 <= i < |values| && values[i] == f;
        assert fs[i] in fs;
      }
    }
  }

  /** The frequency text renders the allele entries' `gnomade` values in the
      mapping's order and concatenates them without separator: no entries give
      the empty text, and one more entry appends its rendering at the end. */
  lemma FreqTextOfEntries(fs: seq<AlleleFrequency>, a: AlleleFrequency, show: real -> string)
    ensures FreqText(GnomadeValues([]), show) == ""
    ensures FreqText(GnomadeValues(fs + [a]), show) == FreqText(GnomadeValues(fs), show) + show(a.gnomade)
  {
    var values := GnomadeValues(fs);
    assert GnomadeValues(fs + [a]) == values + [a.gnomade];
    var texts := seq(|values|, i requires 0 <= i < |values| => show(values[i]));
    assert seq(|values| + 1, i requires 0 <= i < |values| + 1 => show((values + [a.gnomade])[i])) == texts + [show(a.gnomade)];
    JoinSnoc(texts, show(a.gnomade), "");
  }

  /** The built-in settings: only `MIM_morbid` phenotypes are reported, and a
      `gnomade` value of 0.0005 is still rare while 0.0006 is common. */
  lemma BuiltInSettings()
    ensures MatchingPhenotypes([Phenotype("A", "MIM_morbid"), Phenotype("B", "Orphanet")], DefaultSources) == ["A"]
    ensures IsRare(Colocated(Some([AlleleFrequency("A", 0.0005)]), "rs1"), DefaultThreshold)
    ensures IsCommon(Colocated(Some([AlleleFrequency("A", 0.0006)]), "rs1"), DefaultThreshold)
  {
    var common := AlleleFrequency("A", 0.0006);
    RareIffAllEntries(Colocated(Some([common]), "rs1"), DefaultThreshold);
    assert common in [common];
  }

  /** A rare colocated variant becomes the source of the rsID and frequency
      text; one that is not rare leaves both as they were. */
  lemma LastRareWins(cvs: seq<Colocated>, cv: Colocated, cfg: Config)
    ensures IsRare(cv, cfg.threshold) ==>
      RsId(cvs + [cv], cfg.threshold) == cv.id &&
      FreqField(cvs + [cv], cfg) == FreqText(GnomadeValues(cv.frequencies.value), cfg.show)
    ensures !IsRare(cv, cfg.threshold) ==>
      RsId(cvs + [cv], cfg.threshold) == RsId(cvs, cfg.threshold) &&
      FreqField(cvs + [cv], cfg) == FreqField(cvs, cfg)
  {
  }

  /** With no rare colocated variant the rsID and frequency text stay `-`. */
  lemma NoRareVariantLeavesDashes(r: Record, cfg: Config)
    requires forall j :: 0 <= j < |ColocatedOf(r)| ==> !IsRare(ColocatedOf(r)[j], cfg.threshold)
    ensures forall row :: row in RecordRows(r, cfg) ==> row.id == "-" && row.freq == "-"
  {
  }

  /** A record whose only colocated variant is rare reports its rsID and the
      text of its frequencies in every row. */
  lemma SingleRareVariantPopulatesRows(r: Record, cfg: Config, cv: Colocated)
    requires r.colocated == Some([cv]) && IsRare(cv, cfg.threshold)
    ensures forall row :: row in RecordRows(r, cfg) ==>
      row.id == cv.id && row.freq == FreqText(GnomadeValues(cv.frequencies.value), cfg.show)
  {
  }

  // ---------------------------------------------------------------- the report

  lemma AllRowsSnoc(records: seq<Record>, r: Record, cfg: Config)
    ensures AllRows(records + [r], cfg) == AllRows(records, cfg) + RecordRows(r, cfg)
  {
    assert (records + [r])[..|records|] == records;
  }

  /** Rows follow record order: the rows of a concatenation of documents are
      the concatenation of their rows. */
  lemma {:induction false} AllRowsAppend(a: seq<Record>, b: seq<Record>, cfg: Config)
    ensures AllRows(a + b, cfg) == AllRows(a, cfg) + AllRows(b, cfg)
  {
    if b == [] {
      assert a + b == a;
    } else {
      var init, last := b[..|b| - 1], b[|b| - 1];
      assert a + b == (a + init) + [last];
      assert b == init + [last];
      AllRowsSnoc(a + init, last, cfg);
      AllRowsSnoc(init, last, cfg);
      AllRowsAppend(a, init, cfg);
      ConcatAssociative(AllRows(a, cfg), AllRows(init, cfg), RecordRows(last, cfg));
    }
  }

  lemma ConcatAssociative<T>(x: seq<T>, y: seq<T>, z: seq<T>)
    ensures (x + y) + z == x + (y + z)
  {
  }

  /** No text value of the row contains a tab. */
  predicate TabFree(row: Row)
  {
    '\t' !in row.input && '\t' !in row.alleles && '\t' !in row.id && '\t' !in row.freq &&
    '\t' !in row.biotype && '\t' !in row.hgvsp && '\t' !in row.geneId &&
    (forall s :: s in row.terms ==> '\t' !in s) &&
    (forall s :: s in row.phenotypes ==> '\t' !in s)
  }

  /** When no value contains a tab, splitting an output line on tabs gives
      back the row's nine fields. */
  lemma LineSplitsIntoFields(row: Row)
    requires TabFree(row)
    ensures Split(Line(row), '\t') == Fields(row)
  {
    JoinAvoids(row.terms, " ", '\t');
    JoinAvoids(row.phenotypes, "; ", '\t');
    SplitJoin(Fields(row), '\t');
  }

  /** The header line has one column per field of a row, and a line with no
      tab in its values splits into as many fields as the header. */
  lemma HeaderMatchesFields(row: Row)
    ensures |Split(Header(), '\t')| == |Fields(row)|
    ensures TabFree(row) ==> |Split(Line(row), '\t')| == |Split(Header(), '\t')|
  {
    if TabFree(row) {
      LineSplitsIntoFields(row);
    }
  }
}
