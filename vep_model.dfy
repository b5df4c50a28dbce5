/** The variant records of a variant-effect-prediction JSON report, and a
    declarative reference definition of the rows the filter keeps. */
module VepModel {
  import opened Text

  datatype Option<T> = None | Some(value: T)

  /** One entry of a transcript's `phenotypes` list. */
  datatype Phenotype = Phenotype(phenotype: string, source: string)

  /** One element of a record's `transcript_consequences`; the `Option`
      fields are the keys the filter tests for before reading them. */
  datatype Transcript = Transcript(
    impact: string,
    siftScore: Option<real>,
    polypenPrediction: Option<real>,
    biotype: Option<string>,
    phenotypes: Option<seq<Phenotype>>,
    hgvsp: Option<string>,
    geneId: Option<string>,
    consequenceTerms: seq<string>)

  /** One allele entry of a colocated variant's `frequencies` mapping, kept in
      the mapping's order; only its `gnomade` frequency is read. */
  datatype AlleleFrequency = AlleleFrequency(allele: string, gnomade: real)

  /** One element of a record's `colocated_variants`. */
  datatype Colocated = Colocated(frequencies: Option<seq<AlleleFrequency>>, id: string)

  /** One element of the top-level JSON array. */
  datatype Record = Record(
    input: string,
    alleleString: string,
    strand: int,
    transcripts: Option<seq<Transcript>>,
    colocated: Option<seq<Colocated>>)

  /** The fixed configuration of the filter: the annotation sources whose
      phenotypes are reported, the population-frequency threshold, and how a
      frequency is rendered as text (Python's `str` of a float). */
  datatype Config = Config(sources: seq<string>, threshold: real, show: real -> string)

  /** The values the script has built in. */
  const DefaultSources: seq<string> := ["MIM_morbid"]
  const DefaultThreshold: real := 0.0005

  /** One output line before it is formatted: one per kept (record, transcript) pair. */
  datatype Row = Row(
    input: string,
    alleles: string,
    strand: int,
    id: string,
    freq: string,
    terms: seq<string>,
    biotype: string,
    hgvsp: string,
    geneId: string,
    phenotypes: seq<string>)

  /** The column titles of the report's header line. */
  const Columns: seq<string> :=
    ["INPUT", "ALLELES", "STRAND", "ID", "FREQUENCIES", "CONSEQUENCES", "BIOTYPE", "HGSV@GENE_ID", "PHENOTYPES"]

  /** The header line printed before the rows: the column titles, tab-separated. */
  function Header(): (h: string)
    ensures Split(h, '\t') == Columns
  {
    SplitJoin(Columns, '\t');
    Join(Columns, "\t")
  }

  /** The nine tab-separated fields of a row, in column order. */
  function Fields(row: Row): (fields: seq<string>)
    ensures |fields| == |Columns|
  {
    [row.input, row.alleles, IntToString(row.strand), row.id, row.freq,
     Join(row.terms, " "), row.biotype, row.hgvsp + "@" + row.geneId, Join(row.phenotypes, "; ")]
  }

  /** The formatted output line of a row. */
  function Line(row: Row): string
  {
    Join(Fields(row), "\t")
  }

  // ---------------------------------------------------------------- transcripts

  predicate HighOrModerate(t: Transcript)
  {
    t.impact == "HIGH" || t.impact == "MODERATE"
  }

  /** When both scores are present, the transcript goes on only if SIFT is
      below 0.05 and the PolyPhen value above 0.446; otherwise the gate is open. */
  predicate PassesScoreGate(t: Transcript)
  {
    t.siftScore.Some? && t.polypenPrediction.Some? ==>
      t.siftScore.value < 0.05 && t.polypenPrediction.value > 0.446
  }

  /** A transcript the scan keeps. */
  predicate Passes(t: Transcript)
  {
    HighOrModerate(t) && PassesScoreGate(t)
  }

  /** The kept transcripts, in their original order. */
  function Kept(ts: seq<Transcript>): (kept: seq<Transcript>)
    ensures |kept| <= |ts|
  {
    if ts == [] then []
    else
      var init, last := ts[..|ts| - 1], ts[|ts| - 1];
      assert ts == init + [last];
      Kept(init) + (if Passes(last) then [last] else [])
  }

  /** The names of the phenotypes whose source is one of `sources`, in order. */
  function MatchingPhenotypes(ps: seq<Phenotype>, sources: seq<string>): (names: seq<string>)
    ensures |names| <= |ps|
    ensures forall x :: x in names <==> exists p :: p in ps && p.source in sources && p.phenotype == x
  {
    if ps == [] then []
    else
      assert forall p :: p in ps <==> p == ps[0] || p in ps[1..];
      (if ps[0].source in sources then [ps[0].phenotype] else []) + MatchingPhenotypes(ps[1..], sources)
  }

  /** The phenotype list reported for a kept transcript. */
  function TranscriptPhenotypes(t: Transcript, sources: seq<string>): seq<string>
  {
    match t.phenotypes
    case None => []
    case Some(ps) => MatchingPhenotypes(ps, sources)
  }

  /** A missing optional text field is reported as `-`. */
  function OrDash(o: Option<string>): string
  {
    match o
    case None => "-"
    case Some(s) => s
  }

  // ----------------------------------------------------------- colocated variants

  /** The `gnomade` value of every allele entry, in order. */
  function GnomadeValues(fs: seq<AlleleFrequency>): (values: seq<real>)
    ensures |values| == |fs|
  {
    seq(|fs|, i requires 0 <= i < |fs| => fs[i].gnomade)
  }

  /** The frequency text: the rendered values concatenated without separator. */
  function FreqText(values: seq<real>, show: real -> string): string
  {
    Join(seq(|values|, i requires 0 <= i < |values| => show(values[i])), "")
  }

  /** A colocated variant with frequencies, all at or below the threshold
      (an empty mapping qualifies). */
  predicate IsRare(cv: Colocated, threshold: real)
  {
    cv.frequencies.Some? &&
    forall f :: f in GnomadeValues(cv.frequencies.value) ==> f <= threshold
  }

  /** A colocated variant with some frequency above the threshold. */
  predicate IsCommon(cv: Colocated, threshold: real)
  {
    cv.frequencies.Some? &&
    exists f :: f in GnomadeValues(cv.frequencies.value) && f > threshold
  }

  predicate AnyCommon(cvs: seq<Colocated>, threshold: real)
  {
    exists i :: 0 <= i < |cvs| && IsCommon(cvs[i], threshold)
  }

  /** The position of the last rare colocated variant, if there is one. */
  function LastRareIndex(cvs: seq<Colocated>, threshold: real): (k: Option<nat>)
    ensures k.Some? ==> k.value < |cvs| && IsRare(cvs[k.value], threshold)
    ensures k.Some? ==> forall j :: k.value < j < |cvs| ==> !IsRare(cvs[j], threshold)
    ensures k.None? ==> forall j :: 0 <= j < |cvs| ==> !IsRare(cvs[j], threshold)
  {
    if cvs == [] then None
    else if IsRare(cvs[|cvs| - 1], threshold) then Some(|cvs| - 1)
    else LastRareIndex(cvs[..|cvs| - 1], threshold)
  }

  /** The rsID reported for a record with these colocated variants. */
  function RsId(cvs: seq<Colocated>, threshold: real): string
  {
    match LastRareIndex(cvs, threshold)
    case None => "-"
    case Some(k) => cvs[k].id
  }

  /** The frequency text reported for a record with these colocated variants. */
  function FreqField(cvs: seq<Colocated>, cfg: Config): string
  {
    match LastRareIndex(cvs, cfg.threshold)
    case None => "-"
    case Some(k) => FreqText(GnomadeValues(cvs[k].frequencies.value), cfg.show)
  }

  function ColocatedOf(r: Record): seq<Colocated>
  {
    match r.colocated
    case None => []
    case Some(cvs) => cvs
  }

  // ------------------------------------------------------------------ rows

  /** The row of a kept transcript of record `r`. */
  function RowOf(r: Record, t: Transcript, cfg: Config, id: string, freq: string): Row
  {
    Row(r.input, r.alleleString, r.strand, id, freq, t.consequenceTerms,
        OrDash(t.biotype), OrDash(t.hgvsp), OrDash(t.geneId), TranscriptPhenotypes(t, cfg.sources))
  }

  /** A record is reported when it has a kept transcript and no common
      colocated variant. */
  predicate Reported(r: Record, cfg: Config)
  {
    r.transcripts.Some? && Kept(r.transcripts.value) != [] && !AnyCommon(ColocatedOf(r), cfg.threshold)
  }

  /** The rows of one record: one per kept transcript, in transcript order,
      when the record is reported; none otherwise. */
  function RecordRows(r: Record, cfg: Config): seq<Row>
  {
    if !Reported(r, cfg) then []
    else
      var kept := Kept(r.transcripts.value);
      var cvs := ColocatedOf(r);
      seq(|kept|, i requires 0 <= i < |kept| =>
        RowOf(r, kept[i], cfg, RsId(cvs, cfg.threshold), FreqField(cvs, cfg)))
  }

  /** The rows of all records, in record order. */
  function AllRows(records: seq<Record>, cfg: Config): seq<Row>
  {
    if records == [] then []
    else AllRows(records[..|records| - 1], cfg) + RecordRows(records[|records| - 1], cfg)
  }
}
