# VEP JSON record filter, modelled in Dafny

`vep_json_parser.py` reads the JSON array written by a variant-effect-prediction
tool and prints a tab-separated report of the variants worth a clinician's look.
For every variant record it

1. scans the `transcript_consequences`, keeping transcripts whose impact is
   `HIGH` or `MODERATE` and that pass a SIFT/PolyPhen score gate, and fills five
   parallel lists (biotypes, phenotypes, hgvsp, gene ids, consequence terms)
   from the kept ones;
2. if a transcript was kept, scans the `colocated_variants`: a variant with a
   `gnomade` frequency above the threshold clears the record's relevance, and
   the rsID and frequency text come from the last variant whose frequencies are
   all at or below it;
3. if the record is still relevant, emits one line per kept transcript.

The project models that pass:

- `text.dfy` (module `Text`): Python's `str.join`, `str.split` on one
  character, and `str()` of an integer, with the lemma that splitting a join
  gives the parts back.
- `vep_model.dfy` (module `VepModel`): the parsed JSON as datatypes (`Record`,
  `Transcript`, `Phenotype`, `Colocated`, `AlleleFrequency`, optional keys as
  `Option`), the output `Row`, its formatted `Line`, the `Header`, and a
  declarative reference definition of the rows: `Kept` (the kept
  transcripts), `MatchingPhenotypes`, `LastRareIndex`, `RecordRows`, `AllRows`.
  The annotation-source allow-list (`["MIM_morbid"]`), the threshold
  (`0.0005`) and the rendering of a float are fields of a `Config` parameter.
- `vep_parser.dfy` (module `VepParser`): the script's loops as methods with
  loop invariants — `ScanTranscripts`, `ScanColocated`, `FilterRecord` (one
  iteration of the record loop, with the emission loop) and `FilterRecords`
  (the whole pass) — each proved to compute what the reference definition says.
- `vep_properties.dfy` (module `VepProperties`): lemmas about the reference
  definition: which transcripts can contribute rows, order preservation,
  the effect of common and rare colocated variants, and the line format.

Two places where the code is easy to misread; the model follows the code:

- Score gate (`vep_json_parser.py:31-33`): a transcript carrying both
  `sift_score` and `polypen_prediction` is KEPT only when `sift_score < 0.05`
  and `polypen_prediction > 0.446`. So `HIGH` with scores 0.01 / 0.5 is kept and
  `HIGH` with 0.01 / 0.3 is dropped (`ScoreGateExamples`); reading the condition
  as a rejection rule would give the opposite.
- Relevance in the colocated scan (`vep_json_parser.py:55-56`): nothing in that
  loop sets `is_relevant` back to true, so one common colocated variant drops
  the record even when a later colocated variant is rare
  (`CommonVariantDropsRecord`); it does not toggle back.

## Model

| member | source | states |
|---|---|---|
| VepParser.FilterRecords | vep_json_parser.py:17-61 | the report lines are exactly the rows of all records, formatted one per line, in record order and then transcript order |
| VepParser.FilterRecord | vep_json_parser.py:19-61 | the lines one record emits are exactly its rows: one per kept transcript when it is relevant after both scans, none otherwise |
| VepParser.ScanTranscripts | vep_json_parser.py:28-46 | the record is relevant iff some transcript is kept; the five accumulators have equal length, the number of kept transcripts, and position j holds kept transcript j's biotype, allow-listed phenotypes, hgvsp, gene id (`-` when missing) and consequence terms |
| VepParser.ScanColocated | vep_json_parser.py:47-56 | relevance survives iff no colocated variant has a frequency above the threshold; the rsID and frequency text are those of the last all-rare variant, `-` when there is none |
| VepModel.Kept | vep_json_parser.py:29-34 | the kept transcripts are no more than the input transcripts |
| VepModel.MatchingPhenotypes | vep_json_parser.py:41 | a name is reported iff some phenotype entry with an allow-listed source carries it; no more names than entries |
| VepModel.LastRareIndex | vep_json_parser.py:48-53 | the index found is of a rare variant (frequencies present, all at or below the threshold) with no rare variant after it; none found means no variant is rare |
| VepModel.HighOrModerate | vep_json_parser.py:30 | definition: the impact is `HIGH` or `MODERATE` (used by KeptMembers, LowImpactNeverContributes) |
| VepModel.OrDash | vep_json_parser.py:35-38 | definition: a missing `biotype`, `hgvsp` or `gene_id` is reported as `-` (used by ScanTranscripts, RowsFollowKeptTranscripts) |
| VepModel.IsRare | vep_json_parser.py:49-51 | definition: frequencies present and all at or below the threshold (entry by entry in RareIffAllEntries) |
| VepModel.IsCommon | vep_json_parser.py:49-51 | definition: frequencies present and some value above the threshold (entry by entry in RareIffAllEntries, exclusive of IsRare in RareOrCommon) |
| VepModel.Passes | vep_json_parser.py:30-33 | definition: a transcript is kept when its impact is HIGH or MODERATE and it passes the score gate (properties in KeptMembers, ScoreGateExamples) |
| VepModel.PassesScoreGate | vep_json_parser.py:31-33 | definition: with both scores present, SIFT below 0.05 and PolyPhen above 0.446; with either missing, no condition |
| VepModel.FreqText | vep_json_parser.py:52 | definition: the rendered frequencies concatenated without separator (properties in FreqTextOfEntries) |
| VepModel.Fields | vep_json_parser.py:61 | a row has one field per header column: input, alleles, strand, rsID, frequencies, space-joined terms, biotype, `hgvsp@gene_id`, `; `-joined phenotypes |
| VepModel.Line | vep_json_parser.py:61 | definition: the fields joined by tabs (round trip in LineSplitsIntoFields) |
| VepModel.Header | vep_json_parser.py:63 | the header line splits on tabs into exactly the nine column titles |
| VepModel.RecordRows | vep_json_parser.py:19-61 | definition: one row per kept transcript, in order, with the rsID and frequency text of the last rare colocated variant, when a transcript is kept and no colocated variant is common; none otherwise |
| VepModel.AllRows | vep_json_parser.py:17-61 | definition: the rows of all records concatenated in record order (AllRowsAppend) |
| Text.Join | vep_json_parser.py:52-61 | definition of `sep.join(parts)` (properties in Text.JoinSnoc and LineSplitsIntoFields) |
| Text.JoinSnoc | vep_json_parser.py:52-61 | joining one more part appends the separator and the part, or gives the part alone when there were none |
| Text.IntToString | vep_json_parser.py:61 | `str(strand)`: a minus sign exactly for negatives and only in front, then decimal digits without leading zeros that read back as the magnitude |
| VepProperties.RareIffAllEntries | vep_json_parser.py:49-51 | a colocated variant is rare iff it has frequencies and every allele entry's `gnomade` is at or below the threshold, common iff some entry's is above it |
| VepProperties.FreqTextOfEntries | vep_json_parser.py:50-52 | the frequency text of no entries is empty, and one more entry appends its rendered `gnomade` at the end, so the text follows the mapping's order |
| VepProperties.BuiltInSettings | vep_json_parser.py:5-6 | with the built-in settings only `MIM_morbid` phenotypes are reported, 0.0005 is still rare and 0.0006 is common |
| VepProperties.KeptMembers | vep_json_parser.py:29-34 | a transcript is kept iff it is in the input and has impact HIGH or MODERATE and passes the score gate |
| VepProperties.KeptAppend | vep_json_parser.py:29-46 | keeping distributes over concatenation, so kept transcripts stay in input order |
| VepProperties.SameKeptSameRows | vep_json_parser.py:28-61 | a record's rows depend on its transcripts only through the kept ones |
| VepProperties.DroppingUnkeptTranscript | vep_json_parser.py:29-34 | removing a transcript the scan does not keep leaves the record's rows unchanged |
| VepProperties.LowImpactNeverContributes | vep_json_parser.py:30 | a transcript whose impact is neither HIGH nor MODERATE contributes no row |
| VepProperties.FailedScoreGateNeverContributes | vep_json_parser.py:31-33 | a transcript with both scores contributes no row unless SIFT is below 0.05 and PolyPhen above 0.446 |
| VepProperties.MissingScoreImpactDecides | vep_json_parser.py:31-34 | with either score missing, a transcript is kept iff its impact is HIGH or MODERATE |
| VepProperties.ScoreGateExamples | vep_json_parser.py:30-33 | HIGH with 0.01/0.5 is kept, HIGH with 0.01/0.3 is dropped, MODERATE without scores is kept, LOW is dropped |
| VepProperties.NoTranscriptsNoRows | vep_json_parser.py:20-28 | a record without `transcript_consequences` emits no row |
| VepProperties.RowsFollowKeptTranscripts | vep_json_parser.py:35-61 | a reported record emits as many rows as kept transcripts, row i carrying kept transcript i's fields (it is one of the record's transcripts and HIGH or MODERATE); an unreported record emits none |
| VepProperties.TwoKeptTranscriptsNoColocated | vep_json_parser.py:20-61 | two kept transcripts and no colocated variants give exactly two rows, both with rsID and frequencies `-` |
| VepProperties.MatchingPhenotypesAppend | vep_json_parser.py:41 | the phenotype filter distributes over concatenation, so reported phenotypes keep their original order |
| VepProperties.CommonVariantDropsRecord | vep_json_parser.py:47-59 | one colocated variant with a frequency above the threshold makes the record emit no row, whatever the others are |
| VepProperties.RareOrCommon | vep_json_parser.py:50-56 | a colocated variant with frequencies is rare or common, never both |
| VepProperties.LastRareWins | vep_json_parser.py:48-53 | a later rare variant replaces the rsID and frequency text; a later non-rare one leaves them as they were |
| VepProperties.NoRareVariantLeavesDashes | vep_json_parser.py:21-22 | with no rare colocated variant every row has rsID and frequencies `-` |
| VepProperties.SingleRareVariantPopulatesRows | vep_json_parser.py:49-53 | a record whose only colocated variant is rare reports that variant's id and frequency text in every row |
| VepProperties.AllRowsAppend | vep_json_parser.py:19-61 | rows follow record order: the rows of a concatenation of records are the concatenation of their rows |
| VepProperties.LineSplitsIntoFields | vep_json_parser.py:61 | when no value contains a tab, splitting a line on tabs gives back its nine fields (terms joined by a space, `hgvsp@gene_id`, phenotypes joined by `; `) |
| VepProperties.HeaderMatchesFields | vep_json_parser.py:61-63 | the header has one column per field of a row, and a line without tabs in its values splits into as many fields as the header |

## Left out

- Reading the file name from the command line, opening the file and parsing
  JSON (`vep_json_parser.py:4, 12-13`): the model takes the parsed records as
  its input.
- Printing (`vep_json_parser.py:63-65`): `FilterRecords` returns the lines, and
  `Header` is the header line.
- Python's `str()` of a float in the frequency text (`vep_json_parser.py:52`):
  the rendering is the `show` field of `Config`; only the concatenation order
  of the rendered values is modelled.
- Missing keys at the point where the script reads them, where it stops with
  a `KeyError`: `impact` of every transcript; `consequence_terms` of a kept
  transcript; `source` of a kept transcript's phenotype entries, and
  `phenotype` of those with an allow-listed source; `gnomade` of the allele
  entries in a record that kept a transcript; `id` of a rare colocated variant;
  `input`/`allele_string`/`strand` of a record that emits a line. Values of the
  wrong JSON type are left out too. These keys are mandatory fields of the
  datatypes, so such inputs are not represented. On the paths where the script
  never reads a key, the model accepts any value for it, as the script does.
- Scores and frequencies are `real`, not binary floating point: comparisons
  against 0.05, 0.446 and the threshold are exact, so inputs whose float
  rounding would cross a boundary are not modelled.
- A `frequencies` mapping is an ordered list of allele entries (the order of
  the JSON object, which the frequency text follows); that allele keys are
  unique is not modelled.
- The commented-out sources and notes (`vep_json_parser.py:5, 8-10, 39, 54, 57`).
- Running the filter twice gives the same output because every member here is
  a function of its inputs; there is no separate lemma for it.
