# Rooted SNPs to per-codon-change spectra, in Dafny

This project models the part of PRF_Ratios_syn that turns rooted SNP
records into per-codon-change allele-count histograms, and proves properties
of that model. There are four parts:

- **The codon-change catalog** `synonymous_1nt_pairs`: 134 labels
  `"XXX->YYY"`, one per ordered pair of sense codons that differ at one
  nucleotide and encode the same amino acid.
  - Modules: `Codons`, `CatalogFamilies`, `CodonCatalog`.
  - `Codons` holds the genetic code kept in comments beside the list.
- **The histogram builder** `create_codon_change_sfs_dict`.
  - It maps every catalog label to a map from sample size n to a vector
    of n + 1 bins.
  - It counts the rows, optionally after dropping exon-intron-junction
    ("eij") rows.
  - Module: `CodonAnalyses`.
- **Rooting and keying of records.**
  - `DataProcessing` covers the pandas row steps: `swap_values`,
    `create_codon_change` and `process_main_table`.
  - `TsvUtils` covers the field helpers of process_tsv_utils.py.
  - `FunctionalSnps` covers the line pipeline `process_functional_snps_tsv`
    and `make_header`.
  - `RootingSnps` covers the line pipeline `root_snps`.
- **The grouping step of tsv_to_sfs.py `main`**: group, sort, min/max,
  matrices. Module: `TsvToSfs`.

Python behaviour the model keeps:

- `strip`, `split("\t")`, `"sep".join`, slicing with clamped bounds and
  `int()` are written out in `PyStr`.
- String `sorted` order is code-point order.
- A negative list index wraps around.
- `[0] * (n + 1)` is empty for negative n.
- Dicts keep insertion order, so the matrix rows come out in that order.
- Each Python exception becomes `Err(IndexError)`, `Err(KeyError)`,
  `Err(ValueError)` or `Err(AttributeError)`.

File reading and writing become sequences of lines held in memory.

The derived counts in tsv_to_sfs.py are never converted from strings. The
model therefore sorts them as strings, as the code does, so "10" comes
before "9".

## Model

| member | source | states |
|---|---|---|
| CodonCatalog.CatalogSize | PRF_Ratios_syn/codon_changes_dict.py:5-28 | The catalog has exactly 134 entries. |
| CodonCatalog.CatalogDistinct | PRF_Ratios_syn/codon_changes_dict.py:6-28 | No label and no codon pair occurs twice. |
| CodonCatalog.CatalogLabelsWellFormed | PRF_Ratios_syn/codon_changes_dict.py:6-28 | Each label is two 3-letter codons over A, C, G, T joined by "->", and parses back to its pair. |
| CodonCatalog.CatalogEntriesSynonymous | PRF_Ratios_syn/codon_analyses.py:14-23 | Both codons of each entry encode the same amino acid under the genetic code. Neither is a stop codon. They differ at exactly one position. |
| CodonCatalog.CatalogComplete | PRF_Ratios_syn/codon_analyses.py:44-67 | Every one-nucleotide synonymous change between sense codons is in the catalog. |
| CodonCatalog.CatalogMembership | PRF_Ratios_syn/codon_analyses.py:44-67 | A label is in the catalog if and only if it names a one-nucleotide synonymous change between sense codons. |
| CodonCatalog.CatalogPairedReversals | PRF_Ratios_syn/codon_changes_dict.py:6-28 | Entries 2k and 2k+1 are a change and its reverse. |
| CodonCatalog.CatalogReversalClosed | PRF_Ratios_syn/codon_changes_dict.py:6-28 | If "A->B" is listed, then "B->A" is listed. |
| CatalogFamilies.AllFamiliesOk | PRF_Ratios_syn/codon_analyses.py:45-67 | Each amino-acid block of the list is synonymous, paired, duplicate-free and complete. The blocks name distinct amino acids. |
| Codons.ParseChangeString | PRF_Ratios_syn/codon_analyses.py:72-75 | Splitting a label at "->" gives back the two codons it was built from. |
| Codons.ChangeStringInjective | PRF_Ratios_syn/codon_changes_dict.py:6-28 | Two labels are equal only when their codon pairs are equal. |
| PyStr.Split | rooting_snps_utils.py:31-32 | `split` gives at least one field and no field holds the separator. |
| PyStr.JoinSplit | rooting_snps_utils.py:31-32 | Joining the fields of a split with the separator gives the string back, so no character is lost or added. |
| PyStr.SplitJoin | rooting_snps_utils.py:78 | Splitting a tab-join of tab-free fields gives the fields back. |
| PyStr.Strip | rooting_snps_utils.py:31 | `strip` returns a contiguous part of the string: everything cut off before and after it is whitespace, and what it keeps neither starts nor ends with whitespace. |
| PyStr.Upper | scripts/temp_src/process_tsv_utils.py:51-52 | `upper` keeps the length and maps each character on its own. |
| PyStr.UpperIdempotent | scripts/temp_src/process_tsv_utils.py:51-52 | Upper-casing twice is upper-casing once; only the letters a-z change, each becomes its capital A-Z, and no letter a-z is left. |
| PyStr.Slice | scripts/temp_src/process_tsv_utils.py:99-100 | `s[lo:hi]` has the clamped length and the characters of `s` from `lo` on. |
| PyStr.ParseInt | tsv_to_sfs.py:135-136 | `int()` fails only with `ValueError`, and it fails on a string that starts or ends with an information separator (U+001C to U+001F), which `strip()` would treat as whitespace. |
| PyStr.ParseIntToString | tsv_to_sfs.py:135-136 | `int(str(n)) == n` for every integer. |
| PyStr.StrLessEqTotal | tsv_to_sfs.py:125 | Any two strings are comparable. |
| PyStr.StrLessEqAntisymmetric | tsv_to_sfs.py:125 | Strings that are each at most the other are equal. |
| PyStr.StrLessEqTransitive | tsv_to_sfs.py:125 | String order is transitive. |
| TsvUtils.Fields | scripts/temp_src/implementations.py:60 | A stripped and split line has at least one field, and no field holds a tab. |
| TsvUtils.CommentByFirst | scripts/temp_src/implementations.py:56-57 | A line is skipped as a comment if and only if it is not empty and its first character is "#". |
| TsvUtils.UpperKeepsTabs | scripts/temp_src/process_tsv_utils.py:51-52 | Upper-casing creates no tab and removes none. |
| TsvUtils.ProcessSnpSignature | scripts/temp_src/process_tsv_utils.py:9-27 | Fails with `IndexError` if and only if the line has fewer than 20 fields. Otherwise returns chrom, pos, effect, totalcount = fields 0, 1, 19, 12. |
| TsvUtils.ProcessAlleles | scripts/temp_src/process_tsv_utils.py:30-55 | Fails if and only if the line has fewer than 19 fields. Otherwise returns the root = field 2, the alleles = fields 3, 4, the counts = fields 10, 11, and the upper-cased codons = fields 17, 18. |
| TsvUtils.RootSnp | scripts/temp_src/process_tsv_utils.py:58-75 | Each of the three lists keeps its length. Two-element lists have their elements exchanged. The root is kept. |
| TsvUtils.RootSnpInvolution | scripts/temp_src/process_tsv_utils.py:71-73 | Rooting twice restores the lists. |
| TsvUtils.MakeCodonChangeKeys | scripts/temp_src/process_tsv_utils.py:78-87 | For two codons the key is `a + "->" + b`. |
| TsvUtils.CodonChangeKeyIsLabel | scripts/temp_src/process_tsv_utils.py:85 | The key of two codon strings is the catalog's label for that change, and parses back to the pair. |
| TsvUtils.MakeMutationalChangeKeys | scripts/temp_src/process_tsv_utils.py:90-104 | Fails if and only if the line has fewer than 15 fields. Otherwise the key is `line[13][2:5] + "->" + line[14][2:5]` with clamped slices. |
| TsvUtils.MutationalKeyShape | scripts/temp_src/process_tsv_utils.py:99-102 | Each side of the key has at most 3 characters, and exactly 3 when its context field has at least 5. "->" sits right after the left side. |
| DataProcessing.SwapAll | PRF_Ratios_syn/data_processing.py:20-21 | The swap loop fails with `KeyError` if and only if a named column is missing. It keeps the column set and leaves unnamed columns unchanged. |
| DataProcessing.SwapValues | PRF_Ratios_syn/data_processing.py:11-22 | A row whose aainfo is not "root_alt" is returned unchanged. A missing aainfo or a missing named column is a `KeyError`. Unnamed columns never change. |
| DataProcessing.SwapAllExchanges | PRF_Ratios_syn/data_processing.py:20-21 | With disjoint pairs, each pair's two values are exchanged. |
| DataProcessing.SwapValuesInvolution | PRF_Ratios_syn/data_processing.py:19-22 | With disjoint pairs that do not name aainfo, swapping twice gives the row back. |
| DataProcessing.CreateCodonChange | PRF_Ratios_syn/data_processing.py:25-33 | Returns "NA" when either codon is missing. For two strings it returns `upper(ref) + "->" + upper(alt)`. A missing column is a `KeyError`; a number cell is an `AttributeError`. |
| DataProcessing.CodonChangeLabelsCatalog | PRF_Ratios_syn/data_processing.py:33 | The label of two codon strings is the catalog label of the change. It is in the catalog if and only if the change is synonymous at one nucleotide. |
| DataProcessing.SwapRows | PRF_Ratios_syn/data_processing.py:40 | The first apply succeeds if and only if every row swaps. It then keeps the row count and holds each row swapped. |
| DataProcessing.CodonChanges | PRF_Ratios_syn/data_processing.py:41 | The second apply labels every row or fails with the error of a row that cannot be labelled. |
| DataProcessing.ProcessMainTable | PRF_Ratios_syn/data_processing.py:36-42 | Keeps the number of rows. Output row i is swapped row i plus a codon_change column computed from the swapped codons. |
| DataProcessing.ProcessMainTableSwapFirst | PRF_Ratios_syn/data_processing.py:40-41 | A row that cannot be swapped makes the whole call a `KeyError`. |
| DataProcessing.ProcessMainTableKeepsUnrooted | PRF_Ratios_syn/data_processing.py:19-22 | A row that is not "root_alt" comes out as itself plus its codon_change. |
| CodonAnalyses.EmptyHistograms | PRF_Ratios_syn/codon_analyses.py:91-93 | Before any row, every catalog label maps to an empty inner map. |
| CodonAnalyses.Zeros | PRF_Ratios_syn/codon_analyses.py:108 | `[0] * (n + 1)` has n + 1 zero bins. |
| CodonAnalyses.AddRowTallies | PRF_Ratios_syn/codon_analyses.py:99-110 | Adding an in-range kept row to exact spectra gives the exact spectra of the longer table. |
| CodonAnalyses.AddRowOutOfRange | PRF_Ratios_syn/codon_analyses.py:107-110 | An altcount outside the vector's index range, or a negative totalcount, raises `IndexError`. |
| CodonAnalyses.Accumulate | PRF_Ratios_syn/codon_analyses.py:95-110 | The loop fails with `IndexError` if and only if a kept row is out of range. Otherwise its result is the exact spectra of the rows. |
| CodonAnalyses.TalliesDetermine | PRF_Ratios_syn/codon_analyses.py:80-112 | Exact spectra are unique: two results that both tally the rows are equal. |
| CodonAnalyses.CountPermutation | PRF_Ratios_syn/codon_analyses.py:99 | Reordering the rows changes no count. |
| CodonAnalyses.AccumulateOrderIndependent | PRF_Ratios_syn/codon_analyses.py:99-110 | The loop's result does not depend on row order. |
| CodonAnalyses.AccumulateSkipsDropped | PRF_Ratios_syn/codon_analyses.py:95-103 | A row that is not kept changes nothing, wherever it stands. |
| CodonAnalyses.AccumulateIgnoresAnnotation | PRF_Ratios_syn/codon_analyses.py:95-96 | Without the filter, the annotations of the rows do not matter. |
| CodonAnalyses.AccumulateTotal | PRF_Ratios_syn/codon_analyses.py:99-110 | The sum of all bins equals the number of kept rows. |
| CodonAnalyses.CreateCodonChangeSfsDict | PRF_Ratios_syn/codon_analyses.py:80-112 | Fails if and only if a kept row has altcount outside [-(n+1), n] or a negative n. The keys are exactly the 134 labels. Sample size n is present under c if and only if a kept row has c and n. Each vector has n + 1 bins, and bin j counts the kept rows with c and n whose altcount selects bin j (a negative altcount counts from the end). Each vector sums to its group's size. |
| CodonAnalyses.CreateCodonChangeSfsDictTotal | PRF_Ratios_syn/codon_analyses.py:99-110 | The sum of all bins across all vectors equals the number of kept catalog rows. |
| CodonAnalyses.CreateCodonChangeSfsDictOrderIndependent | PRF_Ratios_syn/codon_analyses.py:99-110 | Permuting the rows gives the same dictionary. |
| CodonAnalyses.UncataloguedRowIgnored | PRF_Ratios_syn/codon_analyses.py:103 | A row whose codon_change is not in the catalog contributes nothing. |
| CodonAnalyses.JunctionRowFiltered | PRF_Ratios_syn/codon_analyses.py:95-96 | With the filter on, an "eij" row contributes nothing. |
| CodonAnalyses.AnnotationIgnoredWithoutFilter | PRF_Ratios_syn/codon_analyses.py:95-96 | With the filter off, no row is dropped for its annotation. |
| FunctionalSnps.FunctionalRow | scripts/temp_src/implementations.py:66-82 | Fails with `IndexError` if and only if the line has fewer than 20 fields. A row is produced if and only if the effect matches. The row has 12 fields in the documented order, with counts, alleles and codons taken from the ancestral side first. |
| FunctionalSnps.LineRows | scripts/temp_src/implementations.py:55-85 | A comment line gives no row. A short line is an `IndexError`. A line of another effect gives none, and a matching line gives its one row. |
| FunctionalSnps.ProcessFunctionalSnps | scripts/temp_src/implementations.py:39-92 | Fails if and only if some non-comment line is short. There are never more rows than non-comment lines. Every row has 12 fields, the requested effect at field 2, and `row[11] == row[9] + "->" + row[10]`. |
| FunctionalSnps.ProcessOneLine | scripts/temp_src/implementations.py:55-85 | One line on its own gives exactly the rows of the loop body. |
| FunctionalSnps.ProcessFunctionalSnpsAppend | scripts/temp_src/implementations.py:51-92 | The rows of `a + b` are the rows of `a` followed by the rows of `b`, and a failure of either is a failure of both. |
| FunctionalSnps.CommentLineSkipped | scripts/temp_src/implementations.py:56-57 | A "#" line changes nothing, wherever it stands. |
| FunctionalSnps.RowsInInputOrder | scripts/temp_src/implementations.py:51-92 | A kept line's row comes right after the rows of all earlier lines. |
| FunctionalSnps.MakeHeader | scripts/temp_src/implementations.py:11-23 | The header splits back into the 11 names. |
| FunctionalSnps.RowLineRoundTrip | scripts/temp_src/implementations.py:33-36 | A written row of tab-free fields reads back as the row. |
| FunctionalSnps.RowFieldsTabFree | scripts/temp_src/implementations.py:60-82 | No field of an emitted row holds a tab. |
| FunctionalSnps.WrittenTsvText | scripts/temp_src/implementations.py:87-90 | The written file exists if and only if every non-comment line is long enough. |
| FunctionalSnps.HeaderMisalignedWithRows | scripts/temp_src/implementations.py:16-23 | As written: an 11-name header over 12-field rows, and the column named "aainfo" holds the effect. |
| FunctionalSnps.FunctionalTsvText | scripts/temp_src/implementations.py:87-90 | With the corrected header, the file exists if and only if every non-comment line is long enough. |
| FunctionalSnps.FunctionalHeaderAligned | scripts/temp_src/implementations.py:82-90 | With the corrected header, for any input and every written row k: the header has 12 names and line k + 1 splits back into row k, with 12 fields. Row k comes from a kept input line of the requested effect, and under each of the 12 names sits the value that name means for that line (`NamedValue`). |
| FunctionalSnps.RowSource | scripts/temp_src/implementations.py:55-85 | Every written row comes from a non-comment input line whose effect is the requested one. The row is the one that line's columns determine, and none of its fields holds a tab. |
| FunctionalSnps.JoinedLineKept | scripts/temp_src/implementations.py:55-85 | Twenty tab-free fields, joined by tabs, not starting with "#" and with no whitespace at either end, read back as those fields. The line gives exactly one row for its own effect, so inputs with written rows exist. |
| FunctionalSnps.CorrectedTextOfLine | scripts/temp_src/implementations.py:82-90 | With the corrected header, one kept line gives the header line and then the line of its row. That row is the one its columns determine, and it reads back from its line. |
| RootingSnps.RootingHeader | rooting_snps_utils.py:18-24 | The header line splits back into the 11 names. |
| RootingSnps.RootedRow | rooting_snps_utils.py:31-71 | Fails with `IndexError` if and only if the line has fewer than 20 fields. The row has 11 fields: chrom, pos, root, totalcount and effect are copied, codons are upper-cased, and alleles, counts and codons are swapped on "root_alt". |
| RootingSnps.LineOutput | rooting_snps_utils.py:28-83 | A comment line gives nothing. A short line is an `IndexError`, even when the filter would drop it. Otherwise the line's row is given if and only if the filter passes it. |
| RootingSnps.RootRows | rooting_snps_utils.py:27-83 | The only error is `IndexError`. |
| RootingSnps.RootRowsShape | rooting_snps_utils.py:27-83 | The run stops if and only if a non-comment line is short. Rows never outnumber non-comment lines, and match them one for one when there is no filter and no failure. Every row has 11 fields and passes the filter. |
| RootingSnps.RootOneLine | rooting_snps_utils.py:28-83 | One line gives nothing (comment), an error (short), or its rooted row exactly when the filter passes it. |
| RootingSnps.RootRowsAppend | rooting_snps_utils.py:27-83 | The output of `a + b` is that of `a` if `a` fails. Otherwise it is the rows of `a` followed by the output of `b`. |
| RootingSnps.CommentLineSkipped | rooting_snps_utils.py:29-30 | A "#" line changes nothing, wherever it stands. |
| RootingSnps.ShortLineStops | rooting_snps_utils.py:27-35 | A short line ends the run with `IndexError`. The rows of the lines before it stay written, and nothing after it is written. |
| RootingSnps.WrittenHeaderFirst | rooting_snps_utils.py:18-24 | The file's first line is the header with the 11 names. |
| RootingSnps.WrittenLineReadsBack | rooting_snps_utils.py:78-83 | Written line k + 1 splits back into row k. |
| RootingSnps.RootRowsEach | rooting_snps_utils.py:31-83 | Every written row has 11 fields and passes the filter, and none of its fields holds a tab. |
| RootingSnps.RootRowsFail | rooting_snps_utils.py:27-35 | The run fails if and only if some non-comment line has fewer than 20 fields. |
| RootingSnps.RootRowsCount | rooting_snps_utils.py:27-83 | At most one row per non-comment line, and exactly one each when there is no filter and no failure. |
| RootingSnps.RootingAgreesWithFunctional | rooting_snps_utils.py:67-71 | The rooted row and the `process_functional_snps_tsv` row of the same line hold the same eleven values in a different order. |
| TsvToSfs.Lookup | tsv_to_sfs.py:129 | `d[k]` is a `KeyError` if and only if k is not a key. Otherwise it is the value stored under k. |
| TsvToSfs.KeysPut | tsv_to_sfs.py:114-118 | Storing under an existing key keeps every key's place. A new key goes last. |
| TsvToSfs.FindPut | tsv_to_sfs.py:114-120 | After `d[k] = v`, k gives v and every other key is unchanged. |
| TsvToSfs.GroupRows | tsv_to_sfs.py:108-120 | The grouping loop fails with `IndexError` if and only if some row has fewer than 12 fields. |
| TsvToSfs.GroupRowsPairs | tsv_to_sfs.py:114-115 | The codon pairs become keys in order of first occurrence. |
| TsvToSfs.GroupRowsTotals | tsv_to_sfs.py:117-118 | Under each pair, its rows' total counts become keys in order of first occurrence. |
| TsvToSfs.GroupRowsCollects | tsv_to_sfs.py:108-120 | Group [pair][total] holds field 5 of exactly the rows with that pair (field 11) and total (field 3), in row order. |
| TsvToSfs.GroupRowsEntries | tsv_to_sfs.py:108-120 | The groups hold as many entries as there are rows. |
| TsvToSfs.Insert | tsv_to_sfs.py:125 | Inserting into an ascending list keeps it ascending and adds exactly the one element. |
| TsvToSfs.SortStrings | tsv_to_sfs.py:125 | `sorted` returns an ascending permutation of its input. |
| TsvToSfs.AscendingUnique | tsv_to_sfs.py:125 | Two ascending permutations of the same strings are equal, so the result does not depend on the sorting algorithm. |
| TsvToSfs.SortGroupsFind | tsv_to_sfs.py:123-125 | After sorting, the pairs and total counts are unchanged and each group is its old list sorted. |
| TsvToSfs.SortGroupsEntries | tsv_to_sfs.py:123-125 | Sorting neither adds nor drops an entry. |
| TsvToSfs.ParseAll | tsv_to_sfs.py:135-136 | The `int()` conversions succeed if and only if every key parses, and each value is its key's integer. |
| TsvToSfs.MaxOf | tsv_to_sfs.py:135 | `max` is an element and bounds all elements from above. |
| TsvToSfs.MinOf | tsv_to_sfs.py:136 | `min` is an element and bounds all elements from below. |
| TsvToSfs.TotalCountRange | tsv_to_sfs.py:134-139 | Fails with `ValueError` if and only if some total count is not an integer. The result is None if and only if the pair has no totals. Otherwise min ≤ max, both are attained, and they bound every total. |
| TsvToSfs.TotalCountRanges | tsv_to_sfs.py:132-139 | One range per codon pair, in key order. Fails if any pair's range fails. |
| TsvToSfs.PairRangeFromRows | tsv_to_sfs.py:132-137 | A grouped pair's range is the least and greatest integer total count among the rows with that pair. |
| TsvToSfs.PairRangesFromRows | tsv_to_sfs.py:132-137 | When every total parses, every printed range is present and is read off the rows of its pair. |
| TsvToSfs.MatricesKeepEntries | tsv_to_sfs.py:146-151 | The matrices keep the pairs in order and keep every entry. |
| TsvToSfs.SfsMatrices | tsv_to_sfs.py:106-151 | The run's only errors are `IndexError`, `KeyError` and `ValueError`. |
| TsvToSfs.SfsMatricesOutcome | tsv_to_sfs.py:106-151 | A short row gives `IndexError`. Otherwise, no "ATT->ATA" row gives `KeyError`. Otherwise, a non-integer total count gives `ValueError`. Otherwise the matrices are returned. |
| TsvToSfs.GroupedMatrices | tsv_to_sfs.py:106-151 | The matrices built from the grouped rows keep the pairs in order of first occurrence. Each row is the sorted field 5 of the rows with its pair and total count, and no derived count is lost or added. |
| TsvToSfs.SfsMatricesContents | tsv_to_sfs.py:106-151 | When every row has 12 fields, some row has pair "ATT->ATA" and every total count is an integer, the run succeeds. There is one matrix per pair, in order of first occurrence. Row j is the sorted field 5 of the rows with that pair and j-th total count, in order of first occurrence. The cell count equals the row count. |

## Left out

- File reading and writing (`write_tsv_file`, the `open` calls of both line pipelines) and every `print`: the pipelines take the input lines and return the rows or the written lines.
- PyStr.Upper: upper-cases ASCII letters only; Python's `str.upper` also maps non-ASCII letters (and may lengthen a string, as for "ß"). Codons in these tables are ASCII.
- PyStr.ParseInt: accepts optional whitespace other than the information separators U+001C to U+001F, an optional sign and ASCII digits; Python's `int()` also accepts underscores between digits and non-ASCII decimal digits.
- CodonAnalyses.CreateCodonChangeSfsDict: rows are records with integer counts and string labels, not a pandas DataFrame; pandas dtypes, NaN cells and `iterrows` conversions are not modelled.
- DataProcessing.ProcessMainTable: a pandas table is a sequence of column maps; `DataFrame.apply` on an empty table and dtype changes are not modelled.
- The two copies of `synonymous_1nt_pairs` (codon_changes_dict.py and codon_analyses.py) are textually identical, so there is one definition for both; their identity is not stated as a lemma.
- `process_nonfunctional_snps_tsv`: it passes the two codons to `make_mutational_change_keys`, which reads field 13 of its argument, so it raises `IndexError` for every kept line; `make_mutational_change_keys` itself is modelled.
- `synonymous_tsv` in tsv_to_sfs.py: it calls functions of a module `processing_tsv_utils` that is not part of this model; the grouping step takes the rows as given.
- PRF_Ratios_syn/sfs_analyses.py (a random multinomial draw with numpy), PRF_Ratios_syn/exploratory_analyses.py (pandas, scipy and plotting), `merge_tables`, `process_chromosome`, `process_all_chromosomes` and `save_data` (pandas joins and file I/O).
- scripts/temp_src/synonymous_sites_utils.py and src/synonymous_sfss.py (they refer to undefined names or are not valid Python), and the script glue in scripts/.

## Findings

| source | as written | input that shows it | evidently intended | confidence | as-written member | corrected member |
|---|---|---|---|---|---|---|
| scripts/temp_src/implementations.py:16-23 | `make_header` names 11 columns (chrom, pos, aainfo, refallele, altallele, refcount, altcount, totalcount, refcodon, altcodon, effect). The rows written under it have 12 fields in another order (line 82). | Any single non-comment line of 20 fields whose field 19 is the requested effect. Its row has 12 fields, and its third field is the effect, under the name "aainfo". | A 12-name header in the rows' order: chrom, pos, effect, totalcount, refcount, altcount, aainfo, refallele, altallele, refcodon, altcodon, codon_change. | not executed; high | FunctionalSnps.HeaderMisalignedWithRows | FunctionalSnps.FunctionalHeaderAligned |
