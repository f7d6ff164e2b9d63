# Headline entity and part-of-speech annotation, modelled in Dafny

The script reads a CSV of news headlines. It runs each `title` through a
pretrained language model and adds two columns: `entities`, a list of
`(entity text, label)` pairs per row, and `pos_tags`, a list of
`(token text, coarse POS tag)` pairs per row. It then reports the five entity
texts that occur most often across all rows.

This project models the two parts of the script that have logic of their own:

- `process_nlp`. The model is a parameter: a function from text to a document
  of entity spans and tokens, or `None` when the model cannot be loaded. The
  table is a class. `loaded` names the columns it was read with besides
  `title`, and `rows` hold each row's `title` cell and its other cells by
  column name. The two annotation columns are `Option` fields that
  `ProcessNlp` sets in place; a loaded column named `entities` or `pos_tags`
  gives way to the added one, as a pandas column assignment replaces it.
- `show_stats`. `df['entities']` is the added column, or else a loaded
  column of that name, or else a `KeyError` (`EntitiesColumnOf`). The nested
  comprehension that flattens it into a list of texts is a function:
  `EntityTexts` for the added column of pairs, and `LoadedTexts` for a
  loaded column, whose cells are strings that Python walks character by
  character (and a NaN cell, a float, cannot be walked at all). `Counter(all_ents)` is a
  loop that tallies texts into a dictionary of keys in insertion order plus
  counts (`Counting.Count`). `most_common(5)` is a stable selection loop
  (`Counting.MostCommon`).

`Counting.IsRanking` specifies the result of `Counter(s).most_common(k)` on the
flattened list `s` itself. It has `min(k, number of distinct texts)` entries,
and each entry is a text of `s` with its exact number of occurrences. Entries
are ranked by count, larger first, and equal counts are ordered by first
occurrence in `s`. Every reported text ranks above every text left out.
`Counting.RankingUnique` proves that at most one list satisfies this, so the
specification pins the report down completely. Python documents
`most_common` as keeping equal counts in first-encountered order, and the
model follows that.

The counter is specialised to strings, the only thing the script counts.

## Model

| member | source | states |
|---|---|---|
| `Counting.FirstSeen` | ner_and_pos_tagging.py:71 | the keys of a dictionary filled from a list by insertion: no key twice, and exactly the values of the list |
| `Counting.FirstSeenOrder` | ner_and_pos_tagging.py:71 | counter keys are ordered by the position of each value's first occurrence in the counted list |
| `Counting.FirstSeenCardinality` | ner_and_pos_tagging.py:71 | the counter has one key per distinct value of the counted list |
| `Counting.Count` | ner_and_pos_tagging.py:71 | `Counter(all_ents)`: keys in first-seen order, a key exactly for each value of the list, and each count equal to the number of occurrences |
| `Counting.MostCommon` | ner_and_pos_tagging.py:71 | `most_common(n)`: `min(n, len(counter))` entries with their counts, each ranked above the next (larger count, or equal count and earlier key), and above every key left out |
| `Counting.MostCommonRanksSequence` | ner_and_pos_tagging.py:71 | for the counter of a list, the answer of `most_common` is the ranking of that list by occurrences and first occurrence |
| `Counting.RankingUnique` | ner_and_pos_tagging.py:71 | any two lists that meet the ranking specification for the same texts and limit are equal |
| `NerPosTagging.Str` | ner_and_pos_tagging.py:38 | `str` of a text cell is its text, and `str` of NaN is `"nan"` |
| `NerPosTagging.ExtractFeatures` | ner_and_pos_tagging.py:37-48 | the features of a title are one `(text, label)` pair per entity span and one `(text, pos)` pair per token of the model's document for `str(title)`, in order |
| `NerPosTagging.EntityPairs` | ner_and_pos_tagging.py:42 | one `(text, label)` pair per entity span of the document, in the document's order |
| `NerPosTagging.PosPairs` | ner_and_pos_tagging.py:46 | one `(text, pos)` pair per token of the document, in the document's order |
| `NerPosTagging.Unzip` | ner_and_pos_tagging.py:55 | two columns as long as the results, row `i` of each holding the matching component of result `i`; for zero rows, two empty columns |
| `NerPosTagging.ZipStar` | ner_and_pos_tagging.py:55 | `zip(*results)` yields two tuples, each as long as the results, the first holding every result's entities and the second every result's tags; for no results it yields nothing |
| `NerPosTagging.UnzipAsWritten` | ner_and_pos_tagging.py:55 | the unpacking of `zip(*results)` into two targets fails exactly when there are no results; otherwise it gives the same two columns as `Unzip` |
| `NerPosTagging.Table.constructor` | ner_and_pos_tagging.py:14 | a table as loaded holds its loaded columns and rows, and neither added annotation column |
| `NerPosTagging.Table.ProcessNlp` | ner_and_pos_tagging.py:21-57 | without a model the table is unchanged (line 32); with one, loaded columns named `entities` or `pos_tags` are dropped and every other loaded cell is kept, both columns are added with one cell per row, and row `i`'s cells are the entity and tag pairs of the model's document for `str(title_i)` |
| `NerPosTagging.Column` | ner_and_pos_tagging.py:65 | a loaded column read by name holds one cell per row, row `i`'s cell of that name |
| `NerPosTagging.EntitiesColumnOf` | ner_and_pos_tagging.py:65 | `df['entities']` is absent exactly when no column was added and none was loaded under that name; an added column is read in preference, and a loaded one is read cell by cell |
| `NerPosTagging.EntityTexts` | ner_and_pos_tagging.py:65 | the flattened added column holds the text of every entity of every row, and nothing that is not such a text |
| `NerPosTagging.LoadedTexts` | ner_and_pos_tagging.py:65 | flattening a loaded column fails with `TypeError` exactly when a cell is NaN; otherwise it is the one-character strings of the cells' texts, joined in row order |
| `NerPosTagging.EntityTextsAppend` | ner_and_pos_tagging.py:65 | flattening goes row by row: the texts of the first rows come before those of the later ones |
| `NerPosTagging.EntityTextsOfRow` | ner_and_pos_tagging.py:65 | a row contributes the text of each of its pairs, in order, and nothing else |
| `NerPosTagging.EntityTextsEmpty` | ner_and_pos_tagging.py:65-67 | the flattened list is empty exactly when every row has no entities |
| `NerPosTagging.EntityTextsIgnoreLabels` | ner_and_pos_tagging.py:63-65 | labels are dropped: two columns with the same texts in the same places flatten to the same list whatever their labels |
| `NerPosTagging.RankTexts` | ner_and_pos_tagging.py:67-71 | "no entities" exactly when the flattened list is empty; otherwise the report is the ranking of the flattened list limited to five |
| `NerPosTagging.RankingFacts` | ner_and_pos_tagging.py:71 | a report for a non-empty list has 1 to 5 entries, each a text of the list with its exact count. Texts are pairwise distinct and counts are non-increasing. Equal counts follow first occurrence, and no omitted text has a count above the last reported one |
| `NerPosTagging.ShowStatsAsWritten` | ner_and_pos_tagging.py:59-71 | fails with `KeyError` exactly when the table has no `entities` column, added or loaded; otherwise it fails with the flattening's `TypeError` or reports the ranking of the flattened list as `RankTexts` states, and for an added column that is the ranking of its entity texts |
| `NerPosTagging.ShowStats` | ner_and_pos_tagging.py:59-71 | a table without an `entities` column reports no entities, and the only failure left is the `TypeError` of a NaN cell in a loaded column; otherwise as `ShowStatsAsWritten` |
| `NerPosTagging.RanksUnique` | ner_and_pos_tagging.py:65-71 | the outcome of the statistics step is determined by the flattened list |
| `NerPosTagging.DegradedRun` | ner_and_pos_tagging.py:79-86 | with no model and a CSV without an `entities` column, the statistics step as written fails with `KeyError` and the corrected one reports no entities; with a loaded `entities` column both read it alike, failing exactly when one of its cells is NaN |
| `NerPosTagging.LondonParisBerlin` | ner_and_pos_tagging.py:71 | headlines naming London three times, Paris twice and Berlin once are reported as exactly `[("London", 3), ("Paris", 2), ("Berlin", 1)]` |
| `NerPosTagging.LoadedColumnCountsCharacters` | ner_and_pos_tagging.py:65-71 | a loaded `entities` column holding `GPE` and `PE` is counted by character: exactly `[("P", 2), ("E", 2), ("G", 1)]` |
| `NerPosTagging.TiesKeepFirstSeenOrder` | ner_and_pos_tagging.py:71 | with Paris and London named twice each, Paris first, and Berlin once, the report is exactly `[("Paris", 2), ("London", 2), ("Berlin", 1)]`: equal counts keep first-seen order |

## Left out

- CSV loading and saving (`load_data`, `to_csv`), including the missing-file branch. This is filesystem I/O. A loaded table is whatever rows the `Table` constructor is given.
- Loading the spaCy model and running it. The model is a parameter (`Option<Nlp>`), and nothing is claimed about which entities or tokens it finds, including whether entities are substrings of the title or how many tokens a title has.
- All console output. `show_stats` returns the `Report` it would print instead of printing it.
- The configuration constants and `main`. `DegradedRun` strings together only the two steps that show the first finding.
- How pandas stringifies list-valued cells when it writes the CSV, and any type inference that `read_csv` applies to a column. A cell is text or NaN: `str` of NaN is `"nan"`, and a loaded `entities` cell that pandas would parse as a number is not modelled (it would raise the same `TypeError` as NaN).
- `Table.constructor`: every row has a `title` cell, so a CSV without a `title` column is not modelled. With the model loaded, `df['title']` at ner_and_pos_tagging.py:52 raises `KeyError` for it.
- The order of columns in the table. `loaded` is a set of names; the written CSV's column order is part of `to_csv`, which is left out.
- The heap-based implementation of `heapq.nlargest` behind `most_common`. `MostCommon` computes the same list by repeated selection, and `RankingUnique` shows that the list is fully determined by its specification.
- Counters over keys other than strings. The script counts only strings, so the counter is specialised to them.

## Findings

| source | as written | input that shows it | evidently intended | confidence | as-written member | corrected member |
|---|---|---|---|---|---|---|
| ner_and_pos_tagging.py:65 | `show_stats` reads `df['entities']`, and that raises `KeyError` when `process_nlp` has returned the table unchanged because the model could not be loaded | a CSV without an `entities` column, with the model missing | the degraded run goes on and reports that no entities were found | high, not executed | `NerPosTagging.ShowStatsAsWritten` | `NerPosTagging.ShowStats` |
| ner_and_pos_tagging.py:55 | `df['entities'], df['pos_tags'] = zip(*results)` unpacks into two targets, but `zip` of zero results yields nothing, so this raises `ValueError` | a CSV with a header and no rows, with the model loaded | an empty table gains two empty columns | high, not executed | `NerPosTagging.UnzipAsWritten` | `NerPosTagging.Unzip` |

`Table.ProcessNlp` uses the corrected `Unzip`. On a table with at least one row
it behaves exactly as the code does, because `UnzipAsWritten` then succeeds
with the same columns. The first finding's intended behaviour comes from the
code around it: `process_nlp` catches the missing model and returns the table
instead of failing (ner_and_pos_tagging.py:30-32), and `main` goes on to
`show_stats` and `to_csv` regardless (ner_and_pos_tagging.py:83-89), so the
run is meant to continue past a missing model.
