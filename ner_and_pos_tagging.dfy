/**
 * The headline annotation script: `process_nlp` adds an `entities` and a
 * `pos_tags` column to a table of headlines by running each title through a
 * language model, and `show_stats` ranks the entity texts found across all
 * rows by frequency and reports the five most common.
 *
 * The language model is a parameter: a function from text to an analysed
 * document, or `None` when the model cannot be loaded.
 */
module NerPosTagging {
  import opened Wrappers
  import opened Counting

  /** An `(entity text, label)` or `(token text, part-of-speech tag)` pair. */
  type Pair = (string, string)

  /** A cell of the CSV as the reader produces it: text, or NaN for an empty field. */
  datatype Cell = Text(value: string) | Missing

  /** `str(cell)`: a text cell is its own text, and NaN prints as "nan". */
  function Str(cell: Cell): (s: string)
    ensures cell.Text? ==> s == cell.value
    ensures cell.Missing? ==> s == "nan"
  {
    match cell
    case Text(value) => value
    case Missing => "nan"
  }

  /** A named-entity span of a document, with its `text` and `label_`. */
  datatype Span = Span(text: string, entityLabel: string)

  /** A token of a document, with its `text` and coarse `pos_` tag. */
  datatype Token = Token(text: string, pos: string)

  /** What the model returns for a text: its entity spans and its tokens, in text order. */
  datatype Doc = Doc(ents: seq<Span>, tokens: seq<Token>)

  /** A loaded language model. */
  type Nlp = string -> Doc

  /** `[(ent.text, ent.label_) for ent in doc.ents]`: one pair per span, in order. */
  function EntityPairs(ents: seq<Span>): (pairs: seq<Pair>)
    ensures |pairs| == |ents|
    ensures forall i :: 0 <= i < |ents| ==> pairs[i] == (ents[i].text, ents[i].entityLabel)
  {
    if ents == [] then [] else [(ents[0].text, ents[0].entityLabel)] + EntityPairs(ents[1..])
  }

  /** `[(token.text, token.pos_) for token in doc]`: one pair per token, in order. */
  function PosPairs(tokens: seq<Token>): (pairs: seq<Pair>)
    ensures |pairs| == |tokens|
    ensures forall i :: 0 <= i < |tokens| ==> pairs[i] == (tokens[i].text, tokens[i].pos)
  {
    if tokens == [] then [] else [(tokens[0].text, tokens[0].pos)] + PosPairs(tokens[1..])
  }

  /**
   * `extract_features(title)`: the document of `str(title)`, described by one
   * `(text, label)` pair per entity span and one `(text, pos)` pair per token.
   */
  function ExtractFeatures(nlp: Nlp, title: Cell): (features: (seq<Pair>, seq<Pair>))
    ensures var doc := nlp(Str(title));
      && |features.0| == |doc.ents| && |features.1| == |doc.tokens|
      && (forall i :: 0 <= i < |doc.ents| ==> features.0[i] == (doc.ents[i].text, doc.ents[i].entityLabel))
      && (forall i :: 0 <= i < |doc.tokens| ==> features.1[i] == (doc.tokens[i].text, doc.tokens[i].pos))
  {
    var doc := nlp(Str(title));
    (EntityPairs(doc.ents), PosPairs(doc.tokens))
  }

  /** The two columns of a sequence of per-row results, aligned with the rows. */
  function Unzip(results: seq<(seq<Pair>, seq<Pair>)>): (columns: (seq<seq<Pair>>, seq<seq<Pair>>))
    ensures |columns.0| == |results| && |columns.1| == |results|
    ensures forall i :: 0 <= i < |results| ==> columns.0[i] == results[i].0 && columns.1[i] == results[i].1
  {
    if results == [] then ([], [])
    else
      var rest := Unzip(results[1..]);
      ([results[0].0] + rest.0, [results[0].1] + rest.1)
  }

  /** The errors the script raises. */
  datatype Error =
    | KeyError(column: string)
    | UnpackError(expected: nat, got: nat)
    | TypeError(notIterable: string)

  /**
   * `zip(*results)`: one tuple per position that all results share, so two
   * tuples (the first and the second components) when there are results, and
   * none at all when there are none.
   */
  function ZipStar(results: seq<(seq<Pair>, seq<Pair>)>): (tuples: seq<seq<seq<Pair>>>)
    ensures |tuples| == if results == [] then 0 else 2
    ensures forall k :: 0 <= k < |tuples| ==> |tuples[k]| == |results|
    ensures |tuples| == 2 ==> forall i :: 0 <= i < |results| ==>
      tuples[0][i] == results[i].0 && tuples[1][i] == results[i].1
  {
    if results == [] then []
    else
      var columns := Unzip(results);
      [columns.0, columns.1]
  }

  /**
   * `entities, pos_tags = zip(*results)` as written: unpacking into two
   * targets fails unless `zip` yields exactly two tuples, which it does not
   * for a table without rows.
   */
  function UnzipAsWritten(results: seq<(seq<Pair>, seq<Pair>)>): (r: Result<(seq<seq<Pair>>, seq<seq<Pair>>), Error>)
    ensures r.Failure? <==> results == []
    ensures r.Failure? ==> r.error == UnpackError(2, 0)
    ensures r.Success? ==> r.value == Unzip(results)
    ensures r.Success? ==> |r.value.0| == |results| && |r.value.1| == |results|
    ensures r.Success? ==> forall i :: 0 <= i < |results| ==>
      r.value.0[i] == results[i].0 && r.value.1[i] == results[i].1
  {
    var tuples := ZipStar(results);
    if |tuples| == 2 then Success((tuples[0], tuples[1])) else Failure(UnpackError(2, |tuples|))
  }

  /** The names of the two columns `process_nlp` adds. */
  const Annotations: set<string> := {"entities", "pos_tags"}

  /** A loaded row: its `title` cell, and its other cells by column name. */
  datatype Row = Row(title: Cell, others: map<string, Cell>)

  /** A row without the cells of loaded columns that the added columns replace. */
  function Unannotated(row: Row): Row {
    row.(others := row.others - Annotations)
  }

  /** `df[name]` for a loaded column: the row's cell in that column, row by row. */
  function Column(rows: seq<Row>, name: string): (cells: seq<Cell>)
    requires forall i :: 0 <= i < |rows| ==> name in rows[i].others
    ensures |cells| == |rows|
    ensures forall i :: 0 <= i < |rows| ==> cells[i] == rows[i].others[name]
  {
    seq(|rows|, i requires 0 <= i < |rows| => rows[i].others[name])
  }

  /**
   * A table of headlines. `loaded` names the columns it was loaded with
   * besides `title`, and `rows` hold the cells of those columns. The
   * `entities` and `pos_tags` columns that `ProcessNlp` adds are absent until
   * it adds them, one cell per row; a loaded column of the same name gives
   * way to the added one.
   */
  class Table {
    var loaded: set<string>
    var rows: seq<Row>
    var entities: Option<seq<seq<Pair>>>
    var posTags: Option<seq<seq<Pair>>>

    ghost predicate Valid()
      reads this
    {
      && "title" !in loaded
      && (forall i :: 0 <= i < |rows| ==> rows[i].others.Keys == loaded)
      && (entities.Some? <==> posTags.Some?)
      && (entities.Some? ==> |entities.value| == |rows| && "entities" !in loaded)
      && (posTags.Some? ==> |posTags.value| == |rows| && "pos_tags" !in loaded)
    }

    /** A table as loaded from the CSV: its own columns only, every row with a cell in each. */
    constructor (loaded: set<string>, rows: seq<Row>)
      requires "title" !in loaded
      requires forall i :: 0 <= i < |rows| ==> rows[i].others.Keys == loaded
      ensures Valid()
      ensures this.loaded == loaded && this.rows == rows
      ensures entities == None && posTags == None
    {
      this.loaded := loaded;
      this.rows := rows;
      entities := None;
      posTags := None;
    }

    /**
     * `process_nlp(df)`. When the model cannot be loaded the table is left
     * as it is. Otherwise each row's title is analysed, in row order, and the
     * results become the `entities` and `pos_tags` columns, row `i`'s cells
     * describing row `i`'s title. They replace any loaded columns of those
     * names; every other loaded column is left as it is.
     */
    method ProcessNlp(model: Option<Nlp>)
      requires Valid()
      modifies this
      ensures Valid()
      ensures model.None? ==>
        loaded == old(loaded) && rows == old(rows) && entities == old(entities) && posTags == old(posTags)
      ensures model.Some? ==> loaded == old(loaded) - Annotations
      ensures model.Some? ==> |rows| == |old(rows)|
      ensures model.Some? ==> forall i :: 0 <= i < |rows| ==> rows[i] == Unannotated(old(rows)[i])
      ensures model.Some? ==> entities.Some? && posTags.Some?
      ensures model.Some? ==> forall i :: 0 <= i < |rows| ==>
        && entities.value[i] == ExtractFeatures(model.value, rows[i].title).0
        && posTags.value[i] == ExtractFeatures(model.value, rows[i].title).1
    {
      if model.None? {
        return;
      }
      var nlp := model.value;
      var results: seq<(seq<Pair>, seq<Pair>)> := [];
      for i := 0 to |rows|
        invariant |results| == i
        invariant forall k :: 0 <= k < i ==> results[k] == ExtractFeatures(nlp, rows[k].title)
      {
        results := results + [ExtractFeatures(nlp, rows[i].title)];
      }
      var columns := Unzip(results);
      var before := rows;
      rows := seq(|before|, i requires 0 <= i < |before| => Unannotated(before[i]));
      loaded := loaded - Annotations;
      entities := Some(columns.0);
      posTags := Some(columns.1);
    }
  }

  /** What `df['entities']` can hold: the column `process_nlp` added, or one loaded from the CSV. */
  datatype EntitiesColumn = Added(annotations: seq<seq<Pair>>) | Loaded(cells: seq<Cell>)

  /**
   * `df['entities']`: the added column when there is one, otherwise a loaded
   * column of that name, and otherwise nothing, which Python reports as a
   * `KeyError`.
   */
  function EntitiesColumnOf(table: Table): (column: Option<EntitiesColumn>)
    reads table
    requires table.Valid()
    ensures column.None? <==> table.entities.None? && "entities" !in table.loaded
    ensures table.entities.Some? ==> column == Some(Added(table.entities.value))
    ensures column.Some? && column.value.Loaded? ==>
      |column.value.cells| == |table.rows| &&
      forall i :: 0 <= i < |table.rows| ==> column.value.cells[i] == table.rows[i].others["entities"]
  {
    if table.entities.Some? then Some(Added(table.entities.value))
    else if "entities" in table.loaded then Some(Loaded(Column(table.rows, "entities")))
    else None
  }

  /**
   * `[ent[0] for row in column for ent in row]` over the added column: the
   * entity texts of every row, row after row, each row's in order, with the
   * labels dropped.
   */
  function EntityTexts(column: seq<seq<Pair>>): (texts: seq<string>)
    ensures forall i, j :: 0 <= i < |column| && 0 <= j < |column[i]| ==> column[i][j].0 in texts
    ensures forall x :: x in texts ==> exists i, j :: 0 <= i < |column| && 0 <= j < |column[i]| && column[i][j].0 == x
  {
    if column == [] then []
    else
      var rest := EntityTexts(column[1..]);
      assert forall i :: 1 <= i < |column| ==> column[i] == column[1..][i - 1];
      assert forall j :: 0 <= j < |column[0]| ==> Firsts(column[0])[j] == column[0][j].0;
      Firsts(column[0]) + rest
  }

  /** The one-character strings that iterating over a Python `str` yields, in order. */
  function Characters(s: string): (chars: seq<string>)
    ensures |chars| == |s|
    ensures forall i :: 0 <= i < |s| ==> chars[i] == [s[i]]
  {
    seq(|s|, i requires 0 <= i < |s| => [s[i]])
  }

  /** The characters of two strings joined are the characters of each, in turn. */
  lemma CharactersAppend(a: string, b: string)
    ensures Characters(a + b) == Characters(a) + Characters(b)
  {
    assert forall i :: 0 <= i < |a| + |b| ==> Characters(a + b)[i] == (Characters(a) + Characters(b))[i];
  }

  /** The cells of a loaded column as `str` gives them, joined end to end. */
  function Joined(cells: seq<Cell>): string {
    if cells == [] then "" else Str(cells[0]) + Joined(cells[1..])
  }

  /**
   * `[ent[0] for row in column for ent in row]` over a column loaded from the
   * CSV: each cell is a string, so `for ent in row` walks its characters and
   * `ent[0]` is the character itself; a NaN cell is a float, which cannot be
   * iterated.
   */
  function LoadedTexts(cells: seq<Cell>): (r: Result<seq<string>, Error>)
    ensures r.Failure? <==> exists i :: 0 <= i < |cells| && cells[i].Missing?
    ensures r.Failure? ==> r.error == TypeError("float")
    ensures r.Success? ==> r.value == Characters(Joined(cells))
  {
    if cells == [] then Success([])
    else
      var rest := LoadedTexts(cells[1..]);
      assert forall i :: 1 <= i < |cells| ==> cells[i] == cells[1..][i - 1];
      match cells[0]
      case Missing => Failure(TypeError("float"))
      case Text(value) =>
        if rest.Failure? then rest
        else
          CharactersAppend(value, Joined(cells[1..]));
          Success(Characters(value) + rest.value)
  }

  /** `all_ents`: the texts `show_stats` collects from what `df['entities']` holds. */
  function AllEnts(column: EntitiesColumn): Result<seq<string>, Error> {
    match column
    case Added(annotations) => Success(EntityTexts(annotations))
    case Loaded(cells) => LoadedTexts(cells)
  }

  /** Flattening goes row by row: the texts of a column are those of its first rows followed by those of the rest. */
  lemma {:induction false} EntityTextsAppend(front: seq<seq<Pair>>, back: seq<seq<Pair>>)
    ensures EntityTexts(front + back) == EntityTexts(front) + EntityTexts(back)
  {
    if front != [] {
      assert (front + back)[1..] == front[1..] + back;
      EntityTextsAppend(front[1..], back);
    } else {
      assert front + back == back;
    }
  }

  /** A single row contributes the first components of its pairs, in order. */
  lemma EntityTextsOfRow(row: seq<Pair>)
    ensures |EntityTexts([row])| == |row|
    ensures forall j :: 0 <= j < |row| ==> EntityTexts([row])[j] == row[j].0
  {
  }

  /** There are no entity texts exactly when every row has no entities. */
  lemma {:induction false} EntityTextsEmpty(column: seq<seq<Pair>>)
    ensures EntityTexts(column) == [] <==> forall i :: 0 <= i < |column| ==> column[i] == []
  {
    if column != [] {
      EntityTextsEmpty(column[1..]);
      assert forall i :: 1 <= i < |column| ==> column[i] == column[1..][i - 1];
    }
  }

  /** Labels play no part: columns that agree on every entity text flatten alike. */
  lemma {:induction false} EntityTextsIgnoreLabels(column: seq<seq<Pair>>, relabelled: seq<seq<Pair>>)
    requires |column| == |relabelled|
    requires forall i :: 0 <= i < |column| ==> |column[i]| == |relabelled[i]|
    requires forall i, j :: 0 <= i < |column| && 0 <= j < |column[i]| ==> column[i][j].0 == relabelled[i][j].0
    ensures EntityTexts(column) == EntityTexts(relabelled)
  {
    if column != [] {
      assert Firsts(column[0]) == Firsts(relabelled[0]);
      EntityTextsIgnoreLabels(column[1..], relabelled[1..]);
    }
  }

  /** How many entities `show_stats` reports. */
  const TopCount: nat := 5

  /** What `show_stats` prints: that no entity was found, or the ranked entities with their counts. */
  datatype Report = NoEntities | TopEntities(ranking: seq<(string, nat)>)

  /** `report` is what the statistics step reports for the entity texts `texts`. */
  ghost predicate Ranks(texts: seq<string>, report: Report) {
    && (report.NoEntities? <==> texts == [])
    && (report.TopEntities? ==> IsRanking(texts, TopCount, report.ranking))
  }

  /** `report` is what the statistics step reports for an added `entities` column. */
  ghost predicate Reports(column: seq<seq<Pair>>, report: Report) {
    Ranks(EntityTexts(column), report)
  }

  /**
   * The body of `show_stats` once `all_ents` is in hand: report that nothing
   * was found if it is empty, and otherwise count the texts and take the
   * five most common.
   */
  method RankTexts(texts: seq<string>) returns (report: Report)
    ensures Ranks(texts, report)
  {
    if texts == [] {
      return NoEntities;
    }
    var counter := Count(texts);
    var top := MostCommon(counter, TopCount);
    MostCommonRanksSequence(counter, texts, TopCount, top);
    return TopEntities(top);
  }

  /**
   * The ranking `show_stats` reports for a non-empty list of entity texts:
   * between one and five entries, distinct texts with their exact counts,
   * counts non-increasing, equal counts in order of first occurrence, and no
   * text left out counted more than the last one reported.
   */
  lemma RankingFacts(texts: seq<string>, ranking: seq<(string, nat)>)
    requires texts != [] && IsRanking(texts, TopCount, ranking)
    ensures 1 <= |ranking| <= TopCount
    ensures forall i :: 0 <= i < |ranking| ==> ranking[i].0 in texts && ranking[i].1 == multiset(texts)[ranking[i].0]
    ensures forall i, j :: 0 <= i < j < |ranking| ==> ranking[i].0 != ranking[j].0
    ensures forall i, j :: 0 <= i < j < |ranking| ==> ranking[i].1 >= ranking[j].1
    ensures forall i, j :: 0 <= i < j < |ranking| && ranking[i].1 == ranking[j].1 ==>
      FirstIndex(texts, ranking[i].0) < FirstIndex(texts, ranking[j].0)
    ensures forall x :: x in texts && x !in Firsts(ranking) ==> multiset(texts)[x] <= ranking[|ranking| - 1].1
  {
    assert texts[0] in Elements(texts);
  }

  /**
   * `r` is how `show_stats` ends once `all_ents` has been collected as
   * `ents`: the error that collecting it raised, or the report of its texts.
   */
  ghost predicate Concludes(ents: Result<seq<string>, Error>, r: Result<Report, Error>) {
    && (ents.Failure? ==> r == Failure(ents.error))
    && (ents.Success? ==> r.Success? && Ranks(ents.value, r.value))
  }

  /**
   * `show_stats(df)` as written. Reading `df['entities']` from a table that
   * has no such column, which is what `process_nlp` leaves behind when the
   * model cannot be loaded and the CSV has no column of that name, raises
   * `KeyError`. A column loaded from the CSV is read as text, character by
   * character.
   */
  method ShowStatsAsWritten(table: Table) returns (r: Result<Report, Error>)
    requires table.Valid()
    ensures EntitiesColumnOf(table).None? <==> r == Failure(KeyError("entities"))
    ensures EntitiesColumnOf(table).Some? ==> Concludes(AllEnts(EntitiesColumnOf(table).value), r)
    ensures table.entities.Some? ==> r.Success? && Reports(table.entities.value, r.value)
    ensures r.Failure? ==> r.error == KeyError("entities") || r.error == TypeError("float")
  {
    var column := EntitiesColumnOf(table);
    if column.None? {
      return Failure(KeyError("entities"));
    }
    var ents := AllEnts(column.value);
    if ents.Failure? {
      return Failure(ents.error);
    }
    var report := RankTexts(ents.value);
    return Success(report);
  }

  /**
   * `show_stats(df)` with a missing `entities` column read as a column
   * without entities, so that the degraded run reports that no entities
   * were found. Everything else is as written.
   */
  method ShowStats(table: Table) returns (r: Result<Report, Error>)
    requires table.Valid()
    ensures EntitiesColumnOf(table).None? ==> r == Success(NoEntities)
    ensures EntitiesColumnOf(table).Some? ==> Concludes(AllEnts(EntitiesColumnOf(table).value), r)
    ensures table.entities.Some? ==> r.Success? && Reports(table.entities.value, r.value)
    ensures r.Failure? ==> r.error == TypeError("float")
  {
    var column := EntitiesColumnOf(table);
    if column.None? {
      return Success(NoEntities);
    }
    var ents := AllEnts(column.value);
    if ents.Failure? {
      return Failure(ents.error);
    }
    var report := RankTexts(ents.value);
    return Success(report);
  }

  /**
   * The degraded run: with no model, `process_nlp` returns the loaded table
   * as it is. When the CSV has no `entities` column, `show_stats` as written
   * then fails with `KeyError`, and the corrected `show_stats` reports no
   * entities; when it has one, both read that column alike.
   */
  method DegradedRun(loaded: set<string>, rows: seq<Row>) returns (asWritten: Result<Report, Error>, corrected: Result<Report, Error>)
    requires "title" !in loaded
    requires forall i :: 0 <= i < |rows| ==> rows[i].others.Keys == loaded
    ensures "entities" !in loaded ==> asWritten == Failure(KeyError("entities"))
    ensures "entities" !in loaded ==> corrected == Success(NoEntities)
    ensures "entities" in loaded ==> asWritten == corrected
    ensures "entities" in loaded ==>
      (asWritten.Failure? <==> exists i :: 0 <= i < |rows| && rows[i].others["entities"].Missing?)
  {
    var table := new Table(loaded, rows);
    table.ProcessNlp(None);
    asWritten := ShowStatsAsWritten(table);
    corrected := ShowStats(table);
    if "entities" in loaded {
      RanksUnique(AllEnts(EntitiesColumnOf(table).value), asWritten, corrected);
    }
  }

  /** What `show_stats` concludes from one `all_ents` is determined by it. */
  lemma RanksUnique(ents: Result<seq<string>, Error>, r1: Result<Report, Error>, r2: Result<Report, Error>)
    requires Concludes(ents, r1) && Concludes(ents, r2)
    ensures r1 == r2
  {
    if ents.Success? && r1.value.TopEntities? {
      RankingUnique(ents.value, TopCount, r1.value.ranking, r2.value.ranking);
    }
  }

  /**
   * A loaded `entities` column is read as text: cells holding `GPE` and `PE`
   * are counted letter by letter, P and E twice each, P first, then G once.
   */
  lemma LoadedColumnCountsCharacters(report: Report)
    requires Ranks(LoadedTexts([Text("GPE"), Text("PE")]).value, report)
    ensures report == TopEntities([("P", 2), ("E", 2), ("G", 1)])
  {
    var texts := LoadedTexts([Text("GPE"), Text("PE")]).value;
    assert Joined([Text("GPE"), Text("PE")]) == "GPEPE";
    assert texts == ["G", "P", "E", "P", "E"];
    LetterRanking(texts);
    RankingUnique(texts, TopCount, report.ranking, [("P", 2), ("E", 2), ("G", 1)]);
  }

  /** The distinct letters of "GPEPE" and their counts. */
  lemma LetterCounts(texts: seq<string>)
    requires texts == ["G", "P", "E", "P", "E"]
    ensures Elements(texts) == {"G", "P", "E"}
    ensures multiset(texts)["P"] == 2 && multiset(texts)["E"] == 2 && multiset(texts)["G"] == 1
  {
    assert "G" != "P" && "G" != "E" && "P" != "E";
  }

  /** P 2, E 2, G 1 is a ranking of the letters of "GPEPE". */
  lemma LetterRanking(texts: seq<string>)
    requires texts == ["G", "P", "E", "P", "E"]
    ensures IsRanking(texts, TopCount, [("P", 2), ("E", 2), ("G", 1)])
  {
    var expected := [("P", 2), ("E", 2), ("G", 1)];
    LetterCounts(texts);
    FirstIndexAt(texts, 1);
    FirstIndexAt(texts, 2);
    assert |expected| == Min(TopCount, |Elements(texts)|);
    assert Precedes(texts, "P", "E") && Precedes(texts, "P", "G") && Precedes(texts, "E", "G");
    assert Firsts(expected) == ["P", "E", "G"];
    assert forall x :: x in texts ==> x in Firsts(expected);
  }

  /** Headlines naming London three times, Paris twice and Berlin once. */
  const CityHeadlines: seq<seq<Pair>> :=
    [[("London", "GPE")], [("Paris", "GPE"), ("London", "GPE")],
     [("Berlin", "GPE")], [("London", "GPE"), ("Paris", "GPE")]]

  /** The entity texts of `CityHeadlines`, row after row. */
  lemma CityHeadlineTexts()
    ensures EntityTexts(CityHeadlines) == ["London", "Paris", "London", "Berlin", "London", "Paris"]
  {
  }

  /** The distinct texts of `CityHeadlines` and their counts. */
  lemma CityHeadlineCounts(texts: seq<string>)
    requires texts == ["London", "Paris", "London", "Berlin", "London", "Paris"]
    ensures Elements(texts) == {"London", "Paris", "Berlin"}
    ensures multiset(texts)["London"] == 3 && multiset(texts)["Paris"] == 2 && multiset(texts)["Berlin"] == 1
  {
    assert "London" != "Paris" && "London" != "Berlin" && "Paris" != "Berlin" by {
      assert "London"[0] != "Berlin"[0];
    }
  }

  /** London 3, Paris 2, Berlin 1 is a ranking of those texts. */
  lemma CityHeadlineRanking()
    ensures IsRanking(["London", "Paris", "London", "Berlin", "London", "Paris"], TopCount,
                      [("London", 3), ("Paris", 2), ("Berlin", 1)])
  {
    var texts := ["London", "Paris", "London", "Berlin", "London", "Paris"];
    var expected := [("London", 3), ("Paris", 2), ("Berlin", 1)];
    CityHeadlineCounts(texts);
    assert |expected| == Min(TopCount, |Elements(texts)|);
    assert Precedes(texts, "London", "Paris") && Precedes(texts, "London", "Berlin") && Precedes(texts, "Paris", "Berlin");
    assert Firsts(expected) == ["London", "Paris", "Berlin"];
    assert forall x :: x in texts ==> x in Firsts(expected);
  }

  /**
   * Headlines naming London three times, Paris twice and Berlin once are
   * reported as exactly London 3, Paris 2, Berlin 1.
   */
  lemma LondonParisBerlin(report: Report)
    requires Reports(CityHeadlines, report)
    ensures report == TopEntities([("London", 3), ("Paris", 2), ("Berlin", 1)])
  {
    CityHeadlineTexts();
    CityHeadlineRanking();
    RankingUnique(EntityTexts(CityHeadlines), TopCount, report.ranking, [("London", 3), ("Paris", 2), ("Berlin", 1)]);
  }

  /** Headlines naming Paris and London twice each, Paris first, and Berlin once. */
  const TiedHeadlines: seq<seq<Pair>> :=
    [[("Paris", "GPE")], [("London", "GPE")], [("London", "GPE"), ("Paris", "GPE")], [("Berlin", "GPE")]]

  /** The distinct texts of `TiedHeadlines` and their counts. */
  lemma TiedHeadlineCounts(texts: seq<string>)
    requires texts == ["Paris", "London", "London", "Paris", "Berlin"]
    ensures Elements(texts) == {"Paris", "London", "Berlin"}
    ensures multiset(texts)["Paris"] == 2 && multiset(texts)["London"] == 2 && multiset(texts)["Berlin"] == 1
  {
    assert "London" != "Paris" && "London" != "Berlin" && "Paris" != "Berlin" by {
      assert "London"[0] != "Berlin"[0];
    }
  }

  /** Paris 2, London 2, Berlin 1 is a ranking of those texts. */
  lemma TiedHeadlineRanking(texts: seq<string>)
    requires texts == ["Paris", "London", "London", "Paris", "Berlin"]
    ensures IsRanking(texts, TopCount, [("Paris", 2), ("London", 2), ("Berlin", 1)])
  {
    var expected := [("Paris", 2), ("London", 2), ("Berlin", 1)];
    TiedHeadlineCounts(texts);
    FirstIndexAt(texts, 0);
    FirstIndexAt(texts, 1);
    assert Precedes(texts, "Paris", "London") && Precedes(texts, "Paris", "Berlin") && Precedes(texts, "London", "Berlin");
    assert Firsts(expected) == ["Paris", "London", "Berlin"];
    assert forall x :: x in texts ==> x in Firsts(expected);
  }

  /**
   * Paris and London, named twice each, are reported in the order in which
   * they were first seen: Paris 2, London 2, then Berlin 1.
   */
  lemma TiesKeepFirstSeenOrder(report: Report)
    requires Reports(TiedHeadlines, report)
    ensures report == TopEntities([("Paris", 2), ("London", 2), ("Berlin", 1)])
  {
    var texts := EntityTexts(TiedHeadlines);
    assert texts == ["Paris", "London", "London", "Paris", "Berlin"];
    TiedHeadlineRanking(texts);
    RankingUnique(texts, TopCount, report.ranking, [("Paris", 2), ("London", 2), ("Berlin", 1)]);
  }
}
