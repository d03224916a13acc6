/** lib.persistence.command.definition.CreateIndexCommand: `CREATE [UNIQUE] INDEX` over the given columns. */
module CreateIndexCommand {
  import opened Wrappers
  import opened JavaText
  import opened Values
  import opened Schema

  /** The text before the column list: `CREATE [UNIQUE ]INDEX IF NOT EXISTS <index> ON <table> (`. */
  function IndexHead(indexName: string, isUnique: bool, tableName: string): string
  {
    "CREATE " + (if isUnique then "UNIQUE " else "") + "INDEX IF NOT EXISTS " + indexName + " ON " + tableName + " ("
  }

  /**
   * The statement `build(type, indexName, isUnique, columns...)` produces. The table is the
   * annotation name or the simple class name; table, index and column names go in verbatim.
   */
  function CreateIndexSql(cls: ClassDesc, indexName: string, isUnique: bool, columns: seq<string>): string
  {
    IndexHead(indexName, isUnique, AnnotatedOrSimpleName(cls)) + Join(", ", columns) + ");"
  }

  /**
   * `build`: a null type fails on `getAnnotation` (NullPointerException); otherwise the statement
   * is assembled piece by piece, a separator after every column but the last.
   */
  method Build(cls: Option<ClassDesc>, indexName: string, isUnique: bool, columns: seq<string>) returns (r: Result<string, Error>)
    ensures cls.None? ==> r == Err(NullPointer)
    ensures cls.Some? ==> r == Ok(CreateIndexSql(cls.value, indexName, isUnique, columns))
  {
    if cls.None? {
      return Err(NullPointer);
    }
    var tableName := AnnotatedOrSimpleName(cls.value);
    var query := "CREATE ";
    if isUnique {
      query := query + "UNIQUE ";
    }
    query := query + "INDEX IF NOT EXISTS ";
    query := query + indexName + " ON " + tableName + " (";
    ghost var head := query;
    assert head == IndexHead(indexName, isUnique, tableName);
    var i := 0;
    while i < |columns|
      invariant 0 <= i <= |columns|
      invariant query == head + Written(columns, i)
    {
      WrittenStep(columns, i);
      ghost var before := query;
      query := query + columns[i];
      if i < |columns| - 1 {
        ConcatAssoc(before, columns[i], ", ");
        query := query + ", ";
      }
      ConcatAssoc(head, Written(columns, i), columns[i] + if i < |columns| - 1 then ", " else "");
      i := i + 1;
    }
    WrittenAll(columns);
    query := query + ");";
    r := Ok(query);
  }

  /** The column list the loop of `build` has written after `i` columns, separator included. */
  function Written(columns: seq<string>, i: nat): string
    requires i <= |columns|
  {
    if i == 0 then "" else Join(", ", columns[..i]) + (if i < |columns| then ", " else "")
  }

  lemma WrittenStep(columns: seq<string>, i: nat)
    requires i < |columns|
    ensures Written(columns, i + 1) == Written(columns, i) + (columns[i] + if i < |columns| - 1 then ", " else "")
  {
    var parts := columns[..i + 1];
    assert parts[..i] == columns[..i];
    assert parts[i] == columns[i];
  }

  lemma WrittenAll(columns: seq<string>)
    ensures Written(columns, |columns|) == Join(", ", columns)
  {
    assert columns[..|columns|] == columns;
  }

  /** The statement names a UNIQUE index exactly when `isUnique` is set. */
  lemma UniqueIffRequested(cls: ClassDesc, indexName: string, isUnique: bool, columns: seq<string>)
    ensures StartsWith(CreateIndexSql(cls, indexName, isUnique, columns), "CREATE UNIQUE ") <==> isUnique
  {
    var sql := CreateIndexSql(cls, indexName, isUnique, columns);
    if !isUnique {
      assert sql[7] == 'I';
    }
  }

  /** The fixed words around the names hold no comma. */
  lemma HeadCommas(indexName: string, isUnique: bool, tableName: string)
    ensures Occurrences(',', IndexHead(indexName, isUnique, tableName)) == Occurrences(',', indexName) + Occurrences(',', tableName)
  {
    var words := "CREATE " + (if isUnique then "UNIQUE " else "") + "INDEX IF NOT EXISTS ";
    WordsHaveNoComma(isUnique);
    PunctuationHasNoComma();
    OccurrencesConcat(',', words, indexName);
    OccurrencesConcat(',', words + indexName, " ON ");
    OccurrencesConcat(',', words + indexName + " ON ", tableName);
    OccurrencesConcat(',', words + indexName + " ON " + tableName, " (");
  }

  lemma WordsHaveNoComma(isUnique: bool)
    ensures Occurrences(',', "CREATE " + (if isUnique then "UNIQUE " else "") + "INDEX IF NOT EXISTS ") == 0
  {
    var u := if isUnique then "UNIQUE " else "";
    NoOccurrence(',', "CREATE ");
    NoOccurrence(',', u);
    OccurrencesConcat(',', "CREATE ", u);
    IndexWordsHaveNoComma();
    OccurrencesConcat(',', "CREATE " + u, "INDEX IF NOT EXISTS ");
  }

  lemma IndexWordsHaveNoComma()
    ensures Occurrences(',', "INDEX IF NOT EXISTS ") == 0
  {
    NoOccurrence(',', "INDEX IF NOT EXISTS ");
  }

  lemma CommaSeparator()
    ensures Occurrences(',', ", ") == 1
  {
    assert ", " == [','] + " ";
    SingleOccurrence(',');
    NoOccurrence(',', " ");
    OccurrencesConcat(',', [','], " ");
  }

  lemma PunctuationHasNoComma()
    ensures Occurrences(',', " ON ") == 0 && Occurrences(',', " (") == 0 && Occurrences(',', ");") == 0
  {
    NoOccurrence(',', " ON ");
    NoOccurrence(',', " (");
    NoOccurrence(',', ");");
  }

  /** The column list adds exactly one `, ` between each two columns. */
  lemma ColumnSeparators(cls: ClassDesc, indexName: string, isUnique: bool, columns: seq<string>)
    requires |columns| >= 1
    ensures Occurrences(',', CreateIndexSql(cls, indexName, isUnique, columns)) ==
      Occurrences(',', indexName) + Occurrences(',', AnnotatedOrSimpleName(cls)) + OccurrencesIn(',', columns) + |columns| - 1
  {
    var head := IndexHead(indexName, isUnique, AnnotatedOrSimpleName(cls));
    var joined := Join(", ", columns);
    CommaSeparator();
    JoinSeparatorOnce(',', ", ", columns);
    HeadCommas(indexName, isUnique, AnnotatedOrSimpleName(cls));
    PunctuationHasNoComma();
    OccurrencesConcat(',', head, joined);
    OccurrencesConcat(',', head + joined, ");");
  }

  /** No separator follows the last column: the statement ends with it and `);`. */
  lemma LastColumnCloses(cls: ClassDesc, indexName: string, isUnique: bool, columns: seq<string>)
    requires |columns| >= 1
    ensures EndsWith(CreateIndexSql(cls, indexName, isUnique, columns), columns[|columns| - 1] + ");")
  {
    var joined := Join(", ", columns);
    var last := columns[|columns| - 1];
    var head := IndexHead(indexName, isUnique, AnnotatedOrSimpleName(cls));
    var before := if |columns| == 1 then head else head + Join(", ", columns[..|columns| - 1]) + ", ";
    assert CreateIndexSql(cls, indexName, isUnique, columns) == before + (last + ");");
  }

  /** With no column the list is empty: `... ON table ();`. */
  lemma NoColumns(cls: ClassDesc, indexName: string, isUnique: bool)
    ensures EndsWith(CreateIndexSql(cls, indexName, isUnique, []), AnnotatedOrSimpleName(cls) + " ();")
  {
    var t := AnnotatedOrSimpleName(cls) + " ();";
    var before := "CREATE " + (if isUnique then "UNIQUE " else "") + "INDEX IF NOT EXISTS " + indexName + " ON ";
    assert CreateIndexSql(cls, indexName, isUnique, []) == before + t;
  }
}
