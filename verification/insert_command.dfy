/** lib.persistence.command.manipulation.InsertCommand: the raw table name and the values to insert. */
module InsertCommand {
  import opened Wrappers
  import opened JavaText
  import opened Values
  import opened Schema
  import opened Mapper

  /** What an InsertCommand holds: the unquoted table name and the ContentValues. */
  datatype InsertCommand = InsertCommand(tableName: string, contentValues: ContentValues)

  /**
   * `build(entity)`: `entity.getClass()` fails on null; then the table name from the annotation,
   * then the ContentValues of the entity, in that order.
   */
  function Build(entity: Option<Entity>): (r: Result<InsertCommand, Error>)
    ensures entity.None? ==> r == Err(NullPointer)
    ensures entity.Some? && GetTableName(entity.value.cls).Err? ==> r == Err(GetTableName(entity.value.cls).error)
    ensures r.Ok? <==> entity.Some? && GetTableName(entity.value.cls).Ok? && ContentValuesOf(entity.value).Ok?
    ensures r.Ok? ==> r.value.contentValues == ContentValuesOf(entity.value).value
  {
    if entity.None? then Err(NullPointer)
    else
      var table :- GetTableName(entity.value.cls);
      var cv :- ContentValuesOf(entity.value);
      Ok(InsertCommand(table, cv))
  }

  /** The table is the trimmed annotation name, without quotes; a missing or blank one is an IllegalStateException. */
  lemma InsertTable(e: Entity)
    ensures e.cls.tableAnnotation.None? || IsBlank(e.cls.tableAnnotation.value) ==>
      Build(Some(e)).Err? && Build(Some(e)).error.IllegalState?
    ensures Build(Some(e)).Ok? ==> Build(Some(e)).value.tableName == Trim(e.cls.tableAnnotation.value)
  {
  }

  /** The values hold one key per non-identity column and no other. */
  lemma InsertKeys(e: Entity)
    requires Build(Some(e)).Ok?
    ensures Build(Some(e)).value.contentValues.Keys == set c | c in Columns(e.cls) && !c.isIdentity :: c.columnName
  {
    FillKeys(Columns(e.cls), e);
  }

  /** A column whose field is null is written as an explicit NULL (unless a later column reuses its name). */
  lemma InsertNullIsExplicit(e: Entity, i: int)
    requires Build(Some(e)).Ok?
    requires 0 <= i < |Columns(e.cls)| && !Columns(e.cls)[i].isIdentity
    requires FieldValueOf(e, Columns(e.cls)[i].fieldName).Null?
    requires forall j :: i < j < |Columns(e.cls)| && !Columns(e.cls)[j].isIdentity ==>
      Columns(e.cls)[j].columnName != Columns(e.cls)[i].columnName
    ensures Columns(e.cls)[i].columnName in Build(Some(e)).value.contentValues
    ensures Build(Some(e)).value.contentValues[Columns(e.cls)[i].columnName] == SNull
  {
    FillValues(Columns(e.cls), e, i);
  }
}
