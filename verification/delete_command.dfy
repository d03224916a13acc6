/**
 * lib.persistence.command.manipulation.DeleteCommand: DELETE by primary key, from an entity or
 * from key values given in ordinal order, and DELETE of every row.
 */
module DeleteCommand {
  import opened Wrappers
  import opened JavaText
  import opened Values
  import opened Schema
  import opened SqlNames
  import opened Mapper
  import opened KeyArgs

  /** The quoted table name, and the WHERE clause and arguments (both null for buildAll). */
  datatype DeleteCommand = DeleteCommand(
    tableName: string,
    whereClause: Option<string>,
    whereArgs: Option<seq<Option<string>>>)

  /** The test on one key column, its name passed through qCol. */
  function KeyCondition(c: DbColumn): string
  {
    QCol(c.columnName) + " = ?"
  }

  /** The tests on the key columns, joined by AND. */
  function KeyWhere(pks: seq<DbColumn>): string
  {
    Join(" AND ", seq(|pks|, i requires 0 <= i < |pks| => KeyCondition(pks[i])))
  }

  /**
   * The argument for one key column read from the entity: a null key is an IllegalStateException,
   * which the surrounding catch wraps; anything else goes through ConvertedArg.
   */
  function EntityKeyArg(e: Entity, pk: DbColumn): (r: Result<Option<string>, Error>)
    ensures FieldValueOf(e, pk.fieldName).Null? ==> r.Err? && r.error.Wrapped? && r.error.cause.IllegalState?
  {
    var v := FieldValueOf(e, pk.fieldName);
    if v.Null? then Err(Wrapped(IllegalState("primary key value must not be null: " + pk.fieldName)))
    else ConvertedArg(ConverterOf(e.cls, pk.fieldName), v)
  }

  function EntityKeyArgResults(e: Entity, pks: seq<DbColumn>): seq<Result<Option<string>, Error>>
  {
    seq(|pks|, i requires 0 <= i < |pks| => EntityKeyArg(e, pks[i]))
  }

  /** The command `build(entity)` makes. */
  function DeleteOfEntity(entity: Option<Entity>): Result<DeleteCommand, Error>
  {
    if entity.None? then Err(IllegalArgument("entity must not be null"))
    else
      var e := entity.value;
      var rawTable :- GetTableName(e.cls);
      var pks := PrimaryKeys(Columns(e.cls));
      if pks == [] then Err(IllegalState("no primary key: " + e.cls.simpleName))
      else
        var args :- Collect(EntityKeyArgResults(e, pks));
        Ok(DeleteCommand(QId(rawTable), Some(KeyWhere(pks)), Some(args)))
  }

  /** `build(entity)`. */
  method BuildFromEntity(entity: Option<Entity>) returns (r: Result<DeleteCommand, Error>)
    ensures r == DeleteOfEntity(entity)
  {
    if entity.None? {
      return Err(IllegalArgument("entity must not be null"));
    }
    var e := entity.value;
    var rawTable := GetTableName(e.cls);
    if rawTable.Err? {
      return Err(rawTable.error);
    }
    var pks := GetPrimaryKeyColumns(e.cls);
    if |pks| == 0 {
      return Err(IllegalState("no primary key: " + e.cls.simpleName));
    }
    var args := FillArgs(EntityKeyArgResults(e, pks));
    if args.Err? {
      return Err(args.error);
    }
    r := Ok(DeleteCommand(QId(rawTable.value), Some(KeyWhere(pks)), Some(args.value)));
  }

  /** A key value given by the caller: null is an IllegalArgumentException, anything else String.valueOf. */
  function GivenKeyArg(pk: DbColumn, v: FieldValue): (r: Result<Option<string>, Error>)
    ensures r.Ok? <==> !v.Null?
    ensures r.Ok? ==> r.value == Some(JavaString(v))
    ensures r.Err? ==> r.error.IllegalArgument?
  {
    if v.Null? then Err(IllegalArgument("primary key value must not be null: " + pk.columnName))
    else Ok(Some(JavaString(v)))
  }

  function GivenKeyArgResults(pks: seq<DbColumn>, values: seq<FieldValue>): seq<Result<Option<string>, Error>>
    requires |values| == |pks|
  {
    seq(|pks|, i requires 0 <= i < |pks| => GivenKeyArg(pks[i], values[i]))
  }

  /** The command `build(type, primaryKeyValues...)` makes; the values pair with the keys by position. */
  function DeleteByKeys(cls: Option<ClassDesc>, values: Option<seq<FieldValue>>): Result<DeleteCommand, Error>
  {
    if cls.None? then Err(IllegalArgument("type must not be null"))
    else
      var rawTable :- GetTableName(cls.value);
      var pks := PrimaryKeys(Columns(cls.value));
      if pks == [] then Err(IllegalState("no primary key: " + cls.value.simpleName))
      else if values.None? || |values.value| != |pks| then Err(IllegalArgument("primary key value count mismatch"))
      else
        var args :- Collect(GivenKeyArgResults(pks, values.value));
        Ok(DeleteCommand(QId(rawTable), Some(KeyWhere(pks)), Some(args)))
  }

  /** `build(type, primaryKeyValues...)`. */
  method BuildFromKeys(cls: Option<ClassDesc>, values: Option<seq<FieldValue>>) returns (r: Result<DeleteCommand, Error>)
    ensures r == DeleteByKeys(cls, values)
  {
    if cls.None? {
      return Err(IllegalArgument("type must not be null"));
    }
    var rawTable := GetTableName(cls.value);
    if rawTable.Err? {
      return Err(rawTable.error);
    }
    var pks := GetPrimaryKeyColumns(cls.value);
    if |pks| == 0 {
      return Err(IllegalState("no primary key: " + cls.value.simpleName));
    }
    if values.None? || |values.value| != |pks| {
      return Err(IllegalArgument("primary key value count mismatch"));
    }
    var args := FillArgs(GivenKeyArgResults(pks, values.value));
    if args.Err? {
      return Err(args.error);
    }
    r := Ok(DeleteCommand(QId(rawTable.value), Some(KeyWhere(pks)), Some(args.value)));
  }

  /** `buildAll(type)`: the quoted table, no WHERE clause and no arguments. */
  function BuildAll(cls: Option<ClassDesc>): (r: Result<DeleteCommand, Error>)
    ensures cls.None? ==> r.Err? && r.error.IllegalArgument?
    ensures r.Ok? <==> cls.Some? && GetTableName(cls.value).Ok?
    ensures r.Ok? ==> r.value == DeleteCommand(QId(Trim(cls.value.tableAnnotation.value)), None, None)
  {
    if cls.None? then Err(IllegalArgument("type must not be null"))
    else
      var rawTable :- GetTableName(cls.value);
      Ok(DeleteCommand(QId(rawTable), None, None))
  }

  // ---------------------------------------------------------------- properties

  /** A key test holds exactly one `?` when the column name has none. */
  lemma KeyConditionPlaceholder(c: DbColumn)
    requires '?' !in c.columnName
    ensures Occurrences('?', KeyCondition(c)) == 1
  {
    QColChars(c.columnName);
    TestHasOneMark(QCol(c.columnName));
  }

  /** `<name> = ?` holds one `?` when the name holds none. */
  lemma TestHasOneMark(q: string)
    requires '?' !in q
    ensures Occurrences('?', q + " = ?") == 1
  {
    NoOccurrence('?', q);
    NoOccurrence('?', " = ");
    OccurrencesConcat('?', q, " = ");
    OccurrencesConcat('?', q + " = ", "?");
    assert q + " = ?" == q + " = " + "?";
    SingleOccurrence('?');
  }

  /**
   * The key tests joined by AND hold one `?` per key column. The tests here pass the name
   * through qCol; UpdateCommand's own KeyWhere writes the raw name in backticks instead, so
   * each builder proves this about its own WHERE text.
   */
  lemma KeyWherePlaceholders(pks: seq<DbColumn>)
    requires forall i :: 0 <= i < |pks| ==> '?' !in pks[i].columnName
    ensures Occurrences('?', KeyWhere(pks)) == |pks|
  {
    var conds := seq(|pks|, i requires 0 <= i < |pks| => KeyCondition(pks[i]));
    forall i | 0 <= i < |pks|
      ensures Occurrences('?', conds[i]) == 1
    {
      KeyConditionPlaceholder(pks[i]);
    }
    JoinedPlaceholders('?', " AND ", conds);
  }

  /** The parts of a command built from an entity. */
  lemma DeleteOfEntityParts(e: Entity)
    requires DeleteOfEntity(Some(e)).Ok?
    ensures GetTableName(e.cls).Ok? && PrimaryKeys(Columns(e.cls)) != []
    ensures Collect(EntityKeyArgResults(e, PrimaryKeys(Columns(e.cls)))).Ok?
    ensures DeleteOfEntity(Some(e)).value == DeleteCommand(
      QId(GetTableName(e.cls).value),
      Some(KeyWhere(PrimaryKeys(Columns(e.cls)))),
      Some(Collect(EntityKeyArgResults(e, PrimaryKeys(Columns(e.cls)))).value))
  {
  }

  /** A class without a key column cannot be deleted from by entity: IllegalStateException. */
  lemma DeleteNeedsKey(e: Entity)
    requires GetTableName(e.cls).Ok?
    requires forall c :: c in Columns(e.cls) ==> !c.isPrimaryKey
    ensures DeleteOfEntity(Some(e)).Err? && DeleteOfEntity(Some(e)).error.IllegalState?
  {
    PrimaryKeysMembers(Columns(e.cls));
  }

  /** A null key value read from the entity fails the command. */
  lemma DeleteNullKeyFails(e: Entity, i: int)
    requires 0 <= i < |PrimaryKeys(Columns(e.cls))|
    requires FieldValueOf(e, PrimaryKeys(Columns(e.cls))[i].fieldName).Null?
    ensures DeleteOfEntity(Some(e)).Err?
  {
    var rs := EntityKeyArgResults(e, PrimaryKeys(Columns(e.cls)));
    assert rs[i].Err?;
    CollectOk(rs);
  }

  /** One argument per key column in ordinal order, each from a non-null key value. */
  lemma DeleteEntityArgs(e: Entity)
    requires DeleteOfEntity(Some(e)).Ok?
    ensures DeleteOfEntity(Some(e)).value.whereArgs.Some?
    ensures |DeleteOfEntity(Some(e)).value.whereArgs.value| == |PrimaryKeys(Columns(e.cls))|
    ensures forall i :: 0 <= i < |PrimaryKeys(Columns(e.cls))| ==>
      !FieldValueOf(e, PrimaryKeys(Columns(e.cls))[i].fieldName).Null? &&
      EntityKeyArg(e, PrimaryKeys(Columns(e.cls))[i]).Ok? &&
      DeleteOfEntity(Some(e)).value.whereArgs.value[i] == EntityKeyArg(e, PrimaryKeys(Columns(e.cls))[i]).value
  {
    var pks := PrimaryKeys(Columns(e.cls));
    var rs := EntityKeyArgResults(e, pks);
    DeleteOfEntityParts(e);
    CollectOk(rs);
    assert forall i :: 0 <= i < |pks| ==> rs[i] == EntityKeyArg(e, pks[i]);
  }

  /** The WHERE clause built from an entity has one `?` per argument. */
  lemma DeleteEntityPlaceholders(e: Entity)
    requires DeleteOfEntity(Some(e)).Ok?
    requires forall c :: c in Columns(e.cls) && c.isPrimaryKey ==> '?' !in c.columnName
    ensures Occurrences('?', DeleteOfEntity(Some(e)).value.whereClause.value) == |DeleteOfEntity(Some(e)).value.whereArgs.value|
  {
    var pks := PrimaryKeys(Columns(e.cls));
    PrimaryKeysMembers(Columns(e.cls));
    assert forall i :: 0 <= i < |pks| ==> pks[i] in pks;
    KeyWherePlaceholders(pks);
    DeleteOfEntityParts(e);
  }

  /** Given key values must match the key columns in number (and be present): IllegalArgumentException. */
  lemma DeleteKeyCount(cls: ClassDesc, values: seq<FieldValue>)
    requires GetTableName(cls).Ok? && PrimaryKeys(Columns(cls)) != []
    ensures |values| != |PrimaryKeys(Columns(cls))| ==>
      DeleteByKeys(Some(cls), Some(values)).Err? && DeleteByKeys(Some(cls), Some(values)).error.IllegalArgument?
    ensures DeleteByKeys(Some(cls), None).Err? && DeleteByKeys(Some(cls), None).error.IllegalArgument?
  {
  }

  /** The arguments for given key values: all present, or an IllegalArgumentException. */
  lemma GivenKeyArgsMeaning(pks: seq<DbColumn>, values: seq<FieldValue>)
    requires |values| == |pks|
    ensures Collect(GivenKeyArgResults(pks, values)).Ok? <==> forall i :: 0 <= i < |values| ==> !values[i].Null?
    ensures Collect(GivenKeyArgResults(pks, values)).Err? ==> Collect(GivenKeyArgResults(pks, values)).error.IllegalArgument?
    ensures Collect(GivenKeyArgResults(pks, values)).Ok? ==>
      Collect(GivenKeyArgResults(pks, values)).value == seq(|values|, i requires 0 <= i < |values| => Some(JavaString(values[i])))
  {
    var rs := GivenKeyArgResults(pks, values);
    CollectOk(rs);
    assert forall i :: 0 <= i < |pks| ==> rs[i] == GivenKeyArg(pks[i], values[i]);
    if Collect(rs).Err? {
      CollectErrFrom(rs);
    }
  }

  lemma DeleteByKeysParts(cls: ClassDesc, values: seq<FieldValue>)
    requires GetTableName(cls).Ok? && |values| == |PrimaryKeys(Columns(cls))| >= 1
    ensures var rs := Collect(GivenKeyArgResults(PrimaryKeys(Columns(cls)), values));
      DeleteByKeys(Some(cls), Some(values)) ==
        if rs.Err? then Err(rs.error)
        else Ok(DeleteCommand(QId(GetTableName(cls).value), Some(KeyWhere(PrimaryKeys(Columns(cls)))), Some(rs.value)))
  {
  }

  /** With the right number of values: a null is an IllegalArgumentException, else each argument is String.valueOf its value. */
  lemma DeleteGivenKeys(cls: ClassDesc, values: seq<FieldValue>)
    requires GetTableName(cls).Ok? && |values| == |PrimaryKeys(Columns(cls))| >= 1
    ensures DeleteByKeys(Some(cls), Some(values)).Ok? <==> forall i :: 0 <= i < |values| ==> !values[i].Null?
    ensures DeleteByKeys(Some(cls), Some(values)).Err? ==> DeleteByKeys(Some(cls), Some(values)).error.IllegalArgument?
    ensures DeleteByKeys(Some(cls), Some(values)).Ok? ==>
      DeleteByKeys(Some(cls), Some(values)).value.whereArgs == Some(seq(|values|, i requires 0 <= i < |values| => Some(JavaString(values[i]))))
  {
    GivenKeyArgsMeaning(PrimaryKeys(Columns(cls)), values);
    DeleteByKeysParts(cls, values);
  }
}
