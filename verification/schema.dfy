/**
 * What reflection tells the persistence layer about a record class: its annotated fields,
 * level by level up the class hierarchy, and its table annotation. Also the column model
 * (DbColumn, DbDataType) that the Mapper derives from it.
 */
module Schema {
  import opened Wrappers
  import opened Values

  /** The static type of a field, as far as the column mapping distinguishes it (a primitive and its box share a tag). */
  datatype JavaType =
    | IntT | LongT | BooleanT | FloatT | DoubleT
    | ByteArrayT | LocalDateT | LocalDateTimeT | StringT
    | OtherT(name: string)   // short, byte, char, enums, java.util.Date and every other class

  /** `@DbColumnAnnotation` with its attributes. */
  datatype ColumnAnnotation = ColumnAnnotation(
    name: string,
    isPrimaryKey: bool,
    isIdentity: bool,
    isNullable: bool,
    ordinal: int)

  /** The annotation with every attribute left at its declared default. */
  const DefaultColumnAnnotation := ColumnAnnotation("", false, false, true, 1010)

  /** The converters a field can name in `@DbConverterAnnotation`. */
  datatype ConverterTag = DateMillis | EventTypeName

  /** A declared field: its name, type and the two annotations the layer reads. */
  datatype FieldDecl = FieldDecl(
    name: string,
    jtype: JavaType,
    column: Option<ColumnAnnotation>,
    converter: Option<ConverterTag>)

  /**
   * A record class. `levels[0]` holds the fields the class itself declares, each later level
   * those of the next superclass, up to but excluding Object. `tableAnnotation` is the name
   * attribute of `@DbTableAnnotation` (default ""), None when the class lacks it.
   */
  datatype ClassDesc = ClassDesc(
    simpleName: string,
    tableAnnotation: Option<string>,
    levels: seq<seq<FieldDecl>>)

  /** An instance of a record class: its field values by name. A name without entry holds null. */
  datatype Entity = Entity(cls: ClassDesc, values: map<string, FieldValue>)

  /** lib.persistence.profile.DbDataType. */
  datatype DbDataType = TEXT | INTEGER | REAL | BLOB | NUMERIC

  /**
   * lib.persistence.profile.DbColumn. `sqliteType` is the storage type override that
   * CreateTableCommand reads through getSqliteType(); DbColumn itself declares no such
   * property, and the Mapper never sets it.
   */
  datatype DbColumn = DbColumn(
    ordinal: int,
    fieldName: string,
    columnName: string,
    dataType: DbDataType,
    isPrimaryKey: bool,
    isIdentity: bool,
    isNullable: bool,
    sqliteType: Option<string>)

  /**
   * The table name the builders that read the annotation directly use: the annotation's
   * name when present and non-empty, otherwise the simple class name; neither trimmed nor
   * validated.
   */
  function AnnotatedOrSimpleName(cls: ClassDesc): (r: string)
    ensures cls.tableAnnotation.Some? && cls.tableAnnotation.value != "" ==> r == cls.tableAnnotation.value
    ensures (cls.tableAnnotation.None? || cls.tableAnnotation.value == "") ==> r == cls.simpleName
  {
    if cls.tableAnnotation.Some? && cls.tableAnnotation.value != "" then cls.tableAnnotation.value
    else cls.simpleName
  }

  /** The first field called `name` in a list of declared fields. */
  function FindInLevel(fields: seq<FieldDecl>, name: string): (r: Option<FieldDecl>)
    ensures r.Some? ==> r.value in fields && r.value.name == name
    ensures r.None? ==> forall f :: f in fields ==> f.name != name
  {
    if fields == [] then None
    else if fields[0].name == name then Some(fields[0])
    else FindInLevel(fields[1..], name)
  }

  /** `Mapper.findField`: search the class, then each superclass in turn. */
  function FindField(levels: seq<seq<FieldDecl>>, name: string): (r: Option<FieldDecl>)
    ensures r.Some? ==> r.value.name == name && exists i :: 0 <= i < |levels| && r.value in levels[i]
    ensures r.None? ==> forall i, f :: 0 <= i < |levels| && f in levels[i] ==> f.name != name
  {
    if levels == [] then None
    else
      var here := FindInLevel(levels[0], name);
      if here.Some? then here
      else
        var rest := FindField(levels[1..], name);
        assert forall i :: 1 <= i < |levels| ==> levels[i] == levels[1..][i - 1];
        rest
  }

  /** Reading a field of an entity by name (the value the found field holds). */
  function FieldValueOf(e: Entity, name: string): FieldValue
  {
    if name in e.values then e.values[name] else Null
  }

  /** The converter annotation on the field `findField` finds for `name`, if any. */
  function ConverterOf(cls: ClassDesc, name: string): Option<ConverterTag>
  {
    var f := FindField(cls.levels, name);
    if f.Some? then f.value.converter else None
  }
}
