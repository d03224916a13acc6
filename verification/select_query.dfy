/**
 * lib.persistence.command.query.SelectQuery: a compiled query (SQL text, bound arguments, an
 * optional entity type and an optional row mapper) and the choice of the mapper that turns
 * each cursor row into a result.
 */
module SelectQueries {
  import opened Wrappers
  import opened JavaText
  import opened Values
  import opened Schema

  /** A caller-supplied `Function<Cursor, T>`, known only by identity. */
  datatype RowMapper = RowMapper(id: nat)

  /** The state a SelectQuery holds after construction; `args` entries may be null. */
  datatype SelectQuery = SelectQuery(
    sql: string,
    args: seq<Option<string>>,
    cls: Option<ClassDesc>,
    rowMapper: Option<RowMapper>)

  /** The mapper getRowMapperOrDefault hands out. */
  datatype MapperChoice =
    | Supplied(mapper: RowMapper)
    | CursorToObject(cls: ClassDesc)   // c -> Mapper.cursorToObject(c, type)

  /** The 4-argument constructor: sql is required; null args become an empty array. */
  function NewSelectQuery(sql: Option<string>, args: Option<seq<Option<string>>>, cls: Option<ClassDesc>,
                          rowMapper: Option<RowMapper>): (r: Result<SelectQuery, Error>)
    ensures r.Err? <==> sql.None? || IsBlank(sql.value)
    ensures r.Err? ==> r.error.IllegalArgument?
    ensures r.Ok? ==> r.value.sql == sql.value && r.value.cls == cls && r.value.rowMapper == rowMapper
    ensures r.Ok? && args.None? ==> r.value.args == []
    ensures r.Ok? && args.Some? ==> r.value.args == args.value
  {
    if sql.None? || IsBlank(sql.value) then Err(IllegalArgument("sql is required"))
    else Ok(SelectQuery(sql.value, if args.None? then [] else args.value, cls, rowMapper))
  }

  /** The 3-argument constructor: the 4-argument one without a type. */
  function NewUntypedSelectQuery(sql: Option<string>, args: Option<seq<Option<string>>>,
                                 rowMapper: Option<RowMapper>): (r: Result<SelectQuery, Error>)
    ensures r == NewSelectQuery(sql, args, None, rowMapper)
    ensures r.Ok? ==> r.value.cls.None?
  {
    NewSelectQuery(sql, args, None, rowMapper)
  }

  /** `getRowMapperOrDefault()`: the supplied mapper, else the default for the type, else IllegalStateException. */
  function RowMapperOrDefault(q: SelectQuery): (r: Result<MapperChoice, Error>)
    ensures r.Ok? <==> q.rowMapper.Some? || q.cls.Some?
    ensures q.rowMapper.Some? ==> r == Ok(Supplied(q.rowMapper.value))
    ensures q.rowMapper.None? && q.cls.Some? ==> r == Ok(CursorToObject(q.cls.value))
    ensures r.Err? ==> r.error.IllegalState?
  {
    if q.rowMapper.Some? then Ok(Supplied(q.rowMapper.value))
    else if q.cls.Some? then Ok(CursorToObject(q.cls.value))
    else Err(IllegalState("No rowMapper provided and type is null; cannot map Cursor to T."))
  }

  /** A supplied mapper always wins over the type's default mapper. */
  lemma SuppliedMapperWins(sql: Option<string>, args: Option<seq<Option<string>>>, cls: Option<ClassDesc>, m: RowMapper)
    requires NewSelectQuery(sql, args, cls, Some(m)).Ok?
    ensures RowMapperOrDefault(NewSelectQuery(sql, args, cls, Some(m)).value) == Ok(Supplied(m))
  {
  }

  /** A query built by the 3-argument constructor without a mapper can never map its rows. */
  lemma UntypedQueryNeedsMapper(sql: Option<string>, args: Option<seq<Option<string>>>)
    requires NewUntypedSelectQuery(sql, args, None).Ok?
    ensures RowMapperOrDefault(NewUntypedSelectQuery(sql, args, None).value).Err?
    ensures RowMapperOrDefault(NewUntypedSelectQuery(sql, args, None).value).error.IllegalState?
  {
  }

  /** A query that constructs successfully maps its rows exactly when it has a mapper or a type. */
  lemma MappableIffMapperOrType(sql: Option<string>, args: Option<seq<Option<string>>>, cls: Option<ClassDesc>,
                                rowMapper: Option<RowMapper>)
    requires NewSelectQuery(sql, args, cls, rowMapper).Ok?
    ensures RowMapperOrDefault(NewSelectQuery(sql, args, cls, rowMapper).value).Ok? <==> rowMapper.Some? || cls.Some?
    ensures rowMapper.None? && cls.Some? ==>
      RowMapperOrDefault(NewSelectQuery(sql, args, cls, rowMapper).value) == Ok(CursorToObject(cls.value))
  {
  }
}
