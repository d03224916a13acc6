/**
 * The two field converters of the example application (DateMillisConverter and
 * EventTypeConverter) and the registry that maps a converter annotation to its instance.
 */
module Converters {
  import opened Wrappers
  import opened Values
  import opened Schema
  import opened JavaText

  /** java.util.Date, reduced to its milliseconds since the epoch. */
  datatype Date = Date(millis: int)

  /** DateMillisConverter.toDatabaseValue: null stays null, a date becomes its milliseconds. */
  function DateToDatabaseValue(v: Option<Date>): (r: Option<int>)
    ensures r.None? <==> v.None?
    ensures v.Some? ==> r.value == v.value.millis
  {
    match v
    case None => None
    case Some(d) => Some(d.millis)
  }

  /** DateMillisConverter.fromDatabaseValue: null stays null, t becomes `new Date(t)`. */
  function DateFromDatabaseValue(t: Option<int>): (r: Option<Date>)
    ensures r.None? <==> t.None?
    ensures t.Some? ==> r.value.millis == t.value
  {
    match t
    case None => None
    case Some(ms) => Some(Date(ms))
  }

  /** DateMillisConverter.sqliteType. */
  const DateSqliteType: string := "INTEGER"

  lemma DateRoundTrip(d: Option<Date>)
    ensures DateFromDatabaseValue(DateToDatabaseValue(d)) == d
  {
  }

  lemma DateMillisRoundTrip(t: Option<int>)
    ensures DateToDatabaseValue(DateFromDatabaseValue(t)) == t
  {
  }

  /** The application's EventType enum: a constant is known by its name. */
  datatype EventType = EventType(name: string)

  /** The class name an EventType value carries as a FieldValue.EnumConst. */
  const EventTypeClass: string := "com.example.adbkit.entities.EventType"

  /** EventTypeConverter.toDatabaseValue: null stays null, a constant becomes its name(). */
  function EventTypeToDatabaseValue(v: Option<EventType>): (r: Option<string>)
    ensures r.None? <==> v.None?
    ensures v.Some? ==> r.value == v.value.name
  {
    match v
    case None => None
    case Some(e) => Some(e.name)
  }

  /**
   * EventTypeConverter.fromDatabaseValue: null stays null, otherwise EventType.valueOf(s),
   * which throws IllegalArgumentException unless `s` names one of the enum's `constants`.
   */
  function EventTypeFromDatabaseValue(constants: set<string>, s: Option<string>): (r: Result<Option<EventType>, Error>)
    ensures s.None? ==> r == Ok(None)
    ensures s.Some? ==> (r.Ok? <==> s.value in constants)
    ensures r.Ok? && s.Some? ==> r.value == Some(EventType(s.value))
  {
    match s
    case None => Ok(None)
    case Some(name) =>
      if name in constants then Ok(Some(EventType(name)))
      else Err(IllegalArgument("No enum constant " + EventTypeClass + "." + name))
  }

  /** EventTypeConverter.sqliteType. */
  const EventTypeSqliteType: string := "TEXT"

  lemma EventTypeRoundTrip(constants: set<string>, e: Option<EventType>)
    requires e.Some? ==> e.value.name in constants
    ensures EventTypeFromDatabaseValue(constants, EventTypeToDatabaseValue(e)) == Ok(e)
  {
  }

  lemma EventTypeNameRoundTrip(constants: set<string>, s: Option<string>)
    requires s.Some? ==> s.value in constants
    ensures EventTypeFromDatabaseValue(constants, s).Ok?
    ensures EventTypeToDatabaseValue(EventTypeFromDatabaseValue(constants, s).value) == s
  {
  }

  /** The values a converter's cast lets through: null, or an instance of its Java type. */
  predicate Accepts(tag: ConverterTag, v: FieldValue) {
    v.Null?
    || (tag == DateMillis && v.UtilDate?)
    || (tag == EventTypeName && v.EnumConst? && v.enumType == EventTypeClass)
  }

  /** What a converter's toDatabaseValue returns: a Long or a String. */
  datatype DbPrimitive = DbLong(n: int) | DbString(s: string)

  /**
   * `((TypeConverter) ConverterRegistry.getOrCreate(tag)).toDatabaseValue(v)` on a field value;
   * a value of the wrong class fails the converter's cast.
   */
  function ToDatabaseValue(tag: ConverterTag, v: FieldValue): (r: Result<Option<DbPrimitive>, Error>)
    ensures r.Ok? <==> Accepts(tag, v)
    ensures v.Null? ==> r == Ok(None)
    ensures tag == DateMillis && v.UtilDate? ==> r == Ok(Some(DbLong(v.millis)))
    ensures tag == EventTypeName && v.EnumConst? && v.enumType == EventTypeClass ==> r == Ok(Some(DbString(v.name)))
    ensures r.Err? ==> r.error.ClassCast?
  {
    match tag
    case DateMillis =>
      if v.Null? then Ok(None)
      else if v.UtilDate? then Ok(Some(DbLong(DateToDatabaseValue(Some(Date(v.millis))).value)))
      else Err(ClassCast("not a java.util.Date"))
    case EventTypeName =>
      if v.Null? then Ok(None)
      else if v.EnumConst? && v.enumType == EventTypeClass then
        Ok(Some(DbString(EventTypeToDatabaseValue(Some(EventType(v.name))).value)))
      else Err(ClassCast("not an " + EventTypeClass))
  }

  /** `String.valueOf(dbVal)` of a converter's result. */
  function PrimitiveString(p: DbPrimitive): string
  {
    match p
    case DbLong(n) => IntToString(n)
    case DbString(s) => s
  }

  /** `sqliteType()` of the converter a tag names. */
  function SqliteTypeOf(tag: ConverterTag): (r: string)
    ensures r == "INTEGER" <==> tag == DateMillis
    ensures r == "TEXT" <==> tag == EventTypeName
  {
    match tag
    case DateMillis => DateSqliteType
    case EventTypeName => EventTypeSqliteType
  }
}
