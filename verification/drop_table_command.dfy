/** lib.persistence.command.definition.DropTableCommand: `DROP TABLE IF EXISTS` for a validated table name. */
module DropTableCommand {
  import opened Wrappers
  import opened JavaText
  import opened Values
  import opened Schema
  import opened SqlNames

  /**
   * `build(String)`: a missing or blank name is rejected, then the name must pass the class's
   * private safeId check (the same pattern test as SqlNames.safeId); the name is not quoted.
   */
  function BuildFromName(tableName: Option<string>): (r: Result<string, Error>)
    ensures r.Ok? <==> tableName.Some? && IsSafeIdentifier(Trim(tableName.value))
    ensures r.Ok? ==> r.value == "DROP TABLE IF EXISTS " + Trim(tableName.value) + ";"
    ensures r.Err? ==> r.error.IllegalArgument?
  {
    if tableName.None? || IsBlank(tableName.value) then Err(IllegalArgument("tableName is required"))
    else
      var id :- SafeId(tableName.value);
      Ok("DROP TABLE IF EXISTS " + id + ";")
  }

  /**
   * `build(Class)`: a null type fails on `getAnnotation` (NullPointerException); otherwise the
   * annotation name if non-empty, else the simple class name, then `build(String)`.
   */
  function BuildFromClass(cls: Option<ClassDesc>): (r: Result<string, Error>)
    ensures cls.None? ==> r == Err(NullPointer)
    ensures r.Ok? <==> cls.Some? && IsSafeIdentifier(Trim(AnnotatedOrSimpleName(cls.value)))
    ensures r.Ok? ==> r.value == "DROP TABLE IF EXISTS " + Trim(AnnotatedOrSimpleName(cls.value)) + ";"
    ensures cls.Some? && r.Err? ==> r.error.IllegalArgument?
  {
    if cls.None? then Err(NullPointer)
    else BuildFromName(Some(AnnotatedOrSimpleName(cls.value)))
  }

  /** Surrounding blanks never matter: the name is trimmed before it is checked and used. */
  lemma BuildIgnoresBlanks(name: string)
    ensures BuildFromName(Some(Trim(name))).Ok? == BuildFromName(Some(name)).Ok?
    ensures BuildFromName(Some(name)).Ok? ==> BuildFromName(Some(Trim(name))) == BuildFromName(Some(name))
  {
    var t := Trim(name);
    TrimmedIsFixpoint(t);
  }

  /** A statement that is built drops a table whose name is a plain SQL identifier. */
  lemma DroppedNameIsSafe(name: string)
    requires BuildFromName(Some(name)).Ok?
    ensures !IsBlank(name)
    ensures SafeId(name) == Ok(Trim(name))
  {
  }
}
