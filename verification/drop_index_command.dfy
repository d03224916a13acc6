/** lib.persistence.command.definition.DropIndexCommand: `DROP INDEX IF EXISTS` with a qId-quoted name. */
module DropIndexCommand {
  import opened Wrappers
  import opened JavaText
  import opened Values
  import opened SqlNames

  /** `build(indexName)`: a missing or blank name is an IllegalArgumentException; otherwise qId quotes it. */
  function Build(indexName: Option<string>): (r: Result<string, Error>)
    ensures r.Err? <==> indexName.None? || IsBlank(indexName.value)
    ensures r.Err? ==> r.error.IllegalArgument?
  {
    if indexName.None? || IsBlank(indexName.value) then Err(IllegalArgument("indexName is required"))
    else Ok("DROP INDEX IF EXISTS " + QId(indexName.value) + ";")
  }

  /** A plain name comes out trimmed and wrapped in backticks. */
  lemma PlainIndexNameIsQuoted(name: string)
    requires !IsBlank(name) && !IsVerbatim(Trim(name))
    ensures Build(Some(name)) == Ok("DROP INDEX IF EXISTS `" + Trim(name) + "`;")
  {
    var s := Trim(name);
    assert "DROP INDEX IF EXISTS " + ("`" + s + "`") + ";" == "DROP INDEX IF EXISTS `" + s + "`;";
  }

  /** A name holding a space, `(`, a backtick or a double quote goes in trimmed but otherwise as given. */
  lemma VerbatimIndexNamePassesThrough(name: string)
    requires IsVerbatim(Trim(name))
    ensures Build(Some(name)) == Ok("DROP INDEX IF EXISTS " + Trim(name) + ";")
  {
  }

  /** Building from an already quoted name gives the same statement: quoting is not doubled. */
  lemma RequotingIsHarmless(name: string)
    requires !IsBlank(name)
    ensures !IsBlank(QId(name))
    ensures Build(Some(QId(name))) == Build(Some(name))
  {
    QIdIdempotent(name);
    var s := Trim(name);
    if IsVerbatim(s) {
      TrimmedIsFixpoint(s);
    } else {
      BackquotedIsFixpoint(s);
    }
  }
}
