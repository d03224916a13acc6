/**
 * The where-arguments UpdateCommand and DeleteCommand bind for primary-key columns: how one
 * value becomes an argument, and the indexed loop that fills the `String[]` of arguments.
 */
module KeyArgs {
  import opened Wrappers
  import opened JavaText
  import opened Values
  import opened Schema
  import opened Converters

  /**
   * The argument for a non-null key value: with a converter on the field, String.valueOf of the
   * converter's database value (null stays null); without one, String.valueOf(v). A converter
   * that rejects the value's class fails, and the builders' catch wraps the failure.
   */
  function ConvertedArg(conv: Option<ConverterTag>, v: FieldValue): (r: Result<Option<string>, Error>)
    ensures r.Err? <==> conv.Some? && !Accepts(conv.value, v)
    ensures conv.None? ==> r == Ok(Some(JavaString(v)))
    ensures conv.Some? && v.Null? ==> r == Ok(None)
    ensures conv == Some(DateMillis) && v.UtilDate? ==> r == Ok(Some(IntToString(v.millis)))
    ensures conv == Some(EventTypeName) && v.EnumConst? && v.enumType == EventTypeClass ==> r == Ok(Some(v.name))
    ensures r.Err? ==> r.error.Wrapped? && r.error.cause.ClassCast?
  {
    if conv.None? then Ok(Some(JavaString(v)))
    else
      var db := ToDatabaseValue(conv.value, v);
      if db.Err? then Err(Wrapped(db.error))
      else if db.value.None? then Ok(None)
      else Ok(Some(PrimitiveString(db.value.value)))
  }

  /**
   * `args = new String[n]; for (i ...) args[i] = ...;` where computing element i may throw:
   * the arguments in order, or the first failure.
   */
  method FillArgs(rs: seq<Result<Option<string>, Error>>) returns (r: Result<seq<Option<string>>, Error>)
    ensures r == Collect(rs)
  {
    var args := new Option<string>[|rs|](_ => None);
    var i := 0;
    while i < |rs|
      invariant 0 <= i <= |rs|
      invariant Collect(rs[..i]) == Ok(args[..i])
    {
      assert rs[..i + 1][..i] == rs[..i];
      if rs[i].Err? {
        CollectOk(rs[..i]);
        CollectFirstErr(rs, i);
        return Err(rs[i].error);
      }
      ghost var done := args[..i];
      args[i] := rs[i].value;
      assert args[..i + 1] == done + [rs[i].value];
      i := i + 1;
    }
    assert rs[..i] == rs && args[..i] == args[..];
    r := Ok(args[..]);
  }
}
