/** The todo list filters and their membership test. */
module TodoFilter {
  import opened Js

  const All := "all"
  const Active := "active"
  const Completed := "completed"

  /** An argument of `isValid`: a primitive, or the `isValid` function itself,
      which is one of the object's own values. */
  datatype FilterArg = Primitive(v: Value) | IsValidFunction

  /** `Object.values(TodoFilter).includes(filter)`: the three filter strings
      and the function itself pass, and nothing else. */
  function IsValid(f: FilterArg): (b: bool)
    ensures b <==> f == IsValidFunction || (f.Primitive? && f.v.Text? && (f.v.s == All || f.v.s == Active || f.v.s == Completed))
  {
    f == Primitive(Text(All)) || f == Primitive(Text(Active)) || f == Primitive(Text(Completed)) ||
    f == IsValidFunction
  }

  /** A string is a valid filter exactly when it is one of the three values. */
  lemma ValidStrings(s: string)
    ensures IsValid(Primitive(Text(s))) <==> s == All || s == Active || s == Completed
  {
  }

  /** No value other than a string (and the function) is accepted. */
  lemma NonStringsRejected(v: Value)
    requires !v.Text?
    ensures !IsValid(Primitive(v))
  {
  }

  /** The `isValid` function is itself one of the object's values, so it
      passes its own test. */
  lemma FunctionItselfAccepted()
    ensures IsValid(IsValidFunction)
  {
  }

  /** The three values are pairwise distinct. */
  lemma ValuesDistinct()
    ensures All != Active && All != Completed && Active != Completed
  {
    assert All[0] == 'a' && Active[0] == 'a' && Completed[0] == 'c';
    assert |All| == 3 && |Active| == 6;
  }
}
