/** The cty values the generated configuration carries: strings, booleans,
    integers and lists. Only the constructors the exporter uses are modelled. */
module Cty {
  import opened Wrappers

  datatype Value =
    | BoolVal(b: bool)
    | StringVal(str: string)
    | NumberVal(n: int)
    | ListVal(elems: seq<Value>)

  /** Each string wrapped as a string value, in order. */
  function StringVals(vals: seq<string>): (r: seq<Value>)
    ensures |r| == |vals|
    ensures forall i :: 0 <= i < |vals| ==> r[i] == StringVal(vals[i])
  {
    if |vals| == 0 then [] else [StringVal(vals[0])] + StringVals(vals[1..])
  }

  /** A list of string values (for an empty slice, the empty list of strings). */
  function StringList(vals: seq<string>): Value {
    ListVal(StringVals(vals))
  }

  /** AsValueSlice followed by AsString on each element; None if the value is
      not a list or holds a non-string. */
  function AsStrings(v: Value): Option<seq<string>> {
    match v
    case ListVal(elems) => StringsOf(elems)
    case _ => None
  }

  function StringsOf(elems: seq<Value>): Option<seq<string>> {
    if |elems| == 0 then Some([])
    else if !elems[0].StringVal? then None
    else match StringsOf(elems[1..])
      case Some(rest) => Some([elems[0].str] + rest)
      case None => None
  }

  lemma {:induction false} StringsOfVals(vals: seq<string>)
    ensures StringsOf(StringVals(vals)) == Some(vals)
    decreases |vals|
  {
    if |vals| > 0 {
      var elems := StringVals(vals);
      StringsOfVals(vals[1..]);
      assert elems[1..] == StringVals(vals[1..]);
      assert elems[0] == StringVal(vals[0]);
      assert [vals[0]] + vals[1..] == vals;
    }
  }

  /** Reading a string list back yields the strings it was built from. */
  lemma AsStringsStringList(vals: seq<string>)
    ensures AsStrings(StringList(vals)) == Some(vals)
  {
    StringsOfVals(vals);
  }
}
