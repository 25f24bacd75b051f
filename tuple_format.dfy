/** The serde adapter `tuple_format` of src/jsonfetch.rs: an optional vector of numbers
    stored in JSON as tuple text such as "(1,2,3)", with "UNK" and non-string values
    read as absent. */
module TupleFormat {
  import opened Wrappers
  import opened JsonFetch

  /** The JSON value serde hands over or receives: a string, the unit value (`null`),
      or any other JSON value. */
  datatype JsonValue = JsonString(s: string) | JsonNull | JsonOther

  /** src/jsonfetch.rs `tuple_format::serialize`: `None` is written as the unit value,
      `Some(v)` as the string `vec_to_str(v)`. */
  function Serialize<F>(tupleVecOpt: Option<seq<F>>, nt: NumberText<F>): (r: JsonValue)
    ensures r.JsonString? <==> tupleVecOpt.Some?
    ensures r.JsonString? ==> r.s == TupleText(tupleVecOpt.value, nt)
    ensures !r.JsonString? ==> r == JsonNull
  {
    match tupleVecOpt
    case None => JsonNull
    case Some(v) => JsonString(TupleText(v, nt))
  }

  /** src/jsonfetch.rs `tuple_format::deserialize`: a value that is not a string, and the
      string "UNK", give `None`; any other string gives `Some(str_to_vec(s).unwrap())`,
      which panics when `str_to_vec` panics or returns an error. */
  function Deserialize<F>(j: JsonValue, nt: NumberText<F>): (r: Outcome<Option<seq<F>>>)
    ensures r == Returned(None) <==> (!j.JsonString? || j.s == "UNK")
    ensures r.Panicked? <==> j.JsonString? && j.s != "UNK" && (!Strippable(j.s) || ParseTuple(j.s, nt).Err?)
    ensures r.Returned? && r.value.Some? ==>
              j.JsonString? && Strippable(j.s) && ParseTuple(j.s, nt) == Ok(r.value.value)
  {
    match j
    case JsonString(s) =>
      if s == "UNK" then Returned(None)
      else if !Strippable(s) then Panicked
      else (match ParseTuple(s, nt)
            case Ok(v) => Returned(Some(v))
            case Err(_) => Panicked)
    case _ => Returned(None)
  }

  /** Round trip: what `serialize` writes, `deserialize` reads back, for `None` and for
      every non-empty vector. */
  lemma RoundTrip<F(!new)>(tupleVecOpt: Option<seq<F>>, nt: NumberText<F>)
    requires FaithfulNumberText(nt)
    requires tupleVecOpt != Some([])
    ensures Deserialize(Serialize(tupleVecOpt, nt), nt) == Returned(tupleVecOpt)
  {
    if tupleVecOpt.Some? {
      var v := tupleVecOpt.value;
      TupleRoundTrip(v, nt);
      var s := TupleText(v, nt);
      assert s[0] == '(';
      assert s != "UNK";
    }
  }

  /** `Some` of the empty vector is written as "()", which `deserialize` cannot read:
      the `unwrap` of the error from `str_to_vec` panics. */
  lemma EmptyVectorPanics<F(!new)>(nt: NumberText<F>)
    requires FaithfulNumberText(nt)
    ensures Deserialize(Serialize(Some([]), nt), nt) == Panicked
  {
    EmptyTupleRejected(nt);
  }
}
