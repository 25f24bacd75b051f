/** The tuple codec of src/jsonfetch.rs: `vec_to_str` writes a list of numbers as
    "(a,b,c)" and `str_to_vec` reads such text back. The JSON fetcher itself (an HTTP
    client) is not part of this model. */
module JsonFetch {
  import opened Wrappers
  import opened Strings

  /** The number syntax the codec delegates to: `parse` stands for
      `util::string_is_valid_f64` followed by `str::parse::<f64>` (None when the text is
      not a valid number), `format` for Rust's `{}` formatting of an `f64`. Neither is
      part of this model, so they are parameters; `F` stands for `f64`. */
  datatype NumberText<!F> = NumberText(parse: string -> Option<F>, format: F -> string)

  /** What the round-trip properties assume of the number syntax: formatted numbers
      contain no list or segment separator and no surrounding whitespace, they parse back
      to the same number, and the empty text is not a number. */
  ghost predicate FaithfulNumberText<F(!new)>(nt: NumberText<F>)
  {
    && nt.parse([]).None?
    && forall x: F ::
         && ',' !in nt.format(x)
         && ';' !in nt.format(x)
         && '(' !in nt.format(x)
         && (nt.format(x) == [] || (!IsWhitespace(nt.format(x)[0]) && !IsWhitespace(nt.format(x)[|nt.format(x)| - 1])))
         && nt.parse(nt.format(x)) == Some(x)
  }

  /** The error statuses the codec reports (`constants::status`). */
  datatype Status = InvalidFloatValue

  /** Rust's `anyhow::Result<T>`, with the statuses above as errors. */
  datatype Result<+T> = Ok(value: T) | Err(status: Status)

  /** Each item formatted on its own. */
  function Formatted<F>(v: seq<F>, nt: NumberText<F>): (r: seq<string>)
    ensures |r| == |v|
    ensures forall i :: 0 <= i < |v| ==> r[i] == nt.format(v[i])
  {
    seq(|v|, i requires 0 <= i < |v| => nt.format(v[i]))
  }

  /** The text `vec_to_str` produces: the formatted items between parentheses,
      separated by commas, with no trailing comma. */
  function TupleText<F>(v: seq<F>, nt: NumberText<F>): (r: string)
    ensures Strippable(r) && r[0] == '(' && r[|r| - 1] == ')'
    ensures v == [] ==> r == "()"
  {
    "(" + Join(Formatted(v, nt), ',') + ")"
  }

  /** Every piece followed by a comma, as the builder in `vec_to_str` accumulates them. */
  function Terminated(pieces: seq<string>): string
  {
    if pieces == [] then [] else Terminated(pieces[..|pieces| - 1]) + pieces[|pieces| - 1] + [',']
  }

  /** Joining one more piece adds a separator and that piece at the end. */
  lemma {:induction false} JoinSnoc(pieces: seq<string>, last: string, sep: char)
    requires pieces != []
    ensures Join(pieces + [last], sep) == Join(pieces, sep) + [sep] + last
    decreases |pieces|
  {
    if |pieces| > 1 {
      assert (pieces + [last])[1..] == pieces[1..] + [last];
      JoinSnoc(pieces[1..], last, sep);
    }
  }

  /** Dropping the final comma of the terminated pieces leaves the comma-joined pieces. */
  lemma {:induction false} TerminatedIsJoinPlusComma(pieces: seq<string>)
    requires pieces != []
    ensures Terminated(pieces) == Join(pieces, ',') + [',']
    decreases |pieces|
  {
    var init := pieces[..|pieces| - 1];
    var last := pieces[|pieces| - 1];
    if |pieces| > 1 {
      TerminatedIsJoinPlusComma(init);
      JoinSnoc(init, last, ',');
      assert init + [last] == pieces;
    }
  }

  /** src/jsonfetch.rs `vec_to_str`: appends "item," for every item, removes the last
      character when there is one, and wraps the result in parentheses. */
  method VecToStr<F>(v: seq<F>, nt: NumberText<F>) returns (r: string)
    ensures r == TupleText(v, nt)
  {
    ghost var pieces := Formatted(v, nt);
    var b := "";
    for i := 0 to |v|
      invariant b == Terminated(pieces[..i])
    {
      b := b + nt.format(v[i]) + ",";
      assert pieces[..i + 1][..i] == pieces[..i];
    }
    assert pieces[..|v|] == pieces;
    var s := b;
    if |s| > 0 {
      TerminatedIsJoinPlusComma(pieces);
      s := s[..|s| - 1];
    }
    r := "(" + s + ")";
  }

  /** What `str_to_vec` needs of its input not to panic: two characters to remove, and a
      last character one byte long in UTF-8 (`String::remove` at byte index `len - 1`
      panics when that index is not a character boundary). */
  predicate Strippable(s: string)
  {
    |s| >= 2 && s[|s| - 1] < '\U{80}'
  }

  /** The comma-separated tokens between the first and the last character. */
  function Tokens(s: string): (r: seq<string>)
    requires |s| >= 2
    ensures |r| >= 1 && Join(r, ',') == s[1..|s| - 1]
  {
    JoinSplit(s[1..|s| - 1], ',');
    Split(s[1..|s| - 1], ',')
  }

  /** Every token, trimmed, parsed as a number: the numbers in order when every token
      is valid, the `INVALID_FLOAT_VALUE` error otherwise. */
  function ParseTokens<F>(tokens: seq<string>, nt: NumberText<F>): (r: Result<seq<F>>)
    ensures r.Ok? <==> forall i :: 0 <= i < |tokens| ==> nt.parse(Trim(tokens[i])).Some?
    ensures r.Ok? ==> |r.value| == |tokens|
    ensures r.Ok? ==> forall i :: 0 <= i < |tokens| ==> nt.parse(Trim(tokens[i])) == Some(r.value[i])
  {
    if tokens == [] then Ok([])
    else
      match nt.parse(Trim(tokens[0]))
      case None => Err(InvalidFloatValue)
      case Some(x) =>
        match ParseTokens(tokens[1..], nt)
        case Err(e) => Err(e)
        case Ok(xs) => Ok([x] + xs)
  }

  /** The result of `str_to_vec(s)`. */
  function ParseTuple<F>(s: string, nt: NumberText<F>): (r: Result<seq<F>>)
    requires Strippable(s)
    ensures r.Ok? ==> r.value != [] && |r.value| == |Tokens(s)|
  {
    ParseTokens(Tokens(s), nt)
  }

  /** Parsing one more token extends the numbers parsed so far. */
  lemma ParsedSnoc<F>(tokens: seq<string>, xs: seq<F>, x: F, nt: NumberText<F>)
    requires |xs| < |tokens|
    requires forall i :: 0 <= i < |xs| ==> nt.parse(Trim(tokens[i])) == Some(xs[i])
    requires nt.parse(Trim(tokens[|xs|])) == Some(x)
    ensures forall i :: 0 <= i < |xs| + 1 ==> nt.parse(Trim(tokens[i])) == Some((xs + [x])[i])
  {
  }

  /** src/jsonfetch.rs `str_to_vec`: removes the first and the last character, splits the
      rest on ',', and pushes every trimmed token as a number, returning the
      `INVALID_FLOAT_VALUE` error at the first token that is not one. */
  method StrToVec<F>(s: string, nt: NumberText<F>) returns (r: Result<seq<F>>)
    requires Strippable(s)
    ensures r == ParseTuple(s, nt)
  {
    var s0 := s[1..];
    s0 := s0[..|s0| - 1];
    assert s0 == s[1..|s| - 1];
    var split := Split(s0, ',');
    assert split == Tokens(s);
    var tupleVec: seq<F> := [];
    for k := 0 to |split|
      invariant |tupleVec| == k
      invariant forall i :: 0 <= i < k ==> nt.parse(Trim(split[i])) == Some(tupleVec[i])
    {
      var nT := Trim(split[k]);
      var parsed := nt.parse(nT);
      if parsed.None? {
        return Err(InvalidFloatValue);
      }
      ParsedSnoc(split, tupleVec, parsed.value, nt);
      tupleVec := tupleVec + [parsed.value];
    }
    r := Ok(tupleVec);
    ghost var expected := ParseTuple(s, nt);
    assert expected.Ok?;
    assert expected.value == tupleVec;
  }

  /** Round trip: the text `vec_to_str` writes for a non-empty vector is read back by
      `str_to_vec` as the same vector. */
  lemma TupleRoundTrip<F(!new)>(v: seq<F>, nt: NumberText<F>)
    requires FaithfulNumberText(nt)
    requires v != []
    ensures Strippable(TupleText(v, nt))
    ensures ParseTuple(TupleText(v, nt), nt) == Ok(v)
  {
    var pieces := Formatted(v, nt);
    var s := TupleText(v, nt);
    assert s[1..|s| - 1] == Join(pieces, ',');
    SplitJoin(pieces, ',');
    assert Tokens(s) == pieces;
    forall i | 0 <= i < |v| ensures nt.parse(Trim(pieces[i])) == Some(v[i]) {
      TrimUnchanged(nt.format(v[i]));
    }
    var r := ParseTuple(s, nt);
    assert r.Ok?;
    assert r.value == v;
  }

  /** The empty vector does not survive the round trip: "()" holds one empty token,
      which is not a number. */
  lemma EmptyTupleRejected<F(!new)>(nt: NumberText<F>)
    requires FaithfulNumberText(nt)
    ensures ParseTuple(TupleText([], nt), nt) == Err(InvalidFloatValue)
  {
    var s := TupleText([], nt);
    assert s == "()";
    assert Tokens(s) == [[]];
  }
}
