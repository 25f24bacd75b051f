/** The serde adapter `cahvor_format` of src/jsonfetch.rs, reading side: a camera model
    stored as ';'-separated segments, each a tuple "(x,y,z)" or a bare number. The number
    of parts selects the model kind; building the sciimg vectors and the model itself is
    not part of this model, so a model here holds its parts as read. */
module CahvorFormat {
  import opened Wrappers
  import opened Strings
  import opened JsonFetch
  import opened TupleFormat

  /** The camera-model kinds `deserialize` can produce, with the parts they are built from. */
  datatype CameraModel<F> =
    | Cahv(c: seq<F>, a: seq<F>, h: seq<F>, v: seq<F>)
    | Cahvor(c: seq<F>, a: seq<F>, h: seq<F>, v: seq<F>, o: seq<F>, r: seq<F>)
    | Cahvore(c: seq<F>, a: seq<F>, h: seq<F>, v: seq<F>, o: seq<F>, r: seq<F>, e: seq<F>, linearity: F)
    | DefaultModel

  /** The vectors of a model, in the order C, A, H, V, O, R, E. */
  function Vectors<F>(m: CameraModel<F>): seq<seq<F>>
  {
    match m
    case Cahv(c, a, h, v) => [c, a, h, v]
    case Cahvor(c, a, h, v, o, r) => [c, a, h, v, o, r]
    case Cahvore(c, a, h, v, o, r, e, _) => [c, a, h, v, o, r, e]
    case DefaultModel => []
  }

  /** What one segment contributes to the parts: a segment without '(' gives a one-number
      part when it is a valid number and nothing otherwise; a segment with '(' gives
      `str_to_vec(segment).unwrap()`, which panics when `str_to_vec` fails. */
  function SegmentPart<F>(n: string, nt: NumberText<F>): (r: Outcome<Option<seq<F>>>)
    ensures r.Returned? && r.value.Some? ==> |r.value.value| >= 1
    ensures '(' !in n ==> r.Returned? && (r.value.Some? <==> nt.parse(n).Some?)
    ensures '(' !in n && r.value.Some? ==> r.value.value == [nt.parse(n).value]
    ensures '(' in n ==> (r.Panicked? <==> !Strippable(n) || ParseTuple(n, nt).Err?)
    ensures '(' in n && r.Returned? ==> r.value == Some(ParseTuple(n, nt).value)
  {
    if '(' !in n then
      (match nt.parse(n)
       case Some(x) => Returned(Some([x]))
       case None => Returned(None))
    else if !Strippable(n) then Panicked
    else
      (match ParseTuple(n, nt)
       case Ok(v) => Returned(Some(v))
       case Err(_) => Panicked)
  }

  /** The parts the segments give, in order; a panic in any segment is a panic of the whole. */
  function Parts<F>(segments: seq<string>, nt: NumberText<F>): (r: Outcome<seq<seq<F>>>)
    ensures r.Returned? ==> |r.value| <= |segments|
    ensures r.Returned? ==> forall i :: 0 <= i < |r.value| ==> |r.value[i]| >= 1
    decreases |segments|
  {
    if segments == [] then Returned([])
    else
      match Parts(segments[..|segments| - 1], nt)
      case Panicked => Panicked
      case Returned(parts) =>
        match SegmentPart(segments[|segments| - 1], nt)
        case Panicked => Panicked
        case Returned(None) => Returned(parts)
        case Returned(Some(p)) => Returned(parts + [p])
  }

  /** A panic in the first `k` segments is a panic of all of them. */
  lemma {:induction false} PanicPersists<F>(segments: seq<string>, k: nat, nt: NumberText<F>)
    requires k <= |segments|
    requires Parts(segments[..k], nt).Panicked?
    ensures Parts(segments, nt).Panicked?
    decreases |segments| - k
  {
    if k < |segments| {
      var next := segments[..k + 1];
      assert next[..|next| - 1] == segments[..k];
      PanicPersists(segments, k + 1, nt);
    } else {
      assert segments[..k] == segments;
    }
  }

  /** The part-count dispatch of `deserialize`: 4 parts make a CAHV model, 6 a CAHVOR
      model, 9 a CAHVORE model whose linearity is the first number of part 7, and any
      other count the default model. */
  function ModelFromParts<F>(parts: seq<seq<F>>): (m: CameraModel<F>)
    requires forall i :: 0 <= i < |parts| ==> |parts[i]| >= 1
    ensures m.Cahv? <==> |parts| == 4
    ensures m.Cahvor? <==> |parts| == 6
    ensures m.Cahvore? <==> |parts| == 9
    ensures m.DefaultModel? <==> |parts| != 4 && |parts| != 6 && |parts| != 9
    ensures m.Cahv? || m.Cahvor? ==> Vectors(m) == parts
    ensures m.Cahvore? ==> Vectors(m) == parts[..7] && m.linearity == parts[7][0]
  {
    if |parts| == 4 then
      Cahv(parts[0], parts[1], parts[2], parts[3])
    else if |parts| == 6 then
      Cahvor(parts[0], parts[1], parts[2], parts[3], parts[4], parts[5])
    else if |parts| == 9 then
      Cahvore(parts[0], parts[1], parts[2], parts[3], parts[4], parts[5], parts[6], parts[7][0])
    else
      DefaultModel
  }

  /** The result of `cahvor_format::deserialize`: the default model for a value that is
      not a string, otherwise the model the parts of its ';'-segments select. */
  function DecodeModel<F>(j: JsonValue, nt: NumberText<F>): (r: Outcome<CameraModel<F>>)
    ensures !j.JsonString? ==> r == Returned(DefaultModel)
    ensures j.JsonString? ==> (r.Panicked? <==> Parts(Split(j.s, ';'), nt).Panicked?)
    ensures j.JsonString? && r.Returned? && !r.value.DefaultModel? ==> |Vectors(r.value)| <= |Split(j.s, ';')|
  {
    match j
    case JsonString(s) =>
      (match Parts(Split(s, ';'), nt)
       case Panicked => Panicked
       case Returned(parts) => Returned(ModelFromParts(parts)))
    case _ => Returned(DefaultModel)
  }

  /** The segment loop of `cahvor_format::deserialize`: splits on ';' and pushes the part
      each segment gives. */
  method CollectParts<F>(s: string, nt: NumberText<F>) returns (r: Outcome<seq<seq<F>>>)
    ensures r == Parts(Split(s, ';'), nt)
  {
    var split := Split(s, ';');
    var parts: seq<seq<F>> := [];
    for k := 0 to |split|
      invariant Parts(split[..k], nt) == Returned(parts)
    {
      var n := split[k];
      PartsStep(split, k, parts, nt);
      if '(' !in n {
        var parsed := nt.parse(n);
        if parsed.Some? {
          parts := parts + [[parsed.value]];
        }
      } else {
        if !Strippable(n) {
          PanicPersists(split, k + 1, nt);
          return Panicked;
        }
        var tupleVec := StrToVec(n, nt);
        if tupleVec.Err? {
          PanicPersists(split, k + 1, nt);
          return Panicked;
        }
        parts := parts + [tupleVec.value];
      }
    }
    assert split[..|split|] == split;
    r := Returned(parts);
  }

  /** src/jsonfetch.rs `cahvor_format::deserialize`. */
  method Deserialize<F>(j: JsonValue, nt: NumberText<F>) returns (r: Outcome<CameraModel<F>>)
    ensures r == DecodeModel(j, nt)
  {
    match j {
      case JsonString(s) =>
        var parts := CollectParts(s, nt);
        if parts.Panicked? {
          return Panicked;
        }
        r := Returned(ModelFromParts(parts.value));
      case _ =>
        r := Returned(DefaultModel);
    }
  }

  /** The tuple text of each vector. */
  function TupleTexts<F>(vs: seq<seq<F>>, nt: NumberText<F>): (r: seq<string>)
    ensures |r| == |vs|
    ensures forall i :: 0 <= i < |vs| ==> r[i] == TupleText(vs[i], nt)
  {
    seq(|vs|, i requires 0 <= i < |vs| => TupleText(vs[i], nt))
  }

  /** A character that is no piece's and not the separator is not in the join. */
  lemma {:induction false} JoinExcludes(parts: seq<string>, sep: char, c: char)
    requires c != sep
    requires forall i :: 0 <= i < |parts| ==> c !in parts[i]
    ensures c !in Join(parts, sep)
    decreases |parts|
  {
    if |parts| > 1 {
      JoinExcludes(parts[1..], sep, c);
    }
  }

  /** Tuple text holds no ';'. */
  lemma TupleTextHasNoSemicolon<F(!new)>(v: seq<F>, nt: NumberText<F>)
    requires FaithfulNumberText(nt)
    ensures ';' !in TupleText(v, nt)
  {
    JoinExcludes(Formatted(v, nt), ',', ';');
  }

  /** A non-empty sequence is its front followed by its last element. */
  lemma InitLast<T>(s: seq<T>)
    requires s != []
    ensures s[..|s| - 1] + [s[|s| - 1]] == s
  {
  }

  /** A segment that gives a part appends that part to the parts before it. */
  lemma PartsSnoc<F>(segments: seq<string>, parts: seq<seq<F>>, p: seq<F>, nt: NumberText<F>)
    requires segments != []
    requires Parts(segments[..|segments| - 1], nt) == Returned(parts)
    requires SegmentPart(segments[|segments| - 1], nt) == Returned(Some(p))
    ensures Parts(segments, nt) == Returned(parts + [p])
  {
  }

  /** One more segment: the parts of the first `k + 1` segments are those of the first `k`
      with the part of segment `k` appended, or a panic when that segment panics. */
  lemma PartsStep<F>(segments: seq<string>, k: nat, parts: seq<seq<F>>, nt: NumberText<F>)
    requires k < |segments| && Parts(segments[..k], nt) == Returned(parts)
    ensures SegmentPart(segments[k], nt).Panicked? ==> Parts(segments[..k + 1], nt).Panicked?
    ensures SegmentPart(segments[k], nt) == Returned(None) ==>
              Parts(segments[..k + 1], nt) == Returned(parts)
    ensures SegmentPart(segments[k], nt).Returned? && SegmentPart(segments[k], nt).value.Some? ==>
              Parts(segments[..k + 1], nt) == Returned(parts + [SegmentPart(segments[k], nt).value.value])
  {
    var next := segments[..k + 1];
    assert next[..k] == segments[..k] && next[k] == segments[k];
  }

  /** The tuple text of a non-empty vector is a segment that gives that vector as its part. */
  lemma SegmentPartOfTupleText<F(!new)>(v: seq<F>, nt: NumberText<F>)
    requires FaithfulNumberText(nt)
    requires v != []
    ensures SegmentPart(TupleText(v, nt), nt) == Returned(Some(v))
  {
    TupleRoundTrip(v, nt);
    assert TupleText(v, nt)[0] == '(';
  }

  /** Tuple texts that each read back as their own vector are read back, one part per
      text, as the list of those vectors. */
  lemma {:induction false} PartsOfTupleTexts<F>(vs: seq<seq<F>>, nt: NumberText<F>)
    requires forall i :: 0 <= i < |vs| ==> SegmentPart(TupleText(vs[i], nt), nt) == Returned(Some(vs[i]))
    ensures Parts(TupleTexts(vs, nt), nt) == Returned(vs)
    decreases |vs|
  {
    if vs != [] {
      var init := vs[..|vs| - 1];
      var last := vs[|vs| - 1];
      var texts := TupleTexts(vs, nt);
      assert texts[..|texts| - 1] == TupleTexts(init, nt);
      PartsOfTupleTexts(init, nt);
      PartsSnoc(texts, init, last, nt);
      InitLast(vs);
    }
  }

  /** Camera-model text made of tuples joined by ';' is read back as the model its tuple
      count selects, with the tuples as its parts. */
  lemma DecodeTupleTexts<F(!new)>(vs: seq<seq<F>>, nt: NumberText<F>)
    requires FaithfulNumberText(nt)
    requires forall i :: 0 <= i < |vs| ==> vs[i] != []
    ensures DecodeModel(JsonString(Join(TupleTexts(vs, nt), ';')), nt) == Returned(ModelFromParts(vs))
  {
    var texts := TupleTexts(vs, nt);
    if vs == [] {
      assert Split(Join(texts, ';'), ';') == [[]];
      assert Parts([[]], nt) == Returned([]);
    } else {
      forall i | 0 <= i < |texts| ensures ';' !in texts[i] {
        TupleTextHasNoSemicolon(vs[i], nt);
      }
      SplitJoin(texts, ';');
      forall i | 0 <= i < |vs| ensures SegmentPart(TupleText(vs[i], nt), nt) == Returned(Some(vs[i])) {
        SegmentPartOfTupleText(vs[i], nt);
      }
      PartsOfTupleTexts(vs, nt);
    }
  }
}
