/** Parsing a JSON value as a Solidity type, and why the order of struct fields does not matter to it. */
module StructParsing {
  import opened JsonDocument
  import opened StructTypes
  import opened Wrappers

  datatype SolValue =
    | PrimValue(text: string)
    | ArrayValue(values: seq<SolValue>)
    | FixedArrayValue(values: seq<SolValue>)
    | TupleValue(values: seq<SolValue>)
    | StructValue(name: string, props: seq<string>, values: seq<SolValue>)

  /** What a value that is neither an array nor an object is handed to, whatever the type. */
  type ScalarParser = (Json, SolType) -> Option<SolValue>

  predicate IsScalar(v: Json) {
    !v.List? && !v.Object?
  }

  // ---------------------------------------------------------------------------------------------
  // Parsing
  // ---------------------------------------------------------------------------------------------

  /** Parsing succeeds. */
  predicate Parses(p: ScalarParser, v: Json, ty: SolType)
    decreases ty
  {
    match v
    case List(vs) =>
      (match ty
       case Tuple(types) => |vs| == |types| && forall i :: 0 <= i < |vs| ==> Parses(p, vs[i], types[i])
       case Array(inner) => forall i :: 0 <= i < |vs| ==> Parses(p, vs[i], inner)
       case FixedArray(inner, len) => |vs| == len && forall i :: 0 <= i < |vs| ==> Parses(p, vs[i], inner)
       case _ => false)
    case Object(fields) =>
      && ty.Struct?
      && forall i :: 0 <= i < Width(ty) ==> ty.props[i] in fields && Parses(p, fields[ty.props[i]], ty.types[i])
    case _ => p(v, ty).Some?
  }

  /** What it gives. */
  function Parsed(p: ScalarParser, v: Json, ty: SolType): SolValue
    requires Parses(p, v, ty)
    decreases ty
  {
    match v
    case List(vs) =>
      (match ty
       case Tuple(types) => TupleValue(seq(|vs|, i requires 0 <= i < |vs| => Parsed(p, vs[i], types[i])))
       case Array(inner) => ArrayValue(seq(|vs|, i requires 0 <= i < |vs| => Parsed(p, vs[i], inner)))
       case FixedArray(inner, _) => FixedArrayValue(seq(|vs|, i requires 0 <= i < |vs| => Parsed(p, vs[i], inner))))
    case Object(fields) =>
      StructValue(ty.name, ty.props,
                  seq(Width(ty), i requires 0 <= i < Width(ty) => Parsed(p, fields[ty.props[i]], ty.types[i])))
    case _ => p(v, ty).value
  }

  /** The parser in its own form: it collects values in vectors and may stop early. */
  method ParseJsonAs(p: ScalarParser, v: Json, ty: SolType) returns (r: Option<SolValue>)
    ensures r.Some? <==> Parses(p, v, ty)
    ensures r.Some? ==> r.value == Parsed(p, v, ty)
    decreases ty, 1
  {
    match v
    case List(vs) => r := ParseJsonArray(p, vs, ty);
    case Object(fields) => r := ParseJsonMap(p, fields, ty);
    case _ => return p(v, ty);
  }

  method ParseJsonArray(p: ScalarParser, vs: seq<Json>, ty: SolType) returns (r: Option<SolValue>)
    ensures r.Some? <==> Parses(p, List(vs), ty)
    ensures r.Some? ==> r.value == Parsed(p, List(vs), ty)
    decreases ty, 0
  {
    match ty
    case Tuple(types) =>
      if |vs| != |types| {
        return None;
      }
      var xs: seq<SolValue> := [];
      for i := 0 to |vs|
        invariant forall k :: 0 <= k < i ==> Parses(p, vs[k], types[k])
        invariant |xs| == i && forall k :: 0 <= k < i ==> xs[k] == Parsed(p, vs[k], types[k])
      {
        var x := ParseJsonAs(p, vs[i], types[i]);
        if x.None? {
          return None;
        }
        xs := xs + [x.value];
      }
      return Some(TupleValue(xs));
    case Array(inner) =>
      var xs := ParseElements(p, vs, inner);
      return if xs.Some? then Some(ArrayValue(xs.value)) else None;
    case FixedArray(inner, len) =>
      if |vs| != len {
        return None;
      }
      var xs := ParseElements(p, vs, inner);
      return if xs.Some? then Some(FixedArrayValue(xs.value)) else None;
    case _ => return None;
  }

  method ParseElements(p: ScalarParser, vs: seq<Json>, inner: SolType) returns (r: Option<seq<SolValue>>)
    ensures r.Some? <==> forall i :: 0 <= i < |vs| ==> Parses(p, vs[i], inner)
    ensures r.Some? ==> |r.value| == |vs|
    ensures r.Some? ==> forall i :: 0 <= i < |vs| ==> r.value[i] == Parsed(p, vs[i], inner)
    decreases inner, 2
  {
    var xs: seq<SolValue> := [];
    for i := 0 to |vs|
      invariant forall k :: 0 <= k < i ==> Parses(p, vs[k], inner)
      invariant |xs| == i && forall k :: 0 <= k < i ==> xs[k] == Parsed(p, vs[k], inner)
    {
      var x := ParseJsonAs(p, vs[i], inner);
      if x.None? {
        return None;
      }
      xs := xs + [x.value];
    }
    return Some(xs);
  }

  method ParseJsonMap(p: ScalarParser, fields: map<string, Json>, ty: SolType) returns (r: Option<SolValue>)
    ensures r.Some? <==> Parses(p, Object(fields), ty)
    ensures r.Some? ==> r.value == Parsed(p, Object(fields), ty)
    decreases ty, 0
  {
    if !ty.Struct? {
      return None;
    }
    var xs: seq<SolValue> := [];
    for i := 0 to Width(ty)
      invariant forall k :: 0 <= k < i ==> ty.props[k] in fields && Parses(p, fields[ty.props[k]], ty.types[k])
      invariant |xs| == i && forall k :: 0 <= k < i ==> xs[k] == Parsed(p, fields[ty.props[k]], ty.types[k])
    {
      if ty.props[i] !in fields {
        return None;
      }
      var x := ParseJsonAs(p, fields[ty.props[i]], ty.types[i]);
      if x.None? {
        return None;
      }
      xs := xs + [x.value];
    }
    return Some(StructValue(ty.name, ty.props, xs));
  }

  // ---------------------------------------------------------------------------------------------
  // Field order
  // ---------------------------------------------------------------------------------------------

  /** The document has the shape of the type, scalars apart. */
  predicate Fits(v: Json, ty: SolType)
    decreases ty
  {
    match v
    case List(vs) =>
      (match ty
       case Tuple(types) => |vs| == |types| && forall i :: 0 <= i < |vs| ==> Fits(vs[i], types[i])
       case Array(inner) => forall i :: 0 <= i < |vs| ==> Fits(vs[i], inner)
       case FixedArray(inner, len) => |vs| == len && forall i :: 0 <= i < |vs| ==> Fits(vs[i], inner)
       case _ => false)
    case Object(fields) =>
      && ty.Struct?
      && forall i :: 0 <= i < Width(ty) ==> ty.props[i] in fields && Fits(fields[ty.props[i]], ty.types[i])
    case _ => true
  }

  /** Wherever the document has a scalar, the two types are equal there. */
  predicate ScalarsAgree(v: Json, t: SolType, u: SolType)
    decreases t
  {
    match v
    case List(vs) =>
      (match t
       case Tuple(types) =>
         u.Tuple? ==>
           forall i :: 0 <= i < |vs| && i < |types| && i < |u.types| ==> ScalarsAgree(vs[i], types[i], u.types[i])
       case Array(inner) => u.Array? ==> forall i :: 0 <= i < |vs| ==> ScalarsAgree(vs[i], inner, u.inner)
       case FixedArray(inner, _) => u.FixedArray? ==> forall i :: 0 <= i < |vs| ==> ScalarsAgree(vs[i], inner, u.inner)
       case _ => true)
    case Object(fields) =>
      t.Struct? && u.Struct? ==>
        forall i :: 0 <= i < Width(t) && t.props[i] in fields ==>
          var j := FieldIndex(u, t.props[i]); j.Some? ==> ScalarsAgree(fields[t.props[i]], t.types[i], u.types[j.value])
    case _ => t == u
  }

  /** Equal up to the order of struct fields, at every depth. */
  predicate SameValue(x: SolValue, y: SolValue)
    decreases x
  {
    x == y ||
    match x
    case PrimValue(_) => false
    case ArrayValue(xs) => y.ArrayValue? && SameValues(xs, y.values)
    case FixedArrayValue(xs) => y.FixedArrayValue? && SameValues(xs, y.values)
    case TupleValue(xs) => y.TupleValue? && SameValues(xs, y.values)
    case StructValue(name, props, xs) =>
      && y.StructValue? && y.name == name && |props| == |y.props| && |xs| == |props| && |y.values| == |y.props|
      && forall i :: 0 <= i < |xs| ==>
           var j := Index(y.props, |y.props|, props[i]);
           j.Some? && SameValue(xs[i], y.values[j.value])
  }

  predicate SameValues(xs: seq<SolValue>, ys: seq<SolValue>)
    decreases xs
  {
    |xs| == |ys| && forall i :: 0 <= i < |xs| ==> SameValue(xs[i], ys[i])
  }

  predicate ParsesAlike(p: ScalarParser, v: Json, t: SolType, u: SolType) {
    && (Parses(p, v, t) <==> Parses(p, v, u))
    && (Parses(p, v, t) ==> SameValue(Parsed(p, v, t), Parsed(p, v, u)))
  }

  /** Whatever reads the scalars. */
  ghost predicate AlwaysParsesAlike(v: Json, t: SolType, u: SolType) {
    forall p: ScalarParser :: ParsesAlike(p, v, t, u)
  }

  /** Only documents of the type's shape parse. */
  lemma {:induction false} ParsesOnlyIfFits(p: ScalarParser, v: Json, ty: SolType)
    requires Parses(p, v, ty)
    ensures Fits(v, ty)
    decreases ty
  {
    match v
    case List(vs) =>
      forall i | 0 <= i < |vs| ensures Fits(vs[i], if ty.Tuple? then ty.types[i] else ty.inner) {
        ParsesOnlyIfFits(p, vs[i], if ty.Tuple? then ty.types[i] else ty.inner);
      }
    case Object(fields) =>
      forall i | 0 <= i < Width(ty) ensures Fits(fields[ty.props[i]], ty.types[i]) {
        ParsesOnlyIfFits(p, fields[ty.props[i]], ty.types[i]);
      }
    case _ =>
  }

  /** Two types that differ only in field order parse the same documents to the same values, up to
      field order, if they are equal at the scalars. */
  lemma {:induction false} SameTypesParseAlike(p: ScalarParser, v: Json, t: SolType, u: SolType)
    requires WellFormed(t) && WellFormed(u) && Same(t, u) && ScalarsAgree(v, t, u)
    ensures ParsesAlike(p, v, t, u)
    decreases t, 1
  {
    match v
    case List(vs) =>
      if t.Tuple? {
        forall i | 0 <= i < |vs| && i < |t.types| ensures ParsesAlike(p, vs[i], t.types[i], u.types[i]) {
          SameTypesParseAlike(p, vs[i], t.types[i], u.types[i]);
        }
      } else if t.Array? || t.FixedArray? {
        forall i | 0 <= i < |vs| ensures ParsesAlike(p, vs[i], t.inner, u.inner) {
          SameTypesParseAlike(p, vs[i], t.inner, u.inner);
        }
      }
    case Object(fields) =>
      if t.Struct? {
        forall i | 0 <= i < |t.props| && i < |t.types| && t.props[i] in fields
          ensures var j := FieldIndex(u, t.props[i]);
                  j.Some? && ParsesAlike(p, fields[t.props[i]], t.types[i], u.types[j.value])
        {
          SameTypesParseAlike(p, fields[t.props[i]], t.types[i], u.types[FieldIndex(u, t.props[i]).value]);
        }
        StructsParseAlike(p, fields, t, u);
      }
    case _ =>
  }

  /** The fields of `t` parse like the fields of that name of `u`. */
  predicate FieldsAlike(p: ScalarParser, fields: map<string, Json>, t: SolType, u: SolType)
    requires t.Struct? && u.Struct?
  {
    forall i :: 0 <= i < |t.props| && i < |t.types| && t.props[i] in fields ==>
      var j := FieldIndex(u, t.props[i]); j.Some? && ParsesAlike(p, fields[t.props[i]], t.types[i], u.types[j.value])
  }

  lemma SameNames(t: SolType, u: SolType)
    requires t.Struct? && WellFormed(t) && WellFormed(u) && Same(t, u)
    ensures SameFields(t.props, u.props)
  {
    forall i | 0 <= i < |t.props| ensures t.props[i] in u.props {
      assert FieldIndex(u, t.props[i]).Some?;
    }
    SameLengthSameFields(t.props, u.props);
  }

  /** The field of `t` that field `j` of `u` is. */
  lemma FieldOf(t: SolType, u: SolType, j: nat) returns (i: nat)
    requires t.Struct? && u.Struct? && WellFormed(u) && SameFields(t.props, u.props) && j < |u.props|
    ensures i < |t.props| && t.props[i] == u.props[j] && FieldIndex(u, t.props[i]) == Some(j)
  {
    assert u.props[j] in t.props;
    i :| i < |t.props| && t.props[i] == u.props[j];
    IndexOfOwn(u, j);
  }

  lemma SucceedsThere(p: ScalarParser, fields: map<string, Json>, t: SolType, u: SolType)
    requires t.Struct? && WellFormed(t) && WellFormed(u) && Same(t, u) && FieldsAlike(p, fields, t, u)
    requires SameFields(t.props, u.props) && Parses(p, Object(fields), t)
    ensures Parses(p, Object(fields), u)
  {
    assert |t.props| == |t.types| && |u.props| == |u.types|;
    forall j | 0 <= j < |u.props| ensures u.props[j] in fields && Parses(p, fields[u.props[j]], u.types[j]) {
      var i := FieldOf(t, u, j);
      assert ParsesAlike(p, fields[t.props[i]], t.types[i], u.types[j]);
    }
    hide Same, WellFormed, SameValue, Parsed, FieldsAlike, SameFields;
  }

  lemma SucceedsHere(p: ScalarParser, fields: map<string, Json>, t: SolType, u: SolType)
    requires t.Struct? && WellFormed(t) && WellFormed(u) && Same(t, u) && FieldsAlike(p, fields, t, u)
    requires SameFields(t.props, u.props) && Parses(p, Object(fields), u)
    ensures Parses(p, Object(fields), t)
  {
    assert |t.props| == |t.types| && |u.props| == |u.types|;
    hide Same, WellFormed, SameValue, Parsed;
    forall i | 0 <= i < |t.props| ensures t.props[i] in fields && Parses(p, fields[t.props[i]], t.types[i]) {
      assert t.props[i] in u.props;
    }
  }

  lemma StructsSucceedAlike(p: ScalarParser, fields: map<string, Json>, t: SolType, u: SolType)
    requires t.Struct? && WellFormed(t) && WellFormed(u) && Same(t, u) && FieldsAlike(p, fields, t, u)
    ensures Parses(p, Object(fields), t) <==> Parses(p, Object(fields), u)
  {
    SameNames(t, u);
    hide WellFormed, FieldsAlike, Parses, SameFields;
    if Parses(p, Object(fields), t) {
      SucceedsThere(p, fields, t, u);
    }
    if Parses(p, Object(fields), u) {
      SucceedsHere(p, fields, t, u);
    }
  }

  lemma StructsParseAlike(p: ScalarParser, fields: map<string, Json>, t: SolType, u: SolType)
    requires t.Struct? && WellFormed(t) && WellFormed(u) && Same(t, u) && FieldsAlike(p, fields, t, u)
    ensures ParsesAlike(p, Object(fields), t, u)
  {
    StructsSucceedAlike(p, fields, t, u);
    if Parses(p, Object(fields), t) {
      var x, y := Parsed(p, Object(fields), t), Parsed(p, Object(fields), u);
      forall i | 0 <= i < |t.props|
        ensures var j := Index(y.props, |y.props|, x.props[i]); j.Some? && SameValue(x.values[i], y.values[j.value])
      {
        assert FieldIndex(u, t.props[i]) == Index(y.props, |y.props|, x.props[i]);
      }
    }
  }

  // ---------------------------------------------------------------------------------------------
  // Where the order does matter
  // ---------------------------------------------------------------------------------------------

  /** Accepts every scalar at every type, and tells one type from all others. */
  function Marking(ty: SolType): ScalarParser {
    (_, other) => Some(PrimValue(if other == ty then "1" else "0"))
  }

  lemma {:induction false} MarkingParses(mark: SolType, v: Json, ty: SolType)
    requires Fits(v, ty)
    ensures Parses(Marking(mark), v, ty)
    decreases ty
  {
    match v
    case List(vs) =>
      forall i | 0 <= i < |vs| ensures Parses(Marking(mark), vs[i], if ty.Tuple? then ty.types[i] else ty.inner) {
        MarkingParses(mark, vs[i], if ty.Tuple? then ty.types[i] else ty.inner);
      }
    case Object(fields) =>
      forall i | 0 <= i < Width(ty) ensures Parses(Marking(mark), fields[ty.props[i]], ty.types[i]) {
        MarkingParses(mark, fields[ty.props[i]], ty.types[i]);
      }
    case _ =>
  }

  /** Marking `mark` reads a document of both shapes as different values. */
  predicate Separates(mark: SolType, v: Json, t: SolType, u: SolType) {
    && Parses(Marking(mark), v, t) && Parses(Marking(mark), v, u)
    && !SameValue(Parsed(Marking(mark), v, t), Parsed(Marking(mark), v, u))
  }

  /** Both types are fit for the question, and differ at a scalar. */
  predicate Differs(v: Json, t: SolType, u: SolType) {
    && WellFormed(t) && WellFormed(u) && Same(t, u)
    && Fits(v, t) && Fits(v, u) && !ScalarsAgree(v, t, u)
  }

  lemma DiffersInTuple(vs: seq<Json>, t: SolType, u: SolType) returns (i: nat)
    requires Differs(List(vs), t, u) && t.Tuple?
    ensures u.Tuple? && i < |vs| == |t.types| == |u.types| && Differs(vs[i], t.types[i], u.types[i])
  {
    i :| 0 <= i < |vs| && !ScalarsAgree(vs[i], t.types[i], u.types[i]);
  }

  lemma DiffersInArray(vs: seq<Json>, t: SolType, u: SolType) returns (i: nat)
    requires Differs(List(vs), t, u) && !t.Tuple?
    ensures (t.Array? && u.Array?) || (t.FixedArray? && u.FixedArray?)
    ensures i < |vs| && Differs(vs[i], t.inner, u.inner)
  {
    i :| 0 <= i < |vs| && !ScalarsAgree(vs[i], t.inner, u.inner);
  }

  lemma DiffersInStruct(fields: map<string, Json>, t: SolType, u: SolType) returns (i: nat)
    requires Differs(Object(fields), t, u)
    ensures t.Struct? && u.Struct? && i < |t.props| == |t.types| && t.props[i] in fields
    ensures FieldIndex(u, t.props[i]).Some?
    ensures Differs(fields[t.props[i]], t.types[i], u.types[FieldIndex(u, t.props[i]).value])
  {
    i :| 0 <= i < Width(t) && t.props[i] in fields && FieldIndex(u, t.props[i]).Some?
         && !ScalarsAgree(fields[t.props[i]], t.types[i], u.types[FieldIndex(u, t.props[i]).value]);
    var j := FieldIndex(u, t.props[i]).value;
    assert u.props[j] == t.props[i];
  }

  /** Where the types differ at a scalar, some parser reads the document differently. */
  lemma {:induction false} DifferenceShows(v: Json, t: SolType, u: SolType) returns (mark: SolType)
    requires WellFormed(t) && WellFormed(u) && Same(t, u)
    requires Fits(v, t) && Fits(v, u) && !ScalarsAgree(v, t, u)
    ensures Separates(mark, v, t, u)
    decreases t
  {
    assert Differs(v, t, u);
    assert IsScalar(v) ==> t != u;
    hide Separates, WellFormed, Same, Fits, ScalarsAgree;
    match v
    case List(vs) =>
      if t.Tuple? {
        var i := DiffersInTuple(vs, t, u);
        mark := DifferenceShows(vs[i], t.types[i], u.types[i]);
        TupleShows(mark, vs, t, u, i);
      } else {
        var i := DiffersInArray(vs, t, u);
        mark := DifferenceShows(vs[i], t.inner, u.inner);
        ArrayShows(mark, vs, t, u, i);
      }
    case Object(fields) =>
      var i := DiffersInStruct(fields, t, u);
      mark := DifferenceShows(fields[t.props[i]], t.types[i], u.types[FieldIndex(u, t.props[i]).value]);
      StructShows(mark, fields, t, u, i);
    case _ =>
      mark := t;
      ScalarShows(v, t, u);
  }

  lemma ScalarShows(v: Json, t: SolType, u: SolType)
    requires IsScalar(v) && t != u
    ensures Separates(t, v, t, u)
  {
  }

  lemma TupleShows(mark: SolType, vs: seq<Json>, t: SolType, u: SolType, i: nat)
    requires t.Tuple? && u.Tuple? && Fits(List(vs), t) && Fits(List(vs), u)
    requires i < |vs| && Separates(mark, vs[i], t.types[i], u.types[i])
    ensures Separates(mark, List(vs), t, u)
  {
    MarkingParses(mark, List(vs), t);
    MarkingParses(mark, List(vs), u);
    var x, y := Parsed(Marking(mark), List(vs), t), Parsed(Marking(mark), List(vs), u);
    assert !SameValue(x.values[i], y.values[i]);
  }

  lemma ArrayShows(mark: SolType, vs: seq<Json>, t: SolType, u: SolType, i: nat)
    requires (t.Array? && u.Array?) || (t.FixedArray? && u.FixedArray?)
    requires Fits(List(vs), t) && Fits(List(vs), u)
    requires i < |vs| && Separates(mark, vs[i], t.inner, u.inner)
    ensures Separates(mark, List(vs), t, u)
  {
    MarkingParses(mark, List(vs), t);
    MarkingParses(mark, List(vs), u);
    var x, y := Parsed(Marking(mark), List(vs), t), Parsed(Marking(mark), List(vs), u);
    assert !SameValue(x.values[i], y.values[i]);
  }

  lemma StructShows(mark: SolType, fields: map<string, Json>, t: SolType, u: SolType, i: nat)
    requires t.Struct? && u.Struct? && WellFormed(t) && WellFormed(u)
    requires Fits(Object(fields), t) && Fits(Object(fields), u)
    requires i < |t.props| && FieldIndex(u, t.props[i]).Some?
    requires Separates(mark, fields[t.props[i]], t.types[i], u.types[FieldIndex(u, t.props[i]).value])
    ensures Separates(mark, Object(fields), t, u)
  {
    MarkingParses(mark, Object(fields), t);
    MarkingParses(mark, Object(fields), u);
    var j := FieldIndex(u, t.props[i]).value;
    var x, y := Parsed(Marking(mark), Object(fields), t), Parsed(Marking(mark), Object(fields), u);
    assert Index(y.props, |y.props|, x.props[i]) == Some(j);
    assert !SameValue(x.values[i], y.values[j]);
    if x == y {
      IndexOfOwn(t, i);
    }
  }

  /** A document has the shape of both types or of neither. */
  lemma {:induction false} SameTypesFitAlike(v: Json, t: SolType, u: SolType)
    requires WellFormed(t) && WellFormed(u) && Same(t, u)
    ensures Fits(v, t) <==> Fits(v, u)
    decreases t
  {
    match v
    case List(vs) =>
      if t.Tuple? {
        forall i | 0 <= i < |vs| && i < |t.types| ensures Fits(vs[i], t.types[i]) <==> Fits(vs[i], u.types[i]) {
          SameTypesFitAlike(vs[i], t.types[i], u.types[i]);
        }
      } else if t.Array? || t.FixedArray? {
        forall i | 0 <= i < |vs| ensures Fits(vs[i], t.inner) <==> Fits(vs[i], u.inner) {
          SameTypesFitAlike(vs[i], t.inner, u.inner);
        }
      }
    case Object(fields) =>
      if t.Struct? {
        forall i | 0 <= i < |t.props| && i < |t.types| && t.props[i] in fields
          ensures var j := FieldIndex(u, t.props[i]);
                  j.Some? && (Fits(fields[t.props[i]], t.types[i]) <==> Fits(fields[t.props[i]], u.types[j.value]))
        {
          SameTypesFitAlike(fields[t.props[i]], t.types[i], u.types[FieldIndex(u, t.props[i]).value]);
        }
        StructsFitAlike(fields, t, u);
      }
    case _ =>
  }

  /** The fields of `t` fit exactly when the fields of that name of `u` do. */
  predicate FieldsFitAlike(fields: map<string, Json>, t: SolType, u: SolType)
    requires t.Struct? && u.Struct?
  {
    forall i :: 0 <= i < |t.props| && i < |t.types| && t.props[i] in fields ==>
      var j := FieldIndex(u, t.props[i]);
      j.Some? && (Fits(fields[t.props[i]], t.types[i]) <==> Fits(fields[t.props[i]], u.types[j.value]))
  }

  lemma FitsThere(fields: map<string, Json>, t: SolType, u: SolType)
    requires t.Struct? && u.Struct? && WellFormed(t) && WellFormed(u) && FieldsFitAlike(fields, t, u)
    requires SameFields(t.props, u.props) && Fits(Object(fields), t)
    ensures Fits(Object(fields), u)
  {
    assert |t.props| == |t.types| && |u.props| == |u.types|;
    forall j | 0 <= j < |u.props| ensures u.props[j] in fields && Fits(fields[u.props[j]], u.types[j]) {
      var i := FieldOf(t, u, j);
      assert Fits(fields[t.props[i]], t.types[i]);
    }
    hide WellFormed, FieldsFitAlike, SameFields;
  }

  lemma FitsHere(fields: map<string, Json>, t: SolType, u: SolType)
    requires t.Struct? && u.Struct? && WellFormed(t) && WellFormed(u) && FieldsFitAlike(fields, t, u)
    requires SameFields(t.props, u.props) && Fits(Object(fields), u)
    ensures Fits(Object(fields), t)
  {
    assert |t.props| == |t.types| && |u.props| == |u.types|;
    hide WellFormed;
    forall i | 0 <= i < |t.props| ensures t.props[i] in fields && Fits(fields[t.props[i]], t.types[i]) {
      assert t.props[i] in u.props;
    }
  }

  lemma StructsFitAlike(fields: map<string, Json>, t: SolType, u: SolType)
    requires t.Struct? && WellFormed(t) && WellFormed(u) && Same(t, u) && FieldsFitAlike(fields, t, u)
    ensures Fits(Object(fields), t) <==> Fits(Object(fields), u)
  {
    SameNames(t, u);
    hide WellFormed, FieldsFitAlike, Fits, SameFields;
    if Fits(Object(fields), t) {
      FitsThere(fields, t, u);
    }
    if Fits(Object(fields), u) {
      FitsHere(fields, t, u);
    }
  }

  /** Exactly when field order does not matter: two types that differ only in field order parse a
      document alike, whatever reads the scalars, if and only if the document has the wrong shape for
      both or the types are equal wherever it has a scalar. */
  lemma ParseAlikeIff(v: Json, t: SolType, u: SolType)
    requires WellFormed(t) && WellFormed(u) && Same(t, u)
    ensures AlwaysParsesAlike(v, t, u) <==> (Fits(v, t) ==> ScalarsAgree(v, t, u))
  {
    SameTypesFitAlike(v, t, u);
    if Fits(v, t) && !ScalarsAgree(v, t, u) {
      var mark := DifferenceShows(v, t, u);
      assert !ParsesAlike(Marking(mark), v, t, u);
    } else {
      forall p: ScalarParser ensures ParsesAlike(p, v, t, u) {
        AlikeAnyway(p, v, t, u);
      }
    }
  }

  lemma AlikeAnyway(p: ScalarParser, v: Json, t: SolType, u: SolType)
    requires WellFormed(t) && WellFormed(u) && Same(t, u) && (Fits(v, t) ==> ScalarsAgree(v, t, u))
    ensures ParsesAlike(p, v, t, u)
  {
    if Fits(v, t) {
      SameTypesParseAlike(p, v, t, u);
    } else {
      SameTypesFitAlike(v, t, u);
      if Parses(p, v, t) {
        ParsesOnlyIfFits(p, v, t);
      }
      if Parses(p, v, u) {
        ParsesOnlyIfFits(p, v, u);
      }
    }
  }

  /** Reordering by definitions with the same fields succeeds, and makes parsing succeed on the same
      documents with the same values up to field order, whatever reads the scalars, if and only if no
      scalar of a document of the type's shape stands where reordering changes the type. */
  lemma ReorderedParsesAlikeIff(v: Json, ty: SolType, defs: Defs)
    requires WellFormed(ty) && Matches(ty, defs)
    ensures Reorders(ty, defs)
    ensures AlwaysParsesAlike(v, ty, Reordered(ty, defs)) <==>
              (Fits(v, ty) ==> ScalarsAgree(v, ty, Reordered(ty, defs)))
  {
    ReorderKeeps(ty, defs);
    ParseAlikeIff(v, ty, Reordered(ty, defs));
  }

  lemma SameStruct(x: SolValue, y: SolValue)
    requires x.StructValue? && y.StructValue? && x.name == y.name
    requires |x.props| == |y.props| && |x.values| == |x.props| && |y.values| == |y.props|
    ensures SameValue(x, y) <==>
              x == y || forall i :: 0 <= i < |x.values| ==>
                          var j := Index(y.props, |y.props|, x.props[i]);
                          j.Some? && SameValue(x.values[i], y.values[j.value])
  {
  }

  lemma SameAsItself(x: SolValue)
    ensures SameValue(x, x)
  {
  }

  /** The same values under two orders of the same names. */
  lemma SameStructValues(name: string, ps: seq<string>, qs: seq<string>, xs: seq<SolValue>)
    requires |ps| == |qs| == |xs| && Distinct(qs)
    ensures SameValue(StructValue(name, ps, xs), StructValue(name, qs, xs)) <==>
              forall i :: 0 <= i < |xs| ==> var j := Index(qs, |qs|, ps[i]); j.Some? && SameValue(xs[i], xs[j.value])
  {
    hide SameValue;
    SameStruct(StructValue(name, ps, xs), StructValue(name, qs, xs));
    if ps == qs {
      forall i | 0 <= i < |xs| ensures Index(qs, |qs|, ps[i]) == Some(i) && SameValue(xs[i], xs[i]) {
        IndexOfDistinct(qs, i);
        SameAsItself(xs[i]);
      }
    }
  }

  lemma IndexOfDistinct(qs: seq<string>, i: nat)
    requires Distinct(qs) && i < |qs|
    ensures Index(qs, |qs|, qs[i]) == Some(i)
  {
  }

  /** For a scalar that is read as a struct by position, whatever the names of the fields: the two
      orders give the same value if and only if every field finds the same value at its place in both. */
  lemma ByPositionAlikeIff(p: ScalarParser, v: Json, t: SolType, u: SolType, xs: seq<SolValue>)
    requires t.Struct? && WellFormed(t) && WellFormed(u) && Same(t, u) && IsScalar(v) && |xs| == |t.props|
    requires p(v, t) == Some(StructValue(t.name, t.props, xs)) && p(v, u) == Some(StructValue(u.name, u.props, xs))
    ensures ParsesAlike(p, v, t, u) <==>
              forall i :: 0 <= i < |xs| ==>
                var j := Index(u.props, |u.props|, t.props[i]); j.Some? && SameValue(xs[i], xs[j.value])
  {
    hide SameValue;
    SameStructValues(t.name, t.props, u.props, xs);
    assert Parsed(p, v, t) == StructValue(t.name, t.props, xs);
    assert Parsed(p, v, u) == StructValue(t.name, u.props, xs);
  }

  const PAIR := Struct("S", ["a", "b"], [Prim("uint256"), Prim("uint256")])
  const SWAPPED := Struct("S", ["b", "a"], [Prim("uint256"), Prim("uint256")])

  lemma SwappedIsSame()
    ensures WellFormed(PAIR) && WellFormed(SWAPPED) && Same(PAIR, SWAPPED)
  {
    assert FieldIndex(SWAPPED, "a") == Some(1) && FieldIndex(SWAPPED, "b") == Some(0);
  }

  /** So a pair of different numbers in one string is read differently after its fields were swapped. */
  lemma ScalarAtStructDependsOnOrder(p: ScalarParser, x: SolValue, y: SolValue)
    requires x.PrimValue? && y.PrimValue? && x != y
    requires var v := String("(1,2)");
             && p(v, PAIR) == Some(StructValue("S", PAIR.props, [x, y]))
             && p(v, SWAPPED) == Some(StructValue("S", SWAPPED.props, [x, y]))
    ensures WellFormed(PAIR) && WellFormed(SWAPPED) && Same(PAIR, SWAPPED)
    ensures !ParsesAlike(p, String("(1,2)"), PAIR, SWAPPED)
  {
    SwappedIsSame();
    hide Same, WellFormed;
    ByPositionAlikeIff(p, String("(1,2)"), PAIR, SWAPPED, [x, y]);
    assert PAIR.props[0] == "a" && SWAPPED.props[1] == "a";
    IndexOfDistinct(SWAPPED.props, 1);
    assert !SameValue([x, y][0], [x, y][1]);
  }
}
