/** Solidity types with named struct fields: reordering fields to the order of the source definitions,
    and parsing JSON values as such types. */
module StructTypes {
  import opened Wrappers

  datatype SolType =
    | Prim(name: string)
    | Array(inner: SolType)
    | FixedArray(inner: SolType, len: nat)
    | Tuple(types: seq<SolType>)
    | Struct(name: string, props: seq<string>, types: seq<SolType>)

  /** A struct definition in the order of the source; `name` may be qualified by a contract. */
  datatype Def = Def(name: string, fields: seq<string>)

  type Defs = seq<Def>

  // ---------------------------------------------------------------------------------------------
  // Looking up a definition
  // ---------------------------------------------------------------------------------------------

  datatype Lookup = Unknown | Known(fields: seq<string>) | Ambiguous

  /** What follows the first dot. */
  function AfterDot(s: string): Option<string> {
    if s == "" then None else if s[0] == '.' then Some(s[1..]) else AfterDot(s[1..])
  }

  function Exact(defs: Defs, key: string): Lookup {
    if defs == [] then Unknown else if defs[0].name == key then Known(defs[0].fields) else Exact(defs[1..], key)
  }

  function Qualified(defs: Defs, key: string): seq<Def> {
    if defs == [] then []
    else if AfterDot(defs[0].name) == Some(key) then [defs[0]] + Qualified(defs[1..], key)
    else Qualified(defs[1..], key)
  }

  /** The definition of that name, or else the only one of that name in some contract. */
  function Find(defs: Defs, key: string): Lookup {
    if Exact(defs, key).Known? then Exact(defs, key)
    else
      var matches := Qualified(defs, key);
      if matches == [] then Unknown else if |matches| == 1 then Known(matches[0].fields) else Ambiguous
  }

  // ---------------------------------------------------------------------------------------------
  // Fields by name
  // ---------------------------------------------------------------------------------------------

  /** The last of the first `n` properties called `f`, as collecting pairs into a map keeps it. */
  function Index(props: seq<string>, n: nat, f: string): (r: Option<nat>)
    requires n <= |props|
    ensures r.Some? ==> r.value < n && props[r.value] == f
    ensures r.None? ==> forall i :: 0 <= i < n ==> props[i] != f
  {
    if n == 0 then None else if props[n - 1] == f then Some(n - 1) else Index(props, n - 1, f)
  }

  function Width(ty: SolType): nat
    requires ty.Struct?
  {
    if |ty.props| <= |ty.types| then |ty.props| else |ty.types|
  }

  function FieldIndex(ty: SolType, f: string): (r: Option<nat>)
    requires ty.Struct?
    ensures r.Some? ==> r.value < |ty.props| && r.value < |ty.types| && ty.props[r.value] == f
  {
    Index(ty.props, Width(ty), f)
  }

  predicate Distinct(s: seq<string>) {
    forall i, j :: 0 <= i < j < |s| ==> s[i] != s[j]
  }

  /** Every struct has one type per property and no property twice. */
  predicate WellFormed(ty: SolType) {
    match ty
    case Prim(_) => true
    case Array(inner) => WellFormed(inner)
    case FixedArray(inner, _) => WellFormed(inner)
    case Tuple(types) => forall i :: 0 <= i < |types| ==> WellFormed(types[i])
    case Struct(_, props, types) =>
      && |props| == |types| && Distinct(props)
      && forall i :: 0 <= i < |types| ==> WellFormed(types[i])
  }

  lemma IndexOfOwn(ty: SolType, i: nat)
    requires ty.Struct? && WellFormed(ty) && i < |ty.props|
    ensures FieldIndex(ty, ty.props[i]) == Some(i)
  {
  }

  // ---------------------------------------------------------------------------------------------
  // Reordering
  // ---------------------------------------------------------------------------------------------

  /** Reordering succeeds. */
  predicate Reorders(ty: SolType, defs: Defs)
    decreases ty
  {
    match ty
    case Prim(_) => true
    case Array(inner) => Reorders(inner, defs)
    case FixedArray(inner, _) => Reorders(inner, defs)
    case Tuple(types) => forall i :: 0 <= i < |types| ==> Reorders(types[i], defs)
    case Struct(name, _, types) =>
      match Find(defs, name)
      case Ambiguous => false
      case Unknown => forall i :: 0 <= i < |types| ==> Reorders(types[i], defs)
      case Known(fields) =>
        forall i :: 0 <= i < |fields| ==>
          var j := FieldIndex(ty, fields[i]);
          j.Some? && Reorders(types[j.value], defs)
  }

  /** What it gives. */
  function Reordered(ty: SolType, defs: Defs): SolType
    requires Reorders(ty, defs)
    decreases ty
  {
    match ty
    case Prim(_) => ty
    case Array(inner) => Array(Reordered(inner, defs))
    case FixedArray(inner, len) => FixedArray(Reordered(inner, defs), len)
    case Tuple(types) => Tuple(seq(|types|, i requires 0 <= i < |types| => Reordered(types[i], defs)))
    case Struct(name, props, types) =>
      match Find(defs, name)
      case Unknown => Struct(name, props, seq(|types|, i requires 0 <= i < |types| => Reordered(types[i], defs)))
      case Known(fields) =>
        Struct(name, fields, seq(|fields|, i requires 0 <= i < |fields| =>
          var j := FieldIndex(ty, fields[i]).value; assert Reorders(types[j], defs); Reordered(types[j], defs)))
  }

  /** The function in its own form: it builds the new vectors field by field and may stop early. */
  method ReorderType(ty: SolType, defs: Defs) returns (r: Option<SolType>)
    ensures r.Some? <==> Reorders(ty, defs)
    ensures r.Some? ==> r.value == Reordered(ty, defs)
    decreases ty
  {
    match ty
    case Prim(_) => return Some(ty);
    case Array(inner) =>
      var x := ReorderType(inner, defs);
      return if x.Some? then Some(Array(x.value)) else None;
    case FixedArray(inner, len) =>
      var x := ReorderType(inner, defs);
      return if x.Some? then Some(FixedArray(x.value, len)) else None;
    case Tuple(types) =>
      var xs := ReorderAll(types, defs);
      return if xs.Some? then Some(Tuple(xs.value)) else None;
    case Struct(name, props, types) =>
      match Find(defs, name)
      case Ambiguous => return None;
      case Unknown =>
        var xs := ReorderAll(types, defs);
        return if xs.Some? then Some(Struct(name, props, xs.value)) else None;
      case Known(fields) =>
        var xs: seq<SolType> := [];
        for i := 0 to |fields|
          invariant forall k :: 0 <= k < i ==> FieldIndex(ty, fields[k]).Some?
          invariant forall k :: 0 <= k < i ==> Reorders(types[FieldIndex(ty, fields[k]).value], defs)
          invariant |xs| == i
          invariant forall k :: 0 <= k < i ==> xs[k] == Reordered(types[FieldIndex(ty, fields[k]).value], defs)
        {
          var j := FieldIndex(ty, fields[i]);
          if j.None? {
            return None;
          }
          var x := ReorderType(types[j.value], defs);
          if x.None? {
            return None;
          }
          xs := xs + [x.value];
        }
        return Some(Struct(name, fields, xs));
  }

  method ReorderAll(types: seq<SolType>, defs: Defs) returns (r: Option<seq<SolType>>)
    ensures r.Some? <==> forall i :: 0 <= i < |types| ==> Reorders(types[i], defs)
    ensures r.Some? ==> |r.value| == |types|
    ensures r.Some? ==> forall i :: 0 <= i < |types| ==> r.value[i] == Reordered(types[i], defs)
    decreases types
  {
    var xs: seq<SolType> := [];
    for i := 0 to |types|
      invariant forall k :: 0 <= k < i ==> Reorders(types[k], defs)
      invariant |xs| == i && forall k :: 0 <= k < i ==> xs[k] == Reordered(types[k], defs)
    {
      var x := ReorderType(types[i], defs);
      if x.None? {
        return None;
      }
      xs := xs + [x.value];
    }
    return Some(xs);
  }

  /** Reordering twice is reordering once, whatever the definitions. */
  lemma {:induction false} ReorderIdempotent(ty: SolType, defs: Defs)
    requires Reorders(ty, defs)
    ensures Reorders(Reordered(ty, defs), defs)
    ensures Reordered(Reordered(ty, defs), defs) == Reordered(ty, defs)
    decreases ty
  {
    var u := Reordered(ty, defs);
    match ty
    case Prim(_) =>
    case Array(inner) => ReorderIdempotent(inner, defs);
    case FixedArray(inner, _) => ReorderIdempotent(inner, defs);
    case Tuple(types) =>
      forall i | 0 <= i < |types| ensures Reorders(u.types[i], defs) && Reordered(u.types[i], defs) == u.types[i] {
        ReorderIdempotent(types[i], defs);
      }
      assert Reordered(u, defs).types == u.types;
    case Struct(name, props, types) =>
      match Find(defs, name)
      case Unknown =>
        forall i | 0 <= i < |types| ensures Reorders(u.types[i], defs) && Reordered(u.types[i], defs) == u.types[i] {
          ReorderIdempotent(types[i], defs);
        }
        assert Reordered(u, defs).types == u.types;
      case Known(fields) => ReorderKnownIdempotent(ty, defs, fields);
  }

  lemma {:induction false} ReorderKnownIdempotent(ty: SolType, defs: Defs, fields: seq<string>)
    requires ty.Struct? && Reorders(ty, defs) && Find(defs, ty.name) == Known(fields)
    ensures Reorders(Reordered(ty, defs), defs)
    ensures Reordered(Reordered(ty, defs), defs) == Reordered(ty, defs)
    decreases ty, 0
  {
    var u := Reordered(ty, defs);
    forall i | 0 <= i < |fields|
      ensures var j := FieldIndex(u, fields[i]);
              && j.Some? && u.types[j.value] == u.types[i]
              && Reorders(u.types[i], defs) && Reordered(u.types[i], defs) == u.types[i]
    {
      var k := FieldIndex(ty, fields[i]).value;
      ReorderIdempotent(ty.types[k], defs);
      assert u.types[i] == Reordered(ty.types[k], defs);
    }
    assert Reordered(u, defs).types == u.types;
  }

  // ---------------------------------------------------------------------------------------------
  // What reordering keeps
  // ---------------------------------------------------------------------------------------------

  /** Equal up to the order of struct fields, at every depth. */
  predicate Same(t: SolType, u: SolType)
    decreases t
  {
    match t
    case Prim(_) => u == t
    case Array(inner) => u.Array? && Same(inner, u.inner)
    case FixedArray(inner, len) => u.FixedArray? && u.len == len && Same(inner, u.inner)
    case Tuple(types) =>
      u.Tuple? && |u.types| == |types| && forall i :: 0 <= i < |types| ==> Same(types[i], u.types[i])
    case Struct(name, props, types) =>
      && u.Struct? && u.name == name && |u.props| == |props| && |u.types| == |types|
      && forall i :: 0 <= i < |types| && i < |props| ==>
           var j := FieldIndex(u, props[i]);
           j.Some? && Same(types[i], u.types[j.value])
  }

  predicate SameFields(a: seq<string>, b: seq<string>) {
    && Distinct(b)
    && (forall i :: 0 <= i < |a| ==> a[i] in b)
    && (forall i :: 0 <= i < |b| ==> b[i] in a)
  }

  /** Every struct has no definition, or one with the same fields. */
  predicate Matches(ty: SolType, defs: Defs)
    decreases ty
  {
    match ty
    case Prim(_) => true
    case Array(inner) => Matches(inner, defs)
    case FixedArray(inner, _) => Matches(inner, defs)
    case Tuple(types) => forall i :: 0 <= i < |types| ==> Matches(types[i], defs)
    case Struct(name, props, types) =>
      && (match Find(defs, name)
          case Ambiguous => false
          case Unknown => true
          case Known(fields) => SameFields(props, fields))
      && forall i :: 0 <= i < |types| ==> Matches(types[i], defs)
  }

  function Elements(s: seq<string>): set<string> {
    set i | 0 <= i < |s| :: s[i]
  }

  lemma {:induction false} ElementsCount(s: seq<string>)
    ensures |Elements(s)| <= |s|
    ensures Distinct(s) <==> |Elements(s)| == |s|
  {
    if s != [] {
      ElementsCount(s[..|s| - 1]);
      ElementsSnoc(s);
    }
  }

  lemma ElementsSnoc(s: seq<string>)
    requires s != []
    ensures var n := |s| - 1;
            && Elements(s) == Elements(s[..n]) + {s[n]}
            && (Distinct(s) <==> Distinct(s[..n]) && s[n] !in Elements(s[..n]))
  {
    var n := |s| - 1;
    assert forall i :: 0 <= i < n ==> s[..n][i] == s[i];
    assert Elements(s) <= Elements(s[..n]) + {s[n]};
    assert Elements(s[..n]) <= Elements(s) && s[n] in Elements(s);
  }

  lemma SameFieldsLength(a: seq<string>, b: seq<string>)
    requires Distinct(a) && SameFields(a, b)
    ensures |a| == |b|
  {
    ElementsCount(a);
    ElementsCount(b);
    assert Elements(a) == Elements(b);
  }

  /** A list of the same length that names every field of a distinct list names each exactly once. */
  lemma SameLengthSameFields(a: seq<string>, b: seq<string>)
    requires Distinct(a) && |a| == |b| && forall i :: 0 <= i < |a| ==> a[i] in b
    ensures SameFields(a, b)
  {
    ElementsCount(a);
    ElementsCount(b);
    assert Elements(a) <= Elements(b);
    SubsetCount(Elements(a), Elements(b));
    forall i | 0 <= i < |b| ensures b[i] in a {
      assert b[i] in Elements(b);
    }
  }

  lemma SubsetCount<T>(a: set<T>, b: set<T>)
    requires a <= b
    ensures |a| <= |b|
    ensures |a| == |b| ==> a == b
  {
    assert b == a + (b - a);
    assert |b| == |a| + |b - a|;
  }

  /** With matching definitions reordering succeeds, and its result is the same type up to field order
      at every depth. */
  lemma {:induction false} ReorderKeeps(ty: SolType, defs: Defs)
    requires WellFormed(ty) && Matches(ty, defs)
    ensures Reorders(ty, defs)
    ensures Same(ty, Reordered(ty, defs)) && WellFormed(Reordered(ty, defs))
    decreases ty, 1
  {
    match ty
    case Prim(_) =>
    case Array(inner) => ReorderKeeps(inner, defs);
    case FixedArray(inner, _) => ReorderKeeps(inner, defs);
    case Tuple(types) =>
      forall i | 0 <= i < |types|
        ensures Reorders(types[i], defs)
        ensures Same(types[i], Reordered(types[i], defs)) && WellFormed(Reordered(types[i], defs))
      {
        ReorderKeeps(types[i], defs);
      }
    case Struct(_, _, types) =>
      forall i | 0 <= i < |types|
        ensures Reorders(types[i], defs)
        ensures Same(types[i], Reordered(types[i], defs)) && WellFormed(Reordered(types[i], defs))
      {
        ReorderKeeps(types[i], defs);
      }
      if Find(defs, ty.name).Known? {
        ReorderKeepsKnown(ty, defs, Find(defs, ty.name).fields);
      } else {
        ReorderKeepsUnknown(ty, defs);
      }
  }

  /** Reordering each of the types succeeds and changes only field order. */
  predicate AllKept(types: seq<SolType>, defs: Defs) {
    forall i :: 0 <= i < |types| ==>
      && Reorders(types[i], defs)
      && Same(types[i], Reordered(types[i], defs)) && WellFormed(Reordered(types[i], defs))
  }

  lemma ReorderKeepsUnknown(ty: SolType, defs: Defs)
    requires ty.Struct? && WellFormed(ty) && Find(defs, ty.name).Unknown? && AllKept(ty.types, defs)
    ensures Reorders(ty, defs) && Same(ty, Reordered(ty, defs)) && WellFormed(Reordered(ty, defs))
  {
    var u := Reordered(ty, defs);
    forall i | 0 <= i < |ty.props|
      ensures var j := FieldIndex(u, ty.props[i]); j.Some? && Same(ty.types[i], u.types[j.value])
    {
      IndexOfOwn(ty, i);
    }
  }

  /** Field `k` of the reordered struct is the reordered field of that name. */
  lemma KnownField(ty: SolType, defs: Defs, fields: seq<string>, k: nat)
    requires ty.Struct? && Reorders(ty, defs) && Find(defs, ty.name) == Known(fields) && k < |fields|
    requires AllKept(ty.types, defs)
    ensures var u, j := Reordered(ty, defs), FieldIndex(ty, fields[k]);
            && u.Struct? && u.name == ty.name && u.props == fields && |u.types| == |fields|
            && j.Some? && Reorders(ty.types[j.value], defs) && u.types[k] == Reordered(ty.types[j.value], defs)
            && Same(ty.types[j.value], u.types[k]) && WellFormed(u.types[k])
  {
    hide Find;
  }

  lemma ReorderKeepsKnown(ty: SolType, defs: Defs, fields: seq<string>)
    requires ty.Struct? && WellFormed(ty) && Find(defs, ty.name) == Known(fields) && SameFields(ty.props, fields)
    requires AllKept(ty.types, defs)
    ensures Reorders(ty, defs) && Same(ty, Reordered(ty, defs)) && WellFormed(Reordered(ty, defs))
  {
    hide Find;
    SameFieldsLength(ty.props, fields);
    assert Reorders(ty, defs);
    var u := Reordered(ty, defs);
    forall k | 0 <= k < |fields| ensures WellFormed(u.types[k]) {
      KnownField(ty, defs, fields, k);
    }
    forall i | 0 <= i < |ty.props|
      ensures var j := FieldIndex(u, ty.props[i]); j.Some? && Same(ty.types[i], u.types[j.value])
    {
      IndexOfOwn(ty, i);
      KnownField(ty, defs, fields, FieldIndex(u, ty.props[i]).value);
    }
  }

  /** And only with matching definitions: a definition with other fields loses or repeats some. */
  lemma {:induction false} SameOnlyIfMatches(ty: SolType, defs: Defs)
    requires WellFormed(ty) && Reorders(ty, defs) && Same(ty, Reordered(ty, defs))
    ensures Matches(ty, defs)
    decreases ty, 1
  {
    match ty
    case Prim(_) =>
    case Array(inner) => SameOnlyIfMatches(inner, defs);
    case FixedArray(inner, _) => SameOnlyIfMatches(inner, defs);
    case Tuple(types) =>
      forall i | 0 <= i < |types| ensures Matches(types[i], defs) {
        SameOnlyIfMatches(types[i], defs);
      }
    case Struct(_, _, types) =>
      if Find(defs, ty.name).Known? {
        var fields := Find(defs, ty.name).fields;
        SameKnownFields(ty, defs, fields);
        forall i | 0 <= i < |types| ensures Matches(types[i], defs) {
          SameKnownField(ty, defs, fields, i);
          SameOnlyIfMatches(types[i], defs);
        }
      } else {
        var u := Reordered(ty, defs);
        forall i | 0 <= i < |types| ensures Matches(types[i], defs) {
          assert FieldIndex(u, ty.props[i]) == Some(i);
          SameOnlyIfMatches(types[i], defs);
        }
      }
  }

  lemma SameKnownFields(ty: SolType, defs: Defs, fields: seq<string>)
    requires ty.Struct? && WellFormed(ty) && Reorders(ty, defs) && Same(ty, Reordered(ty, defs))
    requires Find(defs, ty.name) == Known(fields)
    ensures SameFields(ty.props, fields)
  {
    var u := Reordered(ty, defs);
    forall i | 0 <= i < |ty.props| ensures ty.props[i] in fields {
      assert FieldIndex(u, ty.props[i]).Some?;
    }
    SameLengthSameFields(ty.props, fields);
  }

  lemma SameKnownField(ty: SolType, defs: Defs, fields: seq<string>, i: nat)
    requires ty.Struct? && WellFormed(ty) && Reorders(ty, defs) && Same(ty, Reordered(ty, defs))
    requires Find(defs, ty.name) == Known(fields) && i < |ty.types|
    ensures Reorders(ty.types[i], defs) && Same(ty.types[i], Reordered(ty.types[i], defs))
  {
    var u := Reordered(ty, defs);
    var j := FieldIndex(u, ty.props[i]);
    assert j.Some? && Same(ty.types[i], u.types[j.value]);
    assert FieldIndex(ty, fields[j.value]) == Some(i) by { IndexOfOwn(ty, i); }
  }

  /** Reordering that succeeds gives the same type up to field order if and only if the definitions
      have the same fields, at every depth. */
  lemma ReorderSameIff(ty: SolType, defs: Defs)
    requires WellFormed(ty) && Reorders(ty, defs)
    ensures Same(ty, Reordered(ty, defs)) <==> Matches(ty, defs)
  {
    if Matches(ty, defs) {
      ReorderKeeps(ty, defs);
    }
    if Same(ty, Reordered(ty, defs)) {
      SameOnlyIfMatches(ty, defs);
    }
  }
}
