/** Upserting a value into a JSON document at a dot-separated path. */
module JsonUpsert {
  import opened JsonDocument
  import opened Wrappers

  datatype Error = EmptyPath | NotAnObject

  type Path = seq<string>

  // ---------------------------------------------------------------------------------------------
  // Reading and writing a path
  // ---------------------------------------------------------------------------------------------

  function Get(doc: Json, path: Path): Option<Json> {
    if path == [] then Some(doc)
    else if doc.Object? && path[0] in doc.fields then Get(doc.fields[path[0]], path[1..])
    else None
  }

  /** The child at `key`, created as an empty object if it is missing. */
  function ChildOrNew(fields: map<string, Json>, key: string): Json {
    if key in fields then fields[key] else Object(map[])
  }

  function Put(doc: Json, path: Path, v: Json): Result<Json, Error>
    decreases |path|
  {
    if path == [] then Err(EmptyPath)
    else if !doc.Object? then Err(NotAnObject)
    else if |path| == 1 then Ok(Object(doc.fields[path[0] := v]))
    else
      match Put(ChildOrNew(doc.fields, path[0]), path[1..], v)
      case Err(e) => Err(e)
      case Ok(child) => Ok(Object(doc.fields[path[0] := child]))
  }

  // ---------------------------------------------------------------------------------------------
  // The walk that edits the document in place
  // ---------------------------------------------------------------------------------------------

  /** The objects above the current level, outermost first, each with the key that was followed. */
  datatype Step = Step(fields: map<string, Json>, key: string)

  /** The whole document when the current level holds `current`. */
  function Plug(above: seq<Step>, current: Json): Json {
    if above == [] then current
    else
      var last := above[|above| - 1];
      Plug(above[..|above| - 1], Object(last.fields[last.key := current]))
  }

  function PlugResult(above: seq<Step>, r: Result<Json, Error>): Result<Json, Error> {
    match r
    case Err(e) => Err(e)
    case Ok(current) => Ok(Plug(above, current))
  }

  lemma PlugSnoc(above: seq<Step>, step: Step, current: Json)
    ensures Plug(above + [step], current) == Plug(above, Object(step.fields[step.key := current]))
  {
    assert (above + [step])[..|above|] == above;
  }

  /** One level down: the key's child exists in `made`, which is the level with the child created if it
      was missing. */
  lemma Descend(above: seq<Step>, fields: map<string, Json>, key: string, rest: Path, v: Json)
    requires rest != []
    ensures var made := if key in fields then fields else fields[key := Object(map[])];
            && PlugResult(above, Put(Object(fields), [key] + rest, v))
               == PlugResult(above + [Step(made, key)], Put(made[key], rest, v))
            && Plug(above + [Step(made, key)], made[key]) == Plug(above, Object(made))
  {
    var made := if key in fields then fields else fields[key := Object(map[])];
    assert ([key] + rest)[1..] == rest;
    PlugSnoc(above, Step(made, key), made[key]);
    assert made[key := made[key]] == made;
    var child := Put(made[key], rest, v);
    if child.Ok? {
      PlugSnoc(above, Step(made, key), child.value);
      assert made[key := child.value] == fields[key := child.value];
    }
  }

  /** Returns the document as the call leaves it, also when the call fails. */
  method UpsertAt(data: Json, parts: Path, v: Json) returns (r: Option<Error>, after: Json)
    ensures match Put(data, parts, v)
            case Ok(doc) => r == None && after == doc
            case Err(e) => r == Some(e) && after == data
  {
    if parts == [] {
      return Some(EmptyPath), data;
    }
    var current, above := data, [];
    var n := |parts| - 1;
    ghost var created := false;
    assert parts[0..] == parts;
    for i := 0 to n
      invariant Put(data, parts, v) == PlugResult(above, Put(current, parts[i..], v))
      invariant if created then current == Object(map[]) else Plug(above, current) == data
    {
      if !current.Object? {
        return Some(NotAnObject), Plug(above, current);
      }
      var fields, segment := current.fields, parts[i];
      Descend(above, fields, segment, parts[i + 1..], v);
      assert parts[i..] == [segment] + parts[i + 1..];
      if segment !in fields {
        fields := fields[segment := Object(map[])];
        created := true;
      }
      above := above + [Step(fields, segment)];
      current := fields[segment];
    }
    if current.Object? {
      after := Plug(above, Object(current.fields[parts[n] := v]));
      assert parts[n..] == [parts[n]];
      return None, after;
    } else {
      return Some(NotAnObject), Plug(above, current);
    }
  }

  // ---------------------------------------------------------------------------------------------
  // Laws
  // ---------------------------------------------------------------------------------------------

  /** Reading the path afterwards gives the new value, and below the path the inside of it. */
  lemma {:induction false} PutGet(doc: Json, path: Path, v: Json, below: Path)
    requires Put(doc, path, v).Ok?
    ensures Get(Put(doc, path, v).value, path + below) == Get(v, below)
    decreases |path|
  {
    assert (path + below)[1..] == path[1..] + below;
    if |path| == 1 {
      assert path[1..] + below == below;
    } else {
      PutGet(ChildOrNew(doc.fields, path[0]), path[1..], v, below);
    }
  }

  predicate Prefix(p: Path, q: Path) {
    |p| <= |q| && p == q[..|p|]
  }

  lemma PrefixTail(p: Path, q: Path)
    requires p != [] && q != [] && p[0] == q[0]
    ensures Prefix(p, q) <==> Prefix(p[1..], q[1..])
  {
    if Prefix(p[1..], q[1..]) {
      assert p == [p[0]] + p[1..];
      assert q[..|p|] == [q[0]] + q[1..][..|p| - 1];
    }
    if Prefix(p, q) {
      assert p[1..] == q[1..][..|p| - 1];
    }
  }

  /** Every path that is neither above nor below the written one reads as before. */
  lemma {:induction false} PutFrame(doc: Json, path: Path, v: Json, other: Path)
    requires Put(doc, path, v).Ok? && !Prefix(path, other) && !Prefix(other, path)
    ensures Get(Put(doc, path, v).value, other) == Get(doc, other)
    decreases |path|
  {
    if path[0] == other[0] {
      PrefixTail(path, other);
      PrefixTail(other, path);
      PutFrame(ChildOrNew(doc.fields, path[0]), path[1..], v, other[1..]);
    }
  }

  /** Every path strictly above the written one is an object afterwards. */
  lemma {:induction false} ParentsAreObjects(doc: Json, path: Path, v: Json, k: nat)
    requires Put(doc, path, v).Ok? && k < |path|
    ensures var parent := Get(Put(doc, path, v).value, path[..k]); parent.Some? && parent.value.Object?
    decreases |path|
  {
    if k > 0 {
      ParentsAreObjects(ChildOrNew(doc.fields, path[0]), path[1..], v, k - 1);
      assert path[..k][1..] == path[1..][..k - 1];
    }
  }

  /** A second upsert at the same path overrides the first. */
  lemma {:induction false} PutPut(doc: Json, path: Path, v: Json, w: Json)
    requires Put(doc, path, v).Ok?
    ensures Put(Put(doc, path, v).value, path, w) == Put(doc, path, w)
    decreases |path|
  {
    if |path| == 1 {
      assert doc.fields[path[0] := v][path[0] := w] == doc.fields[path[0] := w];
    } else {
      var child := ChildOrNew(doc.fields, path[0]);
      PutPut(child, path[1..], v, w);
      var c := Put(child, path[1..], v).value;
      if Put(child, path[1..], w).Ok? {
        var d := Put(child, path[1..], w).value;
        assert doc.fields[path[0] := c][path[0] := d] == doc.fields[path[0] := d];
      }
    }
  }

  /** Writing what is already there changes nothing. */
  lemma {:induction false} GetPut(doc: Json, path: Path)
    requires path != [] && Get(doc, path).Some?
    ensures Put(doc, path, Get(doc, path).value) == Ok(doc)
    decreases |path|
  {
    var child := doc.fields[path[0]];
    assert doc.fields[path[0] := child] == doc.fields;
    if |path| > 1 {
      GetPut(child, path[1..]);
    }
  }

  /** Upserts at unrelated paths can be done in either order. */
  lemma {:induction false} PutsCommute(doc: Json, p: Path, v: Json, q: Path, w: Json)
    requires Put(doc, p, v).Ok? && Put(doc, q, w).Ok? && !Prefix(p, q) && !Prefix(q, p)
    ensures Put(Put(doc, p, v).value, q, w) == Put(Put(doc, q, w).value, p, v)
    ensures Put(Put(doc, p, v).value, q, w).Ok?
    decreases |p|
  {
    if p[0] == q[0] {
      PrefixTail(p, q);
      PrefixTail(q, p);
      PutsCommute(ChildOrNew(doc.fields, p[0]), p[1..], v, q[1..], w);
      PutsTogether(doc.fields, p, v, q, w);
    } else {
      PutsAside(doc, p, v, q, w);
    }
  }

  lemma PutsTogether(f: map<string, Json>, p: Path, v: Json, q: Path, w: Json)
    requires |p| > 1 && |q| > 1 && p[0] == q[0]
    requires var child := ChildOrNew(f, p[0]);
             && Put(child, p[1..], v).Ok? && Put(child, q[1..], w).Ok?
             && var z := Put(Put(child, p[1..], v).value, q[1..], w);
                z.Ok? && z == Put(Put(child, q[1..], w).value, p[1..], v)
    ensures Put(Object(f), p, v).Ok? && Put(Object(f), q, w).Ok?
    ensures var z := Put(Put(Object(f), p, v).value, q, w);
            z.Ok? && z == Put(Put(Object(f), q, w).value, p, v)
  {
    hide Put;
    var child := ChildOrNew(f, p[0]);
    var x, y := Put(child, p[1..], v).value, Put(child, q[1..], w).value;
    PutUnder(f, p, v);
    PutUnder(f, q, w);
    PutUnder(f[p[0] := x], q, w);
    PutUnder(f[q[0] := y], p, v);
    var z := Put(x, q[1..], w).value;
    assert f[p[0] := x][p[0] := z] == f[p[0] := y][p[0] := z];
  }

  lemma PutUnder(f: map<string, Json>, path: Path, v: Json)
    requires |path| > 1
    ensures var r := Put(ChildOrNew(f, path[0]), path[1..], v);
            Put(Object(f), path, v) == match r case Err(e) => Err(e) case Ok(c) => Ok(Object(f[path[0] := c]))
  {
  }

  /** What an upsert puts directly under the first key. */
  function Under(f: map<string, Json>, path: Path, v: Json): Result<Json, Error>
    requires path != []
  {
    if |path| == 1 then Ok(v) else Put(ChildOrNew(f, path[0]), path[1..], v)
  }

  lemma PutsAside(doc: Json, p: Path, v: Json, q: Path, w: Json)
    requires Put(doc, p, v).Ok? && Put(doc, q, w).Ok? && p[0] != q[0]
    ensures Put(Put(doc, p, v).value, q, w) == Put(Put(doc, q, w).value, p, v)
    ensures Put(Put(doc, p, v).value, q, w).Ok?
  {
    var f := doc.fields;
    var x, y := Under(f, p, v).value, Under(f, q, w).value;
    assert Put(doc, p, v).value.fields == f[p[0] := x] && Put(doc, q, w).value.fields == f[q[0] := y];
    assert ChildOrNew(f[p[0] := x], q[0]) == ChildOrNew(f, q[0]);
    assert ChildOrNew(f[q[0] := y], p[0]) == ChildOrNew(f, p[0]);
    assert f[p[0] := x][q[0] := y] == f[q[0] := y][p[0] := x];
  }

  /** An upsert succeeds exactly when the path is not empty and nothing strictly above its end is
      there without being an object. */
  lemma {:induction false} SucceedsIff(doc: Json, path: Path, v: Json)
    ensures Put(doc, path, v).Ok? <==>
              && path != []
              && forall k :: 0 <= k < |path| ==>
                   var above := Get(doc, path[..k]); above.Some? ==> above.value.Object?
    decreases |path|
  {
    if path != [] && doc.Object? && |path| > 1 {
      var child := ChildOrNew(doc.fields, path[0]);
      SucceedsIff(child, path[1..], v);
      forall k | 0 < k < |path|
        ensures Get(doc, path[..k]) == if path[0] in doc.fields then Get(child, path[1..][..k - 1]) else None
      {
        assert path[..k][1..] == path[1..][..k - 1];
      }
      if path[0] in doc.fields {
        assert forall k :: 0 <= k < |path| - 1 ==> Get(child, path[1..][..k]) == Get(doc, path[..k + 1]);
      } else {
        forall k | 0 <= k < |path| - 1
          ensures var above := Get(child, path[1..][..k]); above.Some? ==> above.value.Object?
        {
        }
      }
    } else if path != [] {
      assert path[..0] == [];
    }
  }

  // ---------------------------------------------------------------------------------------------
  // The path text
  // ---------------------------------------------------------------------------------------------

  /** The text after the root marker.  `$` is prepended to a key that lacks it, and `$.` stripped. */
  function StripRoot(key: string): string {
    var canonical := if key != "" && key[0] == '$' then key else "$" + key;
    if |canonical| >= 2 && canonical[..2] == "$." then canonical[2..] else key
  }

  function NonEmpty(s: string): Path {
    if s == "" then [] else [s]
  }

  /** Split at dots, without the empty pieces; `begun` is the piece being collected. */
  function Segments(s: string, begun: string): Path {
    if s == "" then NonEmpty(begun)
    else if s[0] == '.' then NonEmpty(begun) + Segments(s[1..], "")
    else Segments(s[1..], begun + [s[0]])
  }

  function Parts(key: string): Path {
    Segments(StripRoot(key), "")
  }

  predicate IsSegment(s: string) {
    s != "" && forall i :: 0 <= i < |s| ==> s[i] != '.'
  }

  function Join(path: Path): string {
    if path == [] then "" else if |path| == 1 then path[0] else path[0] + "." + Join(path[1..])
  }

  /** Every piece is a proper segment. */
  lemma {:induction false} SegmentsProper(s: string, begun: string)
    requires begun == "" || IsSegment(begun)
    ensures forall i :: 0 <= i < |Segments(s, begun)| ==> IsSegment(Segments(s, begun)[i])
  {
    if s != "" {
      SegmentsProper(s[1..], if s[0] == '.' then "" else begun + [s[0]]);
    }
  }

  lemma {:induction false} SegmentsSkip(seg: string, begun: string, rest: string)
    requires forall i :: 0 <= i < |seg| ==> seg[i] != '.'
    ensures Segments(seg + rest, begun) == Segments(rest, begun + seg)
  {
    if seg == "" {
      assert seg + rest == rest && begun + seg == begun;
    } else {
      SegmentsSkip(seg[1..], begun + [seg[0]], rest);
      assert (seg + rest)[1..] == seg[1..] + rest;
      assert begun + [seg[0]] + seg[1..] == begun + seg;
    }
  }

  /** Joining segments with dots and splitting again gives the segments. */
  lemma {:induction false} SegmentsOfJoin(path: Path)
    requires forall i :: 0 <= i < |path| ==> IsSegment(path[i])
    ensures Segments(Join(path), "") == path
  {
    if |path| == 1 {
      SegmentsSkip(path[0], "", "");
      assert path[0] + "" == path[0] && "" + path[0] == path[0];
    } else if |path| > 1 {
      var rest := "." + Join(path[1..]);
      SegmentsOfJoin(path[1..]);
      SegmentsSkip(path[0], "", rest);
      assert Join(path) == path[0] + rest;
      assert "" + path[0] == path[0];
      assert rest[1..] == Join(path[1..]);
      assert path == [path[0]] + path[1..];
    }
  }

  /** Every list of segments can be named: by joining it after `$.`. */
  lemma PathTextRoundTrip(path: Path)
    requires forall i :: 0 <= i < |path| ==> IsSegment(path[i])
    ensures Parts("$." + Join(path)) == path
  {
    SegmentsOfJoin(path);
    assert ("$." + Join(path))[..2] == "$.";
    assert ("$." + Join(path))[2..] == Join(path);
  }

  lemma {:induction false} NoSegments(s: string, begun: string)
    ensures Segments(s, begun) == [] <==> begun == "" && forall i :: 0 <= i < |s| ==> s[i] == '.'
  {
    if s != "" {
      NoSegments(s[1..], if s[0] == '.' then "" else begun + [s[0]]);
      assert forall i :: 0 < i < |s| ==> s[i] == s[1..][i - 1];
    }
  }

  /** A key is refused as empty if and only if, without its root marker, it has nothing but dots.  So
      the key `$` alone is not refused: it names a field called `$`. */
  lemma RefusedIffOnlyDots(key: string)
    ensures Parts(key) == [] <==> forall i :: 0 <= i < |StripRoot(key)| ==> StripRoot(key)[i] == '.'
    ensures Parts("$") == ["$"]
  {
    NoSegments(StripRoot(key), "");
    SegmentsSkip("$", "", "");
    assert "$" + "" == "$" && "" + "$" == "$";
  }

  /** `upsert_json_value`: split the key, then walk.  `parse` is the JSON reader for the value text. */
  method UpsertJsonValue(data: Json, value: string, key: string, parse: string -> Option<Json>)
    returns (r: Option<Error>, after: Json)
    ensures var v := match parse(value) case Some(j) => j case None => String(value);
            match Put(data, Parts(key), v)
            case Ok(doc) => r == None && after == doc
            case Err(e) => r == Some(e) && after == data
  {
    var v := match parse(value) case Some(j) => j case None => String(value);
    r, after := UpsertAt(data, Parts(key), v);
  }
}
