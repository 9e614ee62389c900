/** Records and dot paths on their JSON payloads (sohara-core/src/record.rs). */
module Payload {
  import opened Json

  /** A record in flight; its id and timestamp play no part in the flow. */
  datatype Record = Record(payload: Value, metadata: map<string, string>)

  /** The segments of a dot path; there is always at least one. */
  function Segments(path: string): (parts: seq<string>)
    ensures parts != []
  {
    if path == [] then [[]]
    else
      var rest := Segments(path[1..]);
      if path[0] == '.' then [[]] + rest else [[path[0]] + rest[0]] + rest[1..]
  }

  /** Parts with dots between them. */
  function WithDots(parts: seq<string>): string {
    if parts == [] then [] else if |parts| == 1 then parts[0] else parts[0] + "." + WithDots(parts[1..])
  }

  /** The segments are the parts between the dots: put together with dots they give the path back. */
  lemma {:induction false} SegmentsAreParts(path: string)
    ensures WithDots(Segments(path)) == path
    ensures forall i :: 0 <= i < |Segments(path)| ==> '.' !in Segments(path)[i]
  {
    if path != [] {
      SegmentsAreParts(path[1..]);
      var rest := Segments(path[1..]);
      assert path == [path[0]] + path[1..];
      if path[0] == '.' {
        assert ([[]] + rest)[1..] == rest;
        assert WithDots([[]] + rest) == [] + "." + WithDots(rest);
      } else {
        var longer := [[path[0]] + rest[0]] + rest[1..];
        assert longer[1..] == rest[1..];
        assert |rest| > 1 ==>
               WithDots(longer) == ([path[0]] + rest[0]) + "." + WithDots(rest[1..]) == [path[0]] + WithDots(rest);
      }
    }
  }

  /** And there is no other way to cut a path into parts without dots. */
  lemma {:induction false} SegmentsOfParts(parts: seq<string>)
    requires parts != [] && forall i :: 0 <= i < |parts| ==> '.' !in parts[i]
    ensures Segments(WithDots(parts)) == parts
    decreases |parts|, |parts[0]|
  {
    var path := WithDots(parts);
    if parts[0] != [] {
      var shorter := [parts[0][1..]] + parts[1..];
      SegmentsOfParts(shorter);
      assert path[0] == parts[0][0] && path[1..] == WithDots(shorter);
      assert [path[0]] + shorter[0] == parts[0] && shorter[1..] == parts[1..];
      assert [parts[0]] + parts[1..] == parts;
    } else if |parts| > 1 {
      SegmentsOfParts(parts[1..]);
      assert path[0] == '.' && path[1..] == WithDots(parts[1..]);
      assert [[]] + parts[1..] == parts;
    } else {
      assert parts == [[]];
    }
  }

  /** The value at a path, if every step on the way is an object with that field. */
  function Get(v: Value, parts: seq<string>): Option<Value> {
    if parts == [] then Some(v)
    else if v.Obj? && parts[0] in v.fields then Get(v.fields[parts[0]], parts[1..])
    else None
  }

  function ChildOf(v: Value, key: string): Value
    requires v.Obj?
  {
    if key in v.fields then v.fields[key] else Obj(map[])
  }

  /** Set below `v`, creating objects on the way; a non-object on the way stops it. */
  function SetBelow(v: Value, parts: seq<string>, x: Value): Value
    requires parts != []
    decreases |parts|
  {
    if !v.Obj? then v
    else if |parts| == 1 then Obj(v.fields[parts[0] := x])
    else Obj(v.fields[parts[0] := SetBelow(ChildOf(v, parts[0]), parts[1..], x)])
  }

  function AsObject(v: Value): Value { if v.Obj? then v else Obj(map[]) }

  /** Set at a path of a payload; a payload that is not an object is replaced by one. */
  function Set(v: Value, parts: seq<string>, x: Value): Value
    requires parts != []
  {
    SetBelow(AsObject(v), parts, x)
  }

  // ---------- the loops ----------

  /** The path lookup, also used by expressions (sohara-core/src/expr/eval.rs). */
  method Lookup(root: Value, parts: seq<string>) returns (r: Option<Value>)
    ensures r == Get(root, parts)
  {
    var current := root;
    assert parts[0..] == parts;
    for i := 0 to |parts|
      invariant Get(root, parts) == Get(current, parts[i..])
    {
      assert parts[i..][1..] == parts[i + 1..];
      if !current.Obj? || parts[i] !in current.fields { return None; }
      current := current.fields[parts[i]];
    }
    assert parts[|parts|..] == [];
    return Some(current);
  }

  /** Put `v` back into the objects it was reached through. */
  function Rebuild(trail: seq<map<string, Value>>, keys: seq<string>, v: Value): Value
    requires |trail| == |keys|
  {
    if keys == [] then v
    else
      var k := |keys| - 1;
      Rebuild(trail[..k], keys[..k], Obj(trail[k][keys[k] := v]))
  }

  /**
   * The insertion loop: walk down, creating objects, and insert at the end. A
   * non-object on the way ends it early with nothing changed.
   */
  method Insert(root0: Value, parts: seq<string>, x: Value) returns (r: Value)
    requires parts != []
    ensures r == Set(root0, parts, x)
  {
    var root := if root0.Obj? then root0 else Obj(map[]);
    var current := root;
    var trail: seq<map<string, Value>> := [];
    ghost var created := false;
    var last := |parts| - 1;
    assert parts[0..] == parts;
    for i := 0 to last
      invariant |trail| == i
      invariant SetBelow(root, parts, x) == Rebuild(trail, parts[..i], SetBelow(current, parts[i..], x))
      invariant if created then current == Obj(map[]) else Rebuild(trail, parts[..i], current) == root
    {
      if !current.Obj? { return root; }
      assert parts[i..][1..] == parts[i + 1..];
      assert parts[..i + 1][..i] == parts[..i] && (trail + [current.fields])[..i] == trail;
      trail := trail + [current.fields];
      if parts[i] in current.fields {
        assert current == Obj(current.fields[parts[i] := current.fields[parts[i]]]);
        current := current.fields[parts[i]];
      } else {
        created := true;
        current := Obj(map[]);
      }
    }
    assert parts[last..] == [parts[last]];
    if !current.Obj? { return root; }
    r := Obj(current.fields[parts[last] := x]);
    var i := last;
    while i > 0
      invariant 0 <= i <= last && |trail| == i
      invariant SetBelow(root, parts, x) == Rebuild(trail, parts[..i], r)
    {
      i := i - 1;
      assert parts[..i + 1][..i] == parts[..i];
      r := Obj(trail[i][parts[i] := r]);
      trail := trail[..i];
    }
  }

  // ---------- laws ----------

  /** One path is a prefix of the other. */
  predicate Overlap(p: seq<string>, q: seq<string>) { p <= q || q <= p }

  /** A field on the way to the end of the path holds something other than an object. */
  predicate Blocked(v: Value, parts: seq<string>) {
    v.Obj? && |parts| > 1 && parts[0] in v.fields
    && (!v.fields[parts[0]].Obj? || Blocked(v.fields[parts[0]], parts[1..]))
  }

  lemma {:induction false} SetBelowThenGet(v: Value, p: seq<string>, x: Value)
    requires p != [] && v.Obj?
    ensures if Blocked(v, p) then SetBelow(v, p, x) == v else Get(SetBelow(v, p, x), p) == Some(x)
    decreases |p|
  {
    if |p| > 1 {
      var child := ChildOf(v, p[0]);
      if child.Obj? { SetBelowThenGet(child, p[1..], x); }
      if p[0] in v.fields {
        assert v.fields[p[0] := v.fields[p[0]]] == v.fields;
      }
    }
  }

  /** A set is seen by the get of the same path, unless it is blocked, and then nothing changes. */
  lemma SetThenGet(v: Value, p: seq<string>, x: Value)
    requires p != []
    ensures Blocked(v, p) ==> Set(v, p, x) == v
    ensures !Blocked(v, p) ==> Get(Set(v, p, x), p) == Some(x)
  {
    SetBelowThenGet(AsObject(v), p, x);
  }

  lemma {:induction false} SetBelowFrame(v: Value, p: seq<string>, x: Value, q: seq<string>)
    requires p != [] && !Overlap(p, q)
    ensures Get(SetBelow(v, p, x), q) == Get(v, q)
    decreases |p|
  {
    if v.Obj? && p[0] == q[0] {
      assert p == [p[0]] + p[1..] && q == [q[0]] + q[1..];
      if |p| > 1 {
        SetBelowFrame(ChildOf(v, p[0]), p[1..], x, q[1..]);
      }
    }
  }

  /** A set does not change what is read at paths that do not overlap it. */
  lemma SetFrame(v: Value, p: seq<string>, x: Value, q: seq<string>)
    requires p != [] && !Overlap(p, q)
    ensures Get(Set(v, p, x), q) == Get(v, q)
  {
    SetBelowFrame(AsObject(v), p, x, q);
  }

  lemma {:induction false} SetBelowCommutes(v: Value, p: seq<string>, x: Value, q: seq<string>, y: Value)
    requires p != [] && q != [] && !Overlap(p, q)
    ensures SetBelow(SetBelow(v, p, x), q, y) == SetBelow(SetBelow(v, q, y), p, x)
    decreases |p|
  {
    if v.Obj? {
      if p[0] == q[0] {
        OverlapOfTails(p, q);
        SetBelowCommutes(ChildOf(v, p[0]), p[1..], x, q[1..], y);
        SetTwice(v, p, x, q, y);
        SetTwice(v, q, y, p, x);
      } else {
        SetApartCommutes(v, p, x, q, y);
      }
    }
  }

  lemma OverlapOfTails(p: seq<string>, q: seq<string>)
    requires p != [] && q != [] && p[0] == q[0] && !Overlap(p, q)
    ensures |p| > 1 && |q| > 1 && !Overlap(p[1..], q[1..])
  {
    assert p == [p[0]] + p[1..] && q == [q[0]] + q[1..];
  }

  lemma SetApartCommutes(v: Value, p: seq<string>, x: Value, q: seq<string>, y: Value)
    requires v.Obj? && p != [] && q != [] && p[0] != q[0]
    ensures SetBelow(SetBelow(v, p, x), q, y) == SetBelow(SetBelow(v, q, y), p, x)
  {
    SetApart(v, p, x, q, y);
    SetApart(v, q, y, p, x);
    assert v.fields[p[0] := Changed(v, p, x)][q[0] := Changed(v, q, y)]
        == v.fields[q[0] := Changed(v, q, y)][p[0] := Changed(v, p, x)];
  }

  /** The new value of the first field of the path. */
  function Changed(v: Value, p: seq<string>, x: Value): Value
    requires v.Obj? && p != []
  {
    if |p| == 1 then x else SetBelow(ChildOf(v, p[0]), p[1..], x)
  }

  lemma SetApart(v: Value, p: seq<string>, x: Value, q: seq<string>, y: Value)
    requires v.Obj? && p != [] && q != [] && p[0] != q[0]
    ensures SetBelow(SetBelow(v, p, x), q, y) == Obj(v.fields[p[0] := Changed(v, p, x)][q[0] := Changed(v, q, y)])
  {
  }

  lemma SetTwice(v: Value, p: seq<string>, x: Value, q: seq<string>, y: Value)
    requires v.Obj? && |p| > 1 && |q| > 1 && p[0] == q[0]
    ensures SetBelow(SetBelow(v, p, x), q, y)
         == Obj(v.fields[p[0] := SetBelow(SetBelow(ChildOf(v, p[0]), p[1..], x), q[1..], y)])
  {
    var inner := SetBelow(ChildOf(v, p[0]), p[1..], x);
    assert v.fields[p[0] := inner][p[0] := SetBelow(inner, q[1..], y)] == v.fields[p[0] := SetBelow(inner, q[1..], y)];
  }

  /** Sets at paths that do not overlap commute. */
  lemma SetCommutes(v: Value, p: seq<string>, x: Value, q: seq<string>, y: Value)
    requires p != [] && q != [] && !Overlap(p, q)
    ensures Set(Set(v, p, x), q, y) == Set(Set(v, q, y), p, x)
  {
    SetBelowCommutes(AsObject(v), p, x, q, y);
  }
}
