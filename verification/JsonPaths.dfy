/** The restricted JSON path: lookup, in-place update, and the laws that connect them. */
module JsonPaths {
  import opened Wrappers

  datatype Json =
    | Null
    | Bool(b: bool)
    | Number(n: real)
    | Text(text: string)
    | Array(items: seq<Json>)
    | Object(fields: map<string, Json>)

  datatype Segment = Segment(name: string, indexes: seq<nat>)

  datatype JsonPath = JsonPath(segments: seq<Segment>)

  datatype PathError =
    MissingRoot | Empty | InvalidSegment | InvalidIndex | NotFound | ParentNotObject | ParentNotArray | IndexOutOfRange

  /** One move of the cursor: into a field of an object or an element of an array. */
  datatype Step = Field(name: string) | Index(i: nat)

  // ---- paths as lists of steps ----

  function IndexSteps(indexes: seq<nat>): (steps: seq<Step>)
    ensures |steps| == |indexes|
  {
    seq(|indexes|, i requires 0 <= i < |indexes| => Index(indexes[i]))
  }

  function Steps(segments: seq<Segment>): seq<Step> {
    if segments == [] then []
    else [Field(segments[0].name)] + IndexSteps(segments[0].indexes) + Steps(segments[1..])
  }

  lemma Regroup<T>(a: seq<T>, b: seq<T>, c: seq<T>)
    ensures (a + b) + c == a + (b + c)
  {
  }

  lemma StepsHead(segments: seq<Segment>)
    requires segments != []
    ensures Steps(segments) == [Field(segments[0].name)] + (IndexSteps(segments[0].indexes) + Steps(segments[1..]))
  {
    hide IndexSteps;
    Regroup([Field(segments[0].name)], IndexSteps(segments[0].indexes), Steps(segments[1..]));
  }

  lemma IndexHead(indexes: seq<nat>, j: nat, rest: seq<Step>)
    requires j < |indexes|
    ensures IndexSteps(indexes[j..]) + rest == [Index(indexes[j])] + (IndexSteps(indexes[j + 1..]) + rest)
  {
    assert IndexSteps(indexes[j..]) == [Index(indexes[j])] + IndexSteps(indexes[j + 1..]);
    Regroup([Index(indexes[j])], IndexSteps(indexes[j + 1..]), rest);
  }

  lemma IndexEnd(indexes: seq<nat>, rest: seq<Step>)
    ensures IndexSteps(indexes[|indexes|..]) + rest == rest && IndexSteps(indexes[0..]) == IndexSteps(indexes)
  {
    assert indexes[0..] == indexes;
  }

  // ---- lookup and update along steps ----

  function Child(v: Json, step: Step): Option<Json> {
    match step
    case Field(name) => if v.Object? && name in v.fields then Some(v.fields[name]) else None
    case Index(i) => if v.Array? && i < |v.items| then Some(v.items[i]) else None
  }

  function WithChild(v: Json, step: Step, child: Json): Json
    requires Child(v, step).Some?
  {
    match step
    case Field(name) => Object(v.fields[name := child])
    case Index(i) => Array(v.items[i := child])
  }

  function Lookup(v: Json, steps: seq<Step>): Option<Json> {
    if steps == [] then Some(v)
    else
      var child := Child(v, steps[0]);
      if child.None? then None else Lookup(child.value, steps[1..])
  }

  /** Writes the last step: a field may be new, an array slot must exist. */
  function WriteLast(v: Json, step: Step, value: Json): Result<Json, PathError> {
    match step
    case Field(name) => if v.Object? then Ok(Object(v.fields[name := value])) else Err(ParentNotObject)
    case Index(i) =>
      if !v.Array? then Err(ParentNotArray)
      else if i < |v.items| then Ok(Array(v.items[i := value])) else Err(IndexOutOfRange)
  }

  function Assign(v: Json, steps: seq<Step>, value: Json): Result<Json, PathError>
    decreases |steps|
  {
    if steps == [] then Err(Empty)
    else if |steps| == 1 then WriteLast(v, steps[0], value)
    else
      var child := Child(v, steps[0]);
      if child.None? then Err(if steps[0].Field? then NotFound else IndexOutOfRange)
      else
        match Assign(child.value, steps[1..], value)
        case Ok(updated) => Ok(WithChild(v, steps[0], updated))
        case Err(e) => Err(e)
  }

  // ---- lens laws ----

  lemma WithChildSame(v: Json, step: Step)
    requires Child(v, step).Some?
    ensures WithChild(v, step, Child(v, step).value) == v
    ensures WriteLast(v, step, Child(v, step).value) == Ok(v)
  {
    match step
    case Field(name) => assert v.fields[name := v.fields[name]] == v.fields;
    case Index(i) => assert v.items[i := v.items[i]] == v.items;
  }

  lemma WithChildTwice(v: Json, step: Step, a: Json, b: Json)
    ensures Child(v, step).Some? ==>
              && Child(WithChild(v, step, a), step) == Some(a)
              && WithChild(WithChild(v, step, a), step, b) == WithChild(v, step, b)
    ensures WriteLast(v, step, a).Ok? ==> WriteLast(WriteLast(v, step, a).value, step, b) == WriteLast(v, step, b)
  {
    match step
    case Field(name) => assert v.Object? ==> v.fields[name := a][name := b] == v.fields[name := b];
    case Index(i) => assert v.Array? && i < |v.items| ==> v.items[i := a][i := b] == v.items[i := b];
  }

  /** After a successful write the path resolves to the written value. */
  lemma {:induction false} SetThenGet(v: Json, steps: seq<Step>, value: Json)
    requires Assign(v, steps, value).Ok?
    ensures Lookup(Assign(v, steps, value).value, steps) == Some(value)
  {
    if |steps| > 1 {
      SetThenGet(Child(v, steps[0]).value, steps[1..], value);
    }
  }

  /** Writing back what a path resolves to succeeds and changes nothing. */
  lemma {:induction false} GetThenSet(v: Json, steps: seq<Step>)
    requires steps != [] && Lookup(v, steps).Some?
    ensures Assign(v, steps, Lookup(v, steps).value) == Ok(v)
  {
    WithChildSame(v, steps[0]);
    if |steps| > 1 {
      GetThenSet(Child(v, steps[0]).value, steps[1..]);
    } else {
      assert Lookup(Child(v, steps[0]).value, steps[1..]) == Child(v, steps[0]);
    }
  }

  /** The second of two writes to one path wins. */
  lemma {:induction false} SetThenSet(v: Json, steps: seq<Step>, first: Json, second: Json)
    requires Assign(v, steps, first).Ok?
    ensures Assign(Assign(v, steps, first).value, steps, second) == Assign(v, steps, second)
  {
    if |steps| > 1 {
      var child := Child(v, steps[0]).value;
      SetThenSet(child, steps[1..], first, second);
      var updated := Assign(child, steps[1..], first).value;
      if Assign(child, steps[1..], second).Ok? {
        WithChildTwice(v, steps[0], updated, Assign(child, steps[1..], second).value);
      }
      WithChildTwice(v, steps[0], updated, updated);
    } else {
      WithChildTwice(v, steps[0], first, second);
    }
  }

  ghost predicate Diverge(a: seq<Step>, b: seq<Step>) {
    exists i :: 0 <= i < |a| && i < |b| && a[..i] == b[..i] && a[i] != b[i]
  }

  /** A path that leaves the written one at any step resolves as before. */
  lemma {:induction false} SetElsewhere(v: Json, steps: seq<Step>, value: Json, other: seq<Step>)
    requires Assign(v, steps, value).Ok? && Diverge(steps, other)
    ensures Lookup(Assign(v, steps, value).value, other) == Lookup(v, other)
  {
    if steps[0] == other[0] {
      var i :| 0 <= i < |steps| && i < |other| && steps[..i] == other[..i] && steps[i] != other[i];
      assert steps[1..][..i - 1] == steps[..i][1..] && other[1..][..i - 1] == other[..i][1..];
      assert Diverge(steps[1..], other[1..]);
      SetElsewhere(Child(v, steps[0]).value, steps[1..], value, other[1..]);
    }
  }

  /** A path below the written one resolves inside the written value. */
  lemma SetThenGetBelow(v: Json, steps: seq<Step>, value: Json, below: seq<Step>)
    requires Assign(v, steps, value).Ok?
    ensures Lookup(Assign(v, steps, value).value, steps + below) == Lookup(value, below)
  {
    SetThenGet(v, steps, value);
    LookupConcat(Assign(v, steps, value).value, steps, below);
  }

  /** A write succeeds exactly when the parent of its target resolves and has room for the last step. */
  lemma {:induction false} SetSucceeds(v: Json, steps: seq<Step>, value: Json)
    ensures Assign(v, steps, value).Ok? <==>
              && steps != []
              && var parent := Lookup(v, steps[..|steps| - 1]);
              && parent.Some?
              && match steps[|steps| - 1]
                 case Field(_) => parent.value.Object?
                 case Index(i) => parent.value.Array? && i < |parent.value.items|
  {
    if |steps| > 1 {
      assert steps[..|steps| - 1][1..] == steps[1..][..|steps| - 2];
      if Child(v, steps[0]).Some? {
        SetSucceeds(Child(v, steps[0]).value, steps[1..], value);
      }
    }
  }

  // ---- the cursor ----

  lemma {:induction false} LookupConcat(v: Json, a: seq<Step>, b: seq<Step>)
    ensures Lookup(v, a + b) == if Lookup(v, a).None? then None else Lookup(Lookup(v, a).value, b)
  {
    if a == [] {
      assert a + b == b;
    } else {
      assert (a + b)[1..] == a[1..] + b;
      if Child(v, a[0]).Some? {
        LookupConcat(Child(v, a[0]).value, a[1..], b);
      }
    }
  }

  lemma LookupStep(v: Json, a: seq<Step>, step: Step)
    requires Lookup(v, a).Some?
    ensures Lookup(v, a + [step]) == Child(Lookup(v, a).value, step)
  {
    LookupConcat(v, a, [step]);
    var at := Lookup(v, a).value;
    if Child(at, step).Some? {
      assert Lookup(at, [step]) == Lookup(Child(at, step).value, []);
    }
  }

  /** `v` after the node the cursor points at, `taken` steps deep, was overwritten. */
  function Put(v: Json, taken: seq<Step>, node: Json): Json
    requires Lookup(v, taken).Some?
  {
    if taken == [] then node
    else WithChild(v, taken[0], Put(Child(v, taken[0]).value, taken[1..], node))
  }

  /** Updating below the cursor is updating there and writing the node back. */
  lemma {:induction false} AssignBelow(v: Json, taken: seq<Step>, rest: seq<Step>, value: Json)
    requires rest != [] && Lookup(v, taken).Some?
    ensures Assign(v, taken + rest, value) ==
            match Assign(Lookup(v, taken).value, rest, value)
            case Ok(node) => Ok(Put(v, taken, node))
            case Err(e) => Err(e)
  {
    if taken == [] {
      assert taken + rest == rest;
    } else {
      assert (taken + rest)[1..] == taken[1..] + rest;
      AssignBelow(Child(v, taken[0]).value, taken[1..], rest, value);
    }
  }

  /** The cursor at `at`, with `step` and then `rest` still to go. */
  lemma Advance(v: Json, all: seq<Step>, at: seq<Step>, step: Step, rest: seq<Step>, value: Json)
    requires all == at + ([step] + rest) && Lookup(v, at).Some?
    ensures all == at + [step] + rest
    ensures Lookup(v, at + [step]) == Child(Lookup(v, at).value, step)
    ensures Child(Lookup(v, at).value, step).None? ==> Lookup(v, all).None?
    ensures Child(Lookup(v, at).value, step).None? && rest != [] ==>
              Assign(v, all, value) == Err(if step.Field? then NotFound else IndexOutOfRange)
    ensures rest == [] ==>
              Assign(v, all, value) ==
              match WriteLast(Lookup(v, at).value, step, value)
              case Ok(node) => Ok(Put(v, at, node))
              case Err(e) => Err(e)
  {
    hide WriteLast, Put;
    var here := Lookup(v, at).value;
    Regroup(at, [step], rest);
    LookupStep(v, at, step);
    LookupConcat(v, at + [step], rest);
    AssignBelow(v, at, [step] + rest, value);
  }

  /** The read-only descent of a path. */
  method Resolve(path: JsonPath, root: Json) returns (r: Option<Json>)
    ensures r == Lookup(root, Steps(path.segments))
  {
    hide Assign, Child, WriteLast, Put, Steps, IndexSteps;
    var current, i, segments := root, 0, path.segments;
    ghost var at, all: seq<Step> := [], Steps(path.segments);
    assert segments[0..] == segments && at + Steps(segments) == Steps(segments);
    while i < |segments|
      invariant i <= |segments| && Lookup(root, at) == Some(current)
      invariant all == at + Steps(segments[i..])
    {
      var name, indexes := segments[i].name, segments[i].indexes;
      StepsHead(segments[i..]);
      assert segments[i..][1..] == segments[i + 1..];
      ghost var after := Steps(segments[i + 1..]);
      Advance(root, all, at, Field(name), IndexSteps(indexes) + after, Null);
      if Child(current, Field(name)).None? {
        return None;
      }
      current := Child(current, Field(name)).value;
      at := at + [Field(name)];
      IndexEnd(indexes, after);
      var j := 0;
      while j < |indexes|
        invariant j <= |indexes| && Lookup(root, at) == Some(current)
        invariant all == at + (IndexSteps(indexes[j..]) + after)
      {
        IndexHead(indexes, j, after);
        Advance(root, all, at, Index(indexes[j]), IndexSteps(indexes[j + 1..]) + after, Null);
        if Child(current, Index(indexes[j])).None? {
          return None;
        }
        current := Child(current, Index(indexes[j])).value;
        at := at + [Index(indexes[j])];
        j := j + 1;
      }
      i := i + 1;
    }
    NoSteps(segments[i..]);
    assert at + [] == at;
    return Some(current);
  }

  lemma NoSteps(segments: seq<Segment>)
    ensures segments == [] <==> Steps(segments) == []
  {
  }

  /** A document that paths write into. */
  class JsonDocument {
    var root: Json

    constructor (value: Json)
      ensures root == value
    {
      root := value;
    }

    /** Writes through a moving cursor; a failed write leaves the document as it was. */
    method Set(path: JsonPath, value: Json) returns (r: Option<PathError>)
      modifies this
      ensures match Assign(old(root), Steps(path.segments), value)
              case Ok(updated) => r == None && root == updated
              case Err(e) => r == Some(e) && root == old(root)
    {
      hide Assign, Child, WriteLast, Put, Steps, IndexSteps;
      var current, i, segments := root, 0, path.segments;
      var at: seq<Step> := [];
      ghost var all := Steps(path.segments);
      assert segments[0..] == segments && at + Steps(segments) == Steps(segments);
      while i < |segments|
        invariant i <= |segments| && root == old(root) && Lookup(root, at) == Some(current)
        invariant all == at + Steps(segments[i..])
        invariant i == |segments| ==> i == 0
      {
        var name, indexes := segments[i].name, segments[i].indexes;
        var last := i + 1 == |segments|;
        StepsHead(segments[i..]);
        assert segments[i..][1..] == segments[i + 1..];
        ghost var after := Steps(segments[i + 1..]);
        NoSteps(segments[i + 1..]);
        Advance(root, all, at, Field(name), IndexSteps(indexes) + after, value);
        if last && indexes == [] {
          r := Write(at, current, Field(name), value);
          return;
        }
        if Child(current, Field(name)).None? {
          return Some(NotFound);
        }
        current := Child(current, Field(name)).value;
        at := at + [Field(name)];
        var done;
        done, r, current, at := SetBelow(all, at, current, indexes, after, last, value);
        if done {
          return;
        }
        i := i + 1;
      }
      AssignNothing(root, value);
      NoSteps(segments);
      return Some(Empty);
    }

    /** The indexes of one segment; `after` are the steps behind them, none if this segment is the last one. */
    method SetBelow(ghost all: seq<Step>, start: seq<Step>, node: Json, indexes: seq<nat>, ghost after: seq<Step>,
                    last: bool, value: Json)
      returns (done: bool, r: Option<PathError>, current: Json, at: seq<Step>)
      requires Lookup(root, start) == Some(node) && all == start + (IndexSteps(indexes) + after)
      requires (last <==> after == []) && (last ==> indexes != [])
      modifies this
      ensures last ==> done
      ensures done ==> match Assign(old(root), all, value)
                       case Ok(updated) => r == None && root == updated
                       case Err(e) => r == Some(e) && root == old(root)
      ensures !done ==> root == old(root) && Lookup(root, at) == Some(current) && all == at + after
    {
      hide Lookup, Assign, Child, WriteLast, Put, IndexSteps;
      current, at := node, start;
      var j := 0;
      while j < |indexes|
        invariant j <= |indexes| && root == old(root) && Lookup(root, at) == Some(current)
        invariant all == at + (IndexSteps(indexes[j..]) + after)
        invariant last ==> j < |indexes|
      {
        IndexHead(indexes, j, after);
        Advance(root, all, at, Index(indexes[j]), IndexSteps(indexes[j + 1..]) + after, value);
        if last && j + 1 == |indexes| {
          r := Write(at, current, Index(indexes[j]), value);
          return true, r, current, at;
        }
        if Child(current, Index(indexes[j])).None? {
          return true, Some(IndexOutOfRange), current, at;
        }
        current := Child(current, Index(indexes[j])).value;
        at := at + [Index(indexes[j])];
        j := j + 1;
      }
      IndexEnd(indexes, after);
      return false, None, current, at;
    }

    /** The last step: overwrites a field of the node at the cursor, or an element it has. */
    method Write(at: seq<Step>, current: Json, step: Step, value: Json) returns (r: Option<PathError>)
      requires Lookup(root, at) == Some(current)
      modifies this
      ensures match WriteLast(current, step, value)
              case Ok(node) => r == None && root == Put(old(root), at, node)
              case Err(e) => r == Some(e) && root == old(root)
    {
      if step.Field? {
        if !current.Object? {
          return Some(ParentNotObject);
        }
        root := Put(root, at, Object(current.fields[step.name := value]));
      } else {
        if !current.Array? {
          return Some(ParentNotArray);
        }
        if |current.items| <= step.i {
          return Some(IndexOutOfRange);
        }
        root := Put(root, at, Array(current.items[step.i := value]));
      }
      return None;
    }
  }

  lemma AssignNothing(v: Json, value: Json)
    ensures Assign(v, [], value) == Err(Empty)
  {
  }
}
