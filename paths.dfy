/**
 * Writing a value at a dotted path, the job the directive gives to lodash's
 * `set`, and how it interacts with reading paths back (`get` in `utils.ts`).
 */
module Paths {
  import opened Wrappers
  import opened Types
  import opened Utils

  /**
   * `set(obj, path, value)` on a record's fields: creates the missing
   * intermediate records (replacing any non-record found on the way) and sets
   * the last segment. Only the first segment's field changes at this level.
   */
  function SetPath(fields: map<string, Value>, segments: seq<string>, value: Value): (r: map<string, Value>)
    requires segments != []
    ensures r.Keys == fields.Keys + {segments[0]}
    ensures forall k :: k in fields && k != segments[0] ==> r[k] == fields[k]
    decreases |segments|
  {
    var k := segments[0];
    if |segments| == 1 then fields[k := value]
    else
      var child := if k in fields && fields[k].Rec? then fields[k].fields else map[];
      fields[k := Rec(SetPath(child, segments[1..], value))]
  }

  /** `p` is a prefix of `q`. */
  predicate IsPrefix(p: seq<string>, q: seq<string>)
  {
    |p| <= |q| && q[..|p|] == p
  }

  /** Neither path lies on the other: writing one cannot reach the other. */
  predicate Disjoint(p: seq<string>, q: seq<string>)
  {
    !IsPrefix(p, q) && !IsPrefix(q, p)
  }

  /** Two paths with the same first segment are prefix-related as their tails are. */
  lemma PrefixTail(p: seq<string>, q: seq<string>)
    requires p != [] && q != [] && p[0] == q[0]
    ensures IsPrefix(p, q) <==> IsPrefix(p[1..], q[1..])
  {
    if IsPrefix(p[1..], q[1..]) {
      assert q[..|p|] == [q[0]] + q[1..][..|p| - 1];
    }
    if IsPrefix(p, q) {
      assert q[1..][..|p| - 1] == q[..|p|][1..];
    }
  }

  /** A one-segment path is a prefix exactly of the paths starting with that segment. */
  lemma SingletonPrefix(p: seq<string>, q: seq<string>)
    requires |p| == 1 && q != []
    ensures IsPrefix(p, q) <==> p[0] == q[0]
  {
    assert q[..1] == [q[0]];
  }

  /** Reading back the path just written yields the value written. */
  lemma {:induction false} GetSetSame(fields: map<string, Value>, segments: seq<string>, value: Value)
    requires segments != []
    ensures GetPath(Rec(SetPath(fields, segments, value)), segments) == Success(value)
    decreases |segments|
  {
    var k := segments[0];
    if |segments| > 1 {
      var child := if k in fields && fields[k].Rec? then fields[k].fields else map[];
      GetSetSame(child, segments[1..], value);
    }
  }

  /**
   * Writing one path leaves every readable disjoint path reading the same
   * value as before.
   */
  lemma {:induction false} GetSetDisjoint(fields: map<string, Value>, p: seq<string>, q: seq<string>, value: Value)
    requires p != [] && Disjoint(p, q)
    requires GetPath(Rec(fields), q).Success?
    ensures GetPath(Rec(SetPath(fields, p, value)), q) == GetPath(Rec(fields), q)
    decreases |p|
  {
    assert q != [];
    var k := p[0];
    var r := SetPath(fields, p, value);
    if q[0] != k {
      assert (q[0] in r) == (q[0] in fields);
    } else {
      PrefixTail(p, q);
      PrefixTail(q, p);
      assert |p| > 1 && |q| > 1;
      var before := if k in fields then fields[k] else Undefined;
      assert GetPath(Rec(fields), q) == GetPath(before, q[1..]);
      if before.Rec? {
        GetSetDisjoint(before.fields, p[1..], q[1..], value);
      } else {
        // A non-record reads as `undefined` one level down, so only a path
        // ending right there reads successfully.
        assert GetPath(before, q[1..]) == GetPath(Undefined, q[2..]);
        assert q[2..] == [];
        SingletonPrefix(q[1..], p[1..]);
        var written := SetPath(map[], p[1..], value);
        assert r[k] == Rec(written);
        assert GetPath(Rec(written), q[1..]) == GetPath(Undefined, q[2..]);
      }
    }
  }

  /** A read that finds nothing: an error, or `undefined`. */
  predicate Blank(r: Result<Value, PathError>)
  {
    r.Failure? || r == Success(Undefined)
  }

  /** The empty record holds nothing at any path below it. */
  lemma EmptyReadsNothing(segments: seq<string>)
    requires segments != []
    ensures Blank(GetPath(Rec(map[]), segments))
  {
    assert GetPath(Rec(map[]), segments) == GetPath(Undefined, segments[1..]);
  }

  /**
   * Writing one path adds nothing at any path disjoint from it: such a path
   * reads what it read before, or nothing at all (the fresh intermediate
   * records created on the way hold only the written path).
   */
  lemma {:induction false} SetPathElsewhere(fields: map<string, Value>, p: seq<string>, q: seq<string>, value: Value)
    requires p != [] && Disjoint(p, q)
    ensures var after := GetPath(Rec(SetPath(fields, p, value)), q);
      after == GetPath(Rec(fields), q) || Blank(after)
    decreases |p|
  {
    assert q != [];
    var k := p[0];
    var r := SetPath(fields, p, value);
    if q[0] != k {
      assert (q[0] in r) == (q[0] in fields);
    } else {
      PrefixTail(p, q);
      PrefixTail(q, p);
      assert |p| > 1 && |q| > 1;
      var child := if k in fields && fields[k].Rec? then fields[k].fields else map[];
      SetPathElsewhere(child, p[1..], q[1..], value);
      assert GetPath(Rec(r), q) == GetPath(Rec(SetPath(child, p[1..], value)), q[1..]);
      if k in fields && fields[k].Rec? {
        assert GetPath(Rec(fields), q) == GetPath(Rec(child), q[1..]);
      } else {
        EmptyReadsNothing(q[1..]);
      }
    }
  }
}
