/**
 * `utils.ts`: decoding a raw query value by kind (`parse`), walking a dotted
 * path through a value (`get`), folding definition/value pairs into the query
 * map (`resolveParams`) and `coerceArray`.
 */
module Utils {
  import opened Wrappers
  import opened Types
  import opened Strings

  // ---------------------------------------------------------------- parse

  /** Each piece as a string value. */
  function Strs(pieces: seq<string>): (r: seq<Value>)
    ensures |r| == |pieces|
    ensures forall i :: 0 <= i < |r| ==> r[i] == Str(pieces[i])
  {
    if pieces == [] then [] else [Str(pieces[0])] + Strs(pieces[1..])
  }

  /** The raw query value itself, where `parse` passes it through (`null` stays `null`). */
  function PassThrough(value: Option<string>): Value
  {
    if value.Some? then Str(value.value) else Null
  }

  /**
   * `parse(value, type)`. `value` is the raw query text or `null` (`None`);
   * an absent `type` takes the `default` branch. Booleans follow the code's
   * `value === 'false' ? false : !!value`, so `""` decodes to `false`. `+null`
   * is `+""` (both 0) and `JSON.parse(null)` parses the text `"null"`.
   */
  function Parse(value: Option<string>, paramType: Option<ParamDefType>): Value
  {
    match paramType
    case Some(StringType) => PassThrough(value)
    case Some(BooleanType) =>
      if value == Some("false") then Bool(false) else Bool(value.Some? && value.value != "")
    case Some(ArrayType) =>
      if value.None? then Undefined else Arr(Strs(Split(value.value, ',')))
    case Some(NumberType) => NumberOf(if value.Some? then value.value else "")
    case Some(ObjectType) => JsonOf(if value.Some? then value.value else "null")
    case None => PassThrough(value)
  }

  /** `'string'` and an absent type hand the raw text back unchanged. */
  lemma ParsePassesStrings(s: string)
    ensures Parse(Some(s), Some(StringType)) == Str(s)
    ensures Parse(Some(s), None) == Str(s)
  {
  }

  /**
   * `'boolean'` is `false` exactly for `null`, `""` and the text `"false"`,
   * and `true` for every other text.
   */
  lemma ParseBoolean(value: Option<string>)
    ensures Parse(value, Some(BooleanType)).Bool?
    ensures !Parse(value, Some(BooleanType)).b <==> value in {None, Some(""), Some("false")}
  {
  }

  /**
   * `'array'` on a text: pieces free of commas, one more piece than commas,
   * and joining them with commas restores the text.
   */
  lemma ParseArray(s: string)
    ensures var r := Parse(Some(s), Some(ArrayType));
      && r.Arr?
      && |r.items| == Count(s, ',') + 1
      && (forall i :: 0 <= i < |r.items| ==> r.items[i].Str? && ',' !in r.items[i].s)
      && Join(Split(s, ','), ',') == s
      && r.items == Strs(Split(s, ','))
  {
  }

  /** `'array'` on `null` yields `undefined`, not an empty list. */
  lemma ParseArrayAbsent()
    ensures Parse(None, Some(ArrayType)) == Undefined
  {
  }

  /** The example of the tests: `"1,2,3"` decodes to `["1", "2", "3"]`. */
  lemma ParseArrayExample()
    ensures Split("1,2,3", ',') == ["1", "2", "3"]
    ensures Parse(Some("1,2,3"), Some(ArrayType)) == Arr([Str("1"), Str("2"), Str("3")])
  {
    assert "1,2,3" == "1" + [','] + ("2" + [','] + "3");
    SplitCons("1", ',', "2" + [','] + "3");
    SplitCons("2", ',', "3");
    SplitNoSeparator("3", ',');
  }

  // ------------------------------------------------------------------ get

  /** The `TypeError` of reading property `segment` of `undefined` or `null`. */
  datatype PathError = CannotRead(segment: string)

  /**
   * `current[p]`: a record yields the field or `undefined`; `undefined` and
   * `null` throw; any other value has no such property here.
   */
  function Index(current: Value, p: string): Result<Value, PathError>
  {
    match current
    case Undefined => Failure(CannotRead(p))
    case Null => Failure(CannotRead(p))
    case Rec(fields) => Success(if p in fields then fields[p] else Undefined)
    case _ => Success(Undefined)
  }

  /** The value reached by indexing `obj` with each segment in turn. */
  function GetPath(obj: Value, segments: seq<string>): Result<Value, PathError>
    decreases |segments|
  {
    if segments == [] then Success(obj)
    else
      match Index(obj, segments[0])
      case Failure(e) => Failure(e)
      case Success(child) => GetPath(child, segments[1..])
  }

  /** `get(obj, path)`: the loop over `path.split('.')` reassigning `current`. */
  method Get(obj: Value, path: string) returns (r: Result<Value, PathError>)
    ensures r == GetPath(obj, Split(path, '.'))
  {
    var segments := Split(path, '.');
    var current := obj;
    var i := 0;
    while i < |segments|
      invariant 0 <= i <= |segments|
      invariant GetPath(obj, segments) == GetPath(current, segments[i..])
    {
      assert segments[i..][1..] == segments[i + 1..];
      var next := Index(current, segments[i]);
      if next.Failure? {
        return Failure(next.error);
      }
      current := next.value;
      i := i + 1;
    }
    return Success(current);
  }

  /** A one-segment path reads `obj[p]`. */
  lemma GetSingleSegment(obj: Value, p: string)
    requires '.' !in p
    ensures GetPath(obj, Split(p, '.')) == Index(obj, p)
  {
    SplitNoSeparator(p, '.');
  }

  /** `p.rest` reads `rest` from `obj[p]`, and fails if `obj[p]` cannot be indexed. */
  lemma GetDotted(obj: Value, p: string, rest: string)
    requires '.' !in p
    ensures Index(obj, p).Failure? ==> GetPath(obj, Split(p + "." + rest, '.')) == Index(obj, p)
    ensures Index(obj, p).Success? ==>
      GetPath(obj, Split(p + "." + rest, '.')) == GetPath(Index(obj, p).value, Split(rest, '.'))
  {
    SplitCons(p, '.', rest);
  }

  /** A missing intermediate segment is an error, not `undefined`. */
  lemma GetMissingIntermediate(fields: map<string, Value>, p: string, q: string)
    requires p !in fields
    ensures GetPath(Rec(fields), [p, q]) == Failure(CannotRead(q))
  {
    assert [p, q][1..] == [q];
    assert [q][1..] == [];
  }

  // ---------------------------------------------------------- coerceArray

  /** A `T | T[]` argument. */
  datatype OneOrMany<T> = One(item: T) | Many(items: seq<T>)

  /** `coerceArray`: an array as it is, anything else as a one-element list. */
  function CoerceArray<T>(value: OneOrMany<T>): (r: seq<T>)
    ensures value.Many? ==> r == value.items
    ensures value.One? ==> |r| == 1 && r[0] == value.item
  {
    match value
    case One(item) => [item]
    case Many(items) => items
  }

  // -------------------------------------------------------- resolveParams

  /** `ResolveParamsOption`: a definition with the form value found at its path. */
  datatype ResolveParamsOption = ResolveParamsOption(def: QueryParamDef, value: Value)

  /**
   * `def.serialize(value)`: the value's query text, or `None` for `null`
   * (which leaves the key out of the URL). The method belongs to a class that
   * is not part of this model, so the fold takes it as a parameter.
   */
  type Serializer = (QueryParamDef, Value) -> Option<string>

  /** The query keys of the entries. */
  function QueryKeys(entries: seq<ResolveParamsOption>): set<string>
  {
    set i | 0 <= i < |entries| :: entries[i].def.queryKey
  }

  /** The map `resolveParams` builds: each entry, in order, writes its key. */
  function Resolved(entries: seq<ResolveParamsOption>, serialize: Serializer): map<string, Option<string>>
  {
    if entries == [] then map[]
    else
      var last := entries[|entries| - 1];
      Resolved(entries[..|entries| - 1], serialize)[last.def.queryKey := serialize(last.def, last.value)]
  }

  /** `resolveParams(params)`: the `forEach` filling `result` in place. */
  method ResolveParams(params: OneOrMany<ResolveParamsOption>, serialize: Serializer)
    returns (result: map<string, Option<string>>)
    ensures result == Resolved(CoerceArray(params), serialize)
    ensures result.Keys == QueryKeys(CoerceArray(params))
  {
    var entries := CoerceArray(params);
    result := map[];
    for i := 0 to |entries|
      invariant result == Resolved(entries[..i], serialize)
    {
      assert entries[..i + 1][..i] == entries[..i];
      result := result[entries[i].def.queryKey := serialize(entries[i].def, entries[i].value)];
    }
    assert entries[..|entries|] == entries;
    ResolvedKeys(entries, serialize);
  }

  /** The result holds exactly the query keys of the entries; none for no entries. */
  lemma {:induction false} ResolvedKeys(entries: seq<ResolveParamsOption>, serialize: Serializer)
    ensures Resolved(entries, serialize).Keys == QueryKeys(entries)
  {
    if entries != [] {
      var n := |entries| - 1;
      var init := entries[..n];
      ResolvedKeys(init, serialize);
      assert QueryKeys(entries) == QueryKeys(init) + {entries[n].def.queryKey} by {
        forall k | k in QueryKeys(entries) ensures k in QueryKeys(init) + {entries[n].def.queryKey} {
          var i :| 0 <= i < |entries| && entries[i].def.queryKey == k;
          if i < n { assert init[i] == entries[i]; }
        }
        forall k | k in QueryKeys(init) ensures k in QueryKeys(entries) {
          var i :| 0 <= i < |init| && init[i].def.queryKey == k;
          assert entries[i] == init[i];
        }
      }
    }
  }

  /** Entry `i` is the last one carrying its query key. */
  ghost predicate LastWithKey(entries: seq<ResolveParamsOption>, i: int)
  {
    && 0 <= i < |entries|
    && forall j :: i < j < |entries| ==> entries[j].def.queryKey != entries[i].def.queryKey
  }

  /** Last write wins: a key maps to the serialization of the last entry carrying it. */
  lemma {:induction false} ResolvedLastWins(entries: seq<ResolveParamsOption>, serialize: Serializer, i: int)
    requires LastWithKey(entries, i)
    ensures entries[i].def.queryKey in Resolved(entries, serialize)
    ensures Resolved(entries, serialize)[entries[i].def.queryKey] == serialize(entries[i].def, entries[i].value)
  {
    var n := |entries| - 1;
    if i < n {
      var init := entries[..n];
      assert LastWithKey(init, i) by {
        forall j | i < j < |init| ensures init[j].def.queryKey != init[i].def.queryKey {
          assert init[j] == entries[j];
        }
      }
      ResolvedLastWins(init, serialize, i);
    }
  }

  /** No two entries share a query key. */
  ghost predicate UniqueKeys(entries: seq<ResolveParamsOption>)
  {
    forall i, j :: 0 <= i < j < |entries| ==> entries[i].def.queryKey != entries[j].def.queryKey
  }

  /** With unique keys, the order of the entries does not matter. */
  lemma ResolvedOrderIndependent(a: seq<ResolveParamsOption>, b: seq<ResolveParamsOption>, serialize: Serializer)
    requires UniqueKeys(a) && UniqueKeys(b)
    requires forall e :: e in a <==> e in b
    ensures Resolved(a, serialize) == Resolved(b, serialize)
  {
    ResolvedKeys(a, serialize);
    ResolvedKeys(b, serialize);
    assert QueryKeys(a) == QueryKeys(b) by {
      forall k | k in QueryKeys(a) ensures k in QueryKeys(b) {
        var i :| 0 <= i < |a| && a[i].def.queryKey == k;
        assert a[i] in b;
      }
      forall k | k in QueryKeys(b) ensures k in QueryKeys(a) {
        var i :| 0 <= i < |b| && b[i].def.queryKey == k;
        assert b[i] in a;
      }
    }
    forall k | k in QueryKeys(a) ensures Resolved(a, serialize)[k] == Resolved(b, serialize)[k] {
      var i :| 0 <= i < |a| && a[i].def.queryKey == k;
      assert a[i] in b;
      var j :| 0 <= j < |b| && b[j] == a[i];
      ResolvedLastWins(a, serialize, i);
      ResolvedLastWins(b, serialize, j);
    }
  }

  // ---------------------------------------------- the default serialization

  /** The decimal text of a natural number. */
  function NatToString(n: nat): string
  {
    if n < 10 then ["0123456789"[n]] else NatToString(n / 10) + ["0123456789"[n % 10]]
  }

  /** `String(n)` for an integral number. */
  function IntToString(n: int): string
  {
    if n < 0 then "-" + NatToString(-n) else NatToString(n)
  }

  /**
   * The query text of a value when no custom serializer is set: a string as
   * it is, `"true"`/`"false"`, decimal numbers, and an array as its elements'
   * texts joined with `','` (a `null` or `undefined` element as `""`, as
   * `Array.prototype.join` does). Other values have no text here.
   */
  function DefaultSerialize(value: Value): Option<string>
    decreases value, 0
  {
    match value
    case Str(s) => Some(s)
    case Bool(b) => Some(if b then "true" else "false")
    case Num(n) => Some(IntToString(n))
    case Arr(items) => Some(Join(seq(|items|, i requires 0 <= i < |items| => ElementText(items[i])), ','))
    case _ => None
  }

  /** The text of an array element; one without a text joins as `""`. */
  function ElementText(item: Value): string
    decreases item, 1
  {
    var t := DefaultSerialize(item);
    if t.Some? then t.value else ""
  }

  /** `def.serialize(value)`: the custom serializer when set, the default otherwise. */
  function Serialize(def: QueryParamDef, value: Value): Option<string>
  {
    if def.serializer.Some? then Some(def.serializer.value(value)) else DefaultSerialize(value)
  }

  /** The serializations the tests expect: `true`, `[1, 2, 3]` and a string. */
  lemma SerializeExamples(s: string)
    ensures DefaultSerialize(Bool(true)) == Some("true")
    ensures DefaultSerialize(Arr([Num(1), Num(2), Num(3)])) == Some("1,2,3")
    ensures DefaultSerialize(Str(s)) == Some(s)
  {
    var items := [Num(1), Num(2), Num(3)];
    var texts := seq(|items|, i requires 0 <= i < |items| => ElementText(items[i]));
    assert texts == ["1", "2", "3"] by {
      assert ElementText(Num(1)) == "1" && ElementText(Num(2)) == "2" && ElementText(Num(3)) == "3";
    }
    assert Join(["1", "2", "3"], ',') == "1,2,3" by {
      assert ["1", "2", "3"][1..] == ["2", "3"] && ["2", "3"][1..] == ["3"];
    }
  }

  /** Strings and booleans survive encode then decode. */
  lemma RoundTripScalars(s: string, b: bool)
    ensures Parse(DefaultSerialize(Str(s)), Some(StringType)) == Str(s)
    ensures Parse(DefaultSerialize(Bool(b)), Some(BooleanType)) == Bool(b)
  {
  }

  /** A non-empty array of comma-free strings survives encode then decode. */
  lemma RoundTripArray(pieces: seq<string>)
    requires pieces != []
    requires forall i :: 0 <= i < |pieces| ==> ',' !in pieces[i]
    ensures Parse(DefaultSerialize(Arr(Strs(pieces))), Some(ArrayType)) == Arr(Strs(pieces))
  {
    var items := Strs(pieces);
    var texts := seq(|items|, i requires 0 <= i < |items| => ElementText(items[i]));
    assert |texts| == |pieces|;
    forall i | 0 <= i < |pieces| ensures texts[i] == pieces[i] {
      assert texts[i] == ElementText(items[i]);
      assert items[i] == Str(pieces[i]);
      assert DefaultSerialize(Str(pieces[i])) == Some(pieces[i]);
    }
    assert texts == pieces;
    assert DefaultSerialize(Arr(items)) == Some(Join(pieces, ','));
    SplitJoin(pieces, ',');
  }

  /** The empty array does not round-trip: it encodes as `""`, which decodes to `[""]`. */
  lemma EmptyArrayDoesNotRoundTrip()
    ensures DefaultSerialize(Arr([])) == Some("")
    ensures Parse(DefaultSerialize(Arr([])), Some(ArrayType)) == Arr([Str("")])
  {
  }
}
