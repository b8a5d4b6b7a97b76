/**
 * The behaviour `lib.spec.ts` expects, restated as lemmas about the model and
 * generalised from the tests' field names to any names without dots.
 */
module Scenarios {
  import opened Wrappers
  import opened Types
  import opened Strings
  import opened Utils
  import opened Paths
  import opened BindQueryParams

  /**
   * Like the tests' `searchTerm` (no type), `showErrors` (boolean) and
   * `issues` (array), all triggered on change.
   */
  function ThreeDefs(term: string, flag: string, list: string): seq<QueryParamDef>
  {
    [ SimpleDef(term, None, None, None),
      SimpleDef(flag, Some(BooleanType), None, None),
      SimpleDef(list, Some(ArrayType), None, None) ]
  }

  /** Three distinct field names, none with a dot. */
  predicate PlainNames(term: string, flag: string, list: string)
  {
    && '.' !in term && '.' !in flag && '.' !in list
    && term != flag && flag != list && term != list
  }

  /** A key without dots is its own one-segment path. */
  lemma SimpleSegments(queryKey: string, paramType: Option<ParamDefType>)
    requires '.' !in queryKey
    ensures Segments(SimpleDef(queryKey, paramType, None, None)) == [queryKey]
  {
    SplitNoSeparator(queryKey, '.');
  }

  /** `?showErrors=true` patches only `showErrors`, with `true`; the other fields are untouched. */
  lemma StartupDecodeIsSparse(term: string, flag: string, list: string)
    requires PlainNames(term, flag, list)
    ensures Decoded(ThreeDefs(term, flag, list), map[flag := "true"]) == map[flag := Bool(true)]
  {
    var defs := ThreeDefs(term, flag, list);
    var query := map[flag := "true"];
    SimpleSegments(term, None);
    SimpleSegments(flag, Some(BooleanType));
    SimpleSegments(list, Some(ArrayType));
    assert defs[..1] == [defs[0]] && defs[..2][..1] == defs[..1] && defs[..3][..2] == defs[..2] && defs[..3] == defs;
    DecodedSingle(defs[0], query);
    assert Decoded(defs[..1], query) == map[];
    assert Decoded(defs[..2], query) == SetPath(map[], [flag], Bool(true));
  }

  /** The tests' `nested` (path `a.b`) and `nestedarray` (path `a.c`, array) definitions. */
  function NestedDefs(nested: string, nestedArray: string, a: string, b: string, c: string): seq<QueryParamDef>
  {
    [ QueryParamDef(nested, Some(a + "." + b), None, None, Change, None, None),
      QueryParamDef(nestedArray, Some(a + "." + c), Some(ArrayType), None, Change, None, None) ]
  }

  /** A two-segment dotted path splits into its two segments. */
  lemma TwoSegments(x: string, y: string)
    requires '.' !in x && '.' !in y
    ensures Split(x + "." + y, '.') == [x, y]
  {
    SplitCons(x, '.', y);
    SplitNoSeparator(y, '.');
  }

  /** `"1,2"` parsed as an array. */
  lemma ParseOneTwo()
    ensures Parse(Some("1,2"), Some(ArrayType)) == Arr([Str("1"), Str("2")])
  {
    assert Split("1,2", ',') == ["1", "2"] by {
      SplitCons("1", ',', "2");
      SplitNoSeparator("2", ',');
    }
  }

  /**
   * `?nested=value&nestedarray=1,2` with paths `a.b` and `a.c` writes `"value"`
   * at `a.b` and `["1", "2"]` at `a.c`: the second write keeps the first.
   */
  lemma NestedDecode(nested: string, nestedArray: string, a: string, b: string, c: string)
    requires nested != nestedArray && '.' !in a && '.' !in b && '.' !in c && b != c
    ensures var decoded := Decoded(NestedDefs(nested, nestedArray, a, b, c), map[nested := "value", nestedArray := "1,2"]);
      && GetPath(Rec(decoded), [a, b]) == Success(Str("value"))
      && GetPath(Rec(decoded), [a, c]) == Success(Arr([Str("1"), Str("2")]))
  {
    var defs := NestedDefs(nested, nestedArray, a, b, c);
    var query := map[nested := "value", nestedArray := "1,2"];
    TwoSegments(a, b);
    TwoSegments(a, c);
    assert Segments(defs[0]) == [a, b];
    assert Segments(defs[1]) == [a, c];
    assert Disjoint([a, c], [a, b]) by {
      assert [a, b][..2] == [a, b] && [a, c][..2] == [a, c];
      assert [a, b][1] != [a, c][1];
    }
    DecodedReadBack(defs, query, 0);
    DecodedReadBack(defs, query, 1);
    ParseOneTwo();
    assert DecodeValue(defs[0], query[nested]) == Str("value");
    assert DecodeValue(defs[1], query[nestedArray]) == Arr([Str("1"), Str("2")]);
  }

  /**
   * `?nested=value` alone writes `a.b` and nothing else: the decoded tree is
   * `{a: {b: "value"}}`, and the sibling `a.c` reads `undefined`.
   */
  lemma NestedDecodeLeavesSibling(nested: string, nestedArray: string, a: string, b: string, c: string)
    requires nested != nestedArray && '.' !in a && '.' !in b && '.' !in c && b != c
    ensures var decoded := Decoded(NestedDefs(nested, nestedArray, a, b, c), map[nested := "value"]);
      && decoded == map[a := Rec(map[b := Str("value")])]
      && GetPath(Rec(decoded), [a, c]) == Success(Undefined)
  {
    var defs := NestedDefs(nested, nestedArray, a, b, c);
    var query := map[nested := "value"];
    TwoSegments(a, b);
    assert Segments(defs[0]) == [a, b];
    assert defs[..1] == [defs[0]];
    DecodedSingle(defs[0], query);
    assert DecodeValue(defs[0], query[nested]) == Str("value");
    assert Decoded(defs, query) == Decoded(defs[..1], query);
    assert [a, b][1..] == [b];
    assert SetPath(map[], [b], Str("value")) == map[b := Str("value")];
    assert Decoded(defs, query) == SetPath(map[], [a, b], Str("value"));
    assert [a, c][1..] == [c] && [c][1..] == [];
    assert GetPath(Rec(map[b := Str("value")]), [c]) == Success(Undefined);
  }

  /** The snapshot of the "multiple updates" test. */
  function ChangedSnapshot(term: string, flag: string, list: string): Value
  {
    Rec(map[term := Str("new"), flag := Bool(true), list := Arr([Num(1), Num(2), Num(3)])])
  }

  /** All three definitions are triggered on change and none on submit. */
  lemma ThreeDefsTriggers(term: string, flag: string, list: string)
    ensures OnChangeDefs(ThreeDefs(term, flag, list)) == ThreeDefs(term, flag, list)
    ensures OnSubmitDefs(ThreeDefs(term, flag, list)) == []
  {
    var defs := ThreeDefs(term, flag, list);
    assert defs[1..][1..] == defs[2..] && defs[2..][1..] == [];
    assert FilterByTrigger(defs[2..], Change) == defs[2..];
    assert FilterByTrigger(defs[1..], Change) == defs[1..];
    assert FilterByTrigger(defs[2..], Submit) == [];
    assert FilterByTrigger(defs[1..], Submit) == [];
  }

  /** The entries the change handler hands to `resolveParams` for the changed snapshot. */
  function ChangedEntries(term: string, flag: string, list: string): seq<ResolveParamsOption>
  {
    var defs := ThreeDefs(term, flag, list);
    [ ResolveParamsOption(defs[0], Str("new")),
      ResolveParamsOption(defs[1], Bool(true)),
      ResolveParamsOption(defs[2], Arr([Num(1), Num(2), Num(3)])) ]
  }

  /** Each of the three definitions reads its own field of the changed snapshot. */
  lemma ChangedReads(term: string, flag: string, list: string)
    requires PlainNames(term, flag, list)
    ensures var defs := ThreeDefs(term, flag, list);
      var snapshot := ChangedSnapshot(term, flag, list);
      && GetPath(snapshot, Segments(defs[0])) == Success(Str("new"))
      && GetPath(snapshot, Segments(defs[1])) == Success(Bool(true))
      && GetPath(snapshot, Segments(defs[2])) == Success(Arr([Num(1), Num(2), Num(3)]))
  {
    SimpleSegments(term, None);
    SimpleSegments(flag, Some(BooleanType));
    SimpleSegments(list, Some(ArrayType));
  }

  /** Every path of the three definitions reads the snapshot's field of the same name. */
  lemma ChangedParams(term: string, flag: string, list: string)
    requires PlainNames(term, flag, list)
    ensures ParamsFor(ThreeDefs(term, flag, list), ChangedSnapshot(term, flag, list)) == Success(ChangedEntries(term, flag, list))
  {
    var defs := ThreeDefs(term, flag, list);
    var snapshot := ChangedSnapshot(term, flag, list);
    ChangedReads(term, flag, list);
    var r := ParamsFor(defs, snapshot).value;
    assert r[0].value == Str("new");
    assert r[1].value == Bool(true);
    assert r[2].value == Arr([Num(1), Num(2), Num(3)]);
    assert r == ChangedEntries(term, flag, list);
  }

  /** `resolveParams` serializes the string, the boolean and the array of numbers under their keys. */
  lemma ChangedResolved(term: string, flag: string, list: string)
    requires PlainNames(term, flag, list)
    ensures Resolved(ChangedEntries(term, flag, list), Serialize) ==
      map[term := Some("new"), flag := Some("true"), list := Some("1,2,3")]
  {
    var entries := ChangedEntries(term, flag, list);
    SerializeExamples("new");
    assert entries[..1] == [entries[0]] && entries[..2][..1] == entries[..1] && entries[..3][..2] == entries[..2];
    assert entries[..3] == entries;
    assert Resolved(entries[..1], Serialize) == map[term := Some("new")];
    assert Resolved(entries[..2], Serialize) == map[term := Some("new"), flag := Some("true")];
  }

  /**
   * One change covering three fields gives a single navigation holding all
   * three keys, merged into the URL without replacing the history entry;
   * with no submit-triggered definitions, submitting navigates nowhere.
   */
  lemma ChangesAreAggregated(term: string, flag: string, list: string)
    requires PlainNames(term, flag, list)
    ensures ChangeNavigation(ThreeDefs(term, flag, list), ChangedSnapshot(term, flag, list)) ==
      Success(Navigation(map[term := Some("new"), flag := Some("true"), list := Some("1,2,3")], "merge", false))
    ensures OnSubmitDefs(ThreeDefs(term, flag, list)) == []
  {
    ThreeDefsTriggers(term, flag, list);
    ChangedParams(term, flag, list);
    ChangedResolved(term, flag, list);
  }
}
