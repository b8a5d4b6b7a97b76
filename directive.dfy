/**
 * `bind-query-params.directive.ts`: the start-up decode of the query string
 * into a sparse value tree, the split of the definitions by trigger, and the
 * navigation each trigger performs, with the directive object whose state the
 * lifecycle hooks and event handlers change.
 */
module BindQueryParams {
  import opened Wrappers
  import opened Types
  import opened Strings
  import opened Utils
  import opened Paths

  /** The query string as `URLSearchParams` presents it: each key with its value. */
  type Query = map<string, string>

  /** The segments of a definition's dotted path, as `get` and `set` split it. */
  function Segments(def: QueryParamDef): (segments: seq<string>)
    ensures segments != []
  {
    Split(PathOf(def), '.')
  }

  // --------------------------------------------------------------- decode

  /** The definition is decoded: its key is in the query and it reads the URL. */
  predicate DecodesFrom(def: QueryParamDef, query: Query)
  {
    def.queryKey in query && ReadsUrl(def)
  }

  /** The decoded value: the custom parser when the definition has one, else `parse` by type. */
  function DecodeValue(def: QueryParamDef, raw: string): Value
  {
    if def.parser.Some? then def.parser.value(raw) else Parse(Some(raw), def.paramType)
  }

  /**
   * The loop of `ngOnInit` exactly as written: every definition whose key is
   * present writes `parse(raw, def.type)` at its path, whatever its strategy,
   * and a custom parser is never consulted.
   */
  function DecodedAsWritten(defs: seq<QueryParamDef>, query: Query): map<string, Value>
    decreases |defs|
  {
    if defs == [] then map[]
    else
      var prev := DecodedAsWritten(defs[..|defs| - 1], query);
      var def := defs[|defs| - 1];
      if def.queryKey in query then SetPath(prev, Segments(def), Parse(Some(query[def.queryKey]), def.paramType))
      else prev
  }

  /**
   * The tree the start-up decode builds, with the two corrections: a
   * `modelToUrl` definition is skipped and a custom parser replaces `parse`.
   */
  function Decoded(defs: seq<QueryParamDef>, query: Query): map<string, Value>
    decreases |defs|
  {
    if defs == [] then map[]
    else
      var prev := Decoded(defs[..|defs| - 1], query);
      var def := defs[|defs| - 1];
      if DecodesFrom(def, query) then SetPath(prev, Segments(def), DecodeValue(def, query[def.queryKey]))
      else prev
  }

  /** The decode loop of `ngOnInit`, starting from `{}` and writing with `set`. */
  method DecodeQuery(defs: seq<QueryParamDef>, query: Query) returns (value: map<string, Value>)
    ensures value == Decoded(defs, query)
  {
    value := map[];
    for i := 0 to |defs|
      invariant value == Decoded(defs[..i], query)
    {
      assert defs[..i + 1][..i] == defs[..i];
      var def := defs[i];
      if def.queryKey in query && ReadsUrl(def) {
        value := SetPath(value, Segments(def), DecodeValue(def, query[def.queryKey]));
      }
    }
    assert defs[..|defs|] == defs;
  }

  /** The first path segments of the decoded definitions. */
  ghost function WrittenKeys(defs: seq<QueryParamDef>, query: Query): set<string>
  {
    set d | d in defs && DecodesFrom(d, query) :: Segments(d)[0]
  }

  /**
   * The patch is sparse: its top-level fields are exactly those the decoded
   * definitions write; absent keys contribute nothing, and a query naming no
   * definition gives the empty tree.
   */
  lemma {:induction false} DecodedSparse(defs: seq<QueryParamDef>, query: Query)
    ensures Decoded(defs, query).Keys == WrittenKeys(defs, query)
  {
    if defs != [] {
      var n := |defs| - 1;
      DecodedSparse(defs[..n], query);
      WrittenKeysSnoc(defs, query);
    }
  }

  /** The written keys of a list are those of all but its last definition, plus the last one's. */
  lemma WrittenKeysSnoc(defs: seq<QueryParamDef>, query: Query)
    requires defs != []
    ensures var n := |defs| - 1;
      WrittenKeys(defs, query) ==
        WrittenKeys(defs[..n], query) + (if DecodesFrom(defs[n], query) then {Segments(defs[n])[0]} else {})
  {
    var n := |defs| - 1;
    assert defs == defs[..n] + [defs[n]];
  }

  /**
   * A decoded definition reads back its decoded value at its path, provided
   * no later decoded definition writes a path on, above or under it: later writes to
   * disjoint paths leave earlier values alone.
   */
  lemma {:induction false} DecodedReadBack(defs: seq<QueryParamDef>, query: Query, i: int)
    requires 0 <= i < |defs| && DecodesFrom(defs[i], query)
    requires forall j :: i < j < |defs| && DecodesFrom(defs[j], query) ==> Disjoint(Segments(defs[j]), Segments(defs[i]))
    ensures GetPath(Rec(Decoded(defs, query)), Segments(defs[i])) == Success(DecodeValue(defs[i], query[defs[i].queryKey]))
    decreases |defs|
  {
    var n := |defs| - 1;
    var init := defs[..n];
    if i == n {
      GetSetSame(Decoded(init, query), Segments(defs[i]), DecodeValue(defs[i], query[defs[i].queryKey]));
    } else {
      assert init[i] == defs[i];
      forall j | i < j < |init| && DecodesFrom(init[j], query)
        ensures Disjoint(Segments(init[j]), Segments(init[i]))
      {
        assert init[j] == defs[j];
      }
      DecodedReadBack(init, query, i);
      if DecodesFrom(defs[n], query) {
        GetSetDisjoint(Decoded(init, query), Segments(defs[n]), Segments(defs[i]), DecodeValue(defs[n], query[defs[n].queryKey]));
      }
    }
  }

  /**
   * The patch holds nothing the query did not name: a path that is neither
   * on, above nor under the path of any decoded definition reads nothing
   * (`undefined` or an error) in the decoded tree, at any depth.
   */
  lemma {:induction false} DecodedNothingElsewhere(defs: seq<QueryParamDef>, query: Query, path: seq<string>)
    requires path != []
    requires forall i :: 0 <= i < |defs| && DecodesFrom(defs[i], query) ==> Disjoint(Segments(defs[i]), path)
    ensures Blank(GetPath(Rec(Decoded(defs, query)), path))
    decreases |defs|
  {
    if defs == [] {
      EmptyReadsNothing(path);
    } else {
      var n := |defs| - 1;
      var init := defs[..n];
      forall i | 0 <= i < |init| && DecodesFrom(init[i], query) ensures Disjoint(Segments(init[i]), path) {
        assert init[i] == defs[i];
      }
      DecodedNothingElsewhere(init, query, path);
      if DecodesFrom(defs[n], query) {
        SetPathElsewhere(Decoded(init, query), Segments(defs[n]), path, DecodeValue(defs[n], query[defs[n].queryKey]));
      }
    }
  }

  /**
   * A query key bound only by `modelToUrl` definitions has no effect on the
   * decoded tree: its value in the URL is never written into the form.
   */
  lemma {:induction false} ModelToUrlNeverDecoded(defs: seq<QueryParamDef>, query: Query, key: string)
    requires forall i :: 0 <= i < |defs| && defs[i].queryKey == key ==> !ReadsUrl(defs[i])
    ensures Decoded(defs, query) == Decoded(defs, query - {key})
  {
    if defs != [] {
      var n := |defs| - 1;
      var init := defs[..n];
      forall i | 0 <= i < |init| && init[i].queryKey == key ensures !ReadsUrl(init[i]) {
        assert init[i] == defs[i];
      }
      ModelToUrlNeverDecoded(init, query, key);
      assert DecodesFrom(defs[n], query) == DecodesFrom(defs[n], query - {key});
    }
  }

  /** The custom parser of the tests: `value.split(',').map((v) => +v)`. */
  function SplitToNumbers(value: string): Value
  {
    var pieces := Split(value, ',');
    Arr(seq(|pieces|, i requires 0 <= i < |pieces| => NumberOf(pieces[i])))
  }

  /** The parser of the tests turns `"1,2,3"` into the numbers 1, 2 and 3. */
  lemma SplitToNumbersExample()
    ensures SplitToNumbers("1,2,3") == Arr([NumberOf("1"), NumberOf("2"), NumberOf("3")])
  {
    ParseArrayExample();
  }

  /** A definition with a one-segment path, triggered on change. */
  function SimpleDef(queryKey: string, paramType: Option<ParamDefType>, strategy: Option<Strategy>,
                     parser: Option<string -> Value>): QueryParamDef
  {
    QueryParamDef(queryKey, None, paramType, strategy, Change, parser, None)
  }

  /** Both decodes of a single definition. */
  lemma DecodedSingle(def: QueryParamDef, query: Query)
    ensures DecodedAsWritten([def], query) ==
      if def.queryKey in query then SetPath(map[], Segments(def), Parse(Some(query[def.queryKey]), def.paramType)) else map[]
    ensures Decoded([def], query) ==
      if DecodesFrom(def, query) then SetPath(map[], Segments(def), DecodeValue(def, query[def.queryKey])) else map[]
  {
    assert [def][..0] == [];
  }

  /**
   * As written, the loop decodes a `modelToUrl` definition: `?modelToUrl=1,2,3`
   * reaches the form, where the corrected decode writes nothing.
   */
  lemma AsWrittenDecodesModelToUrl()
    ensures var def := SimpleDef("modelToUrl", Some(ArrayType), Some(ModelToUrl), None);
      var query := map["modelToUrl" := "1,2,3"];
      && DecodedAsWritten([def], query) == map["modelToUrl" := Arr([Str("1"), Str("2"), Str("3")])]
      && Decoded([def], query) == map[]
  {
    var def := SimpleDef("modelToUrl", Some(ArrayType), Some(ModelToUrl), None);
    var query := map["modelToUrl" := "1,2,3"];
    DecodedSingle(def, query);
    SplitNoSeparator("modelToUrl", '.');
    assert Segments(def) == ["modelToUrl"];
    assert Parse(Some(query["modelToUrl"]), def.paramType) == Arr([Str("1"), Str("2"), Str("3")]) by {
      ParseArrayExample();
    }
  }

  /**
   * As written, the loop ignores a custom parser: `?parser=1,2,3` decodes to
   * strings, where the corrected decode applies the parser and yields numbers.
   */
  lemma AsWrittenIgnoresParser()
    ensures var def := SimpleDef("parser", Some(ArrayType), None, Some(SplitToNumbers));
      var query := map["parser" := "1,2,3"];
      && DecodedAsWritten([def], query) == map["parser" := Arr([Str("1"), Str("2"), Str("3")])]
      && Decoded([def], query) == map["parser" := Arr([NumberOf("1"), NumberOf("2"), NumberOf("3")])]
  {
    var def := SimpleDef("parser", Some(ArrayType), None, Some(SplitToNumbers));
    var query := map["parser" := "1,2,3"];
    DecodedSingle(def, query);
    SplitNoSeparator("parser", '.');
    ParseArrayExample();
    SplitToNumbersExample();
    assert DecodedAsWritten([def], query) == SetPath(map[], ["parser"], Parse(Some("1,2,3"), Some(ArrayType)));
    assert Decoded([def], query) == SetPath(map[], ["parser"], SplitToNumbers("1,2,3"));
  }

  // ------------------------------------------------------------ partition

  /** `defs.filter((def) => def.trigger === trigger)`. */
  function FilterByTrigger(defs: seq<QueryParamDef>, trigger: Trigger): (r: seq<QueryParamDef>)
    ensures forall i :: 0 <= i < |r| ==> r[i].trigger == trigger
    ensures forall d :: d in r <==> d in defs && d.trigger == trigger
  {
    if defs == [] then []
    else (if defs[0].trigger == trigger then [defs[0]] else []) + FilterByTrigger(defs[1..], trigger)
  }

  /** The definitions re-encoded on submit. */
  function OnSubmitDefs(defs: seq<QueryParamDef>): seq<QueryParamDef>
  {
    FilterByTrigger(defs, Submit)
  }

  /** The definitions re-encoded on every value change. */
  function OnChangeDefs(defs: seq<QueryParamDef>): seq<QueryParamDef>
  {
    FilterByTrigger(defs, Change)
  }

  /** `sub` is `s` with some elements removed, the rest kept in order. */
  ghost predicate IsSubsequence(sub: seq<QueryParamDef>, s: seq<QueryParamDef>)
    decreases |s|
  {
    if sub == [] then true
    else if s == [] then false
    else (sub[0] == s[0] && IsSubsequence(sub[1..], s[1..])) || IsSubsequence(sub, s[1..])
  }

  /** Filtering keeps the order of the definitions it keeps. */
  lemma {:induction false} FilterIsSubsequence(defs: seq<QueryParamDef>, trigger: Trigger)
    ensures IsSubsequence(FilterByTrigger(defs, trigger), defs)
  {
    if defs != [] {
      FilterIsSubsequence(defs[1..], trigger);
      var rest := FilterByTrigger(defs[1..], trigger);
      if defs[0].trigger == trigger {
        assert ([defs[0]] + rest)[1..] == rest;
      } else {
        assert [] + rest == rest;
      }
    }
  }

  /**
   * The submit and change subsets are order-preserving subsequences of the
   * definitions; they are disjoint and together as long as the definitions.
   */
  lemma {:induction false} TriggerPartition(defs: seq<QueryParamDef>)
    ensures IsSubsequence(OnSubmitDefs(defs), defs) && IsSubsequence(OnChangeDefs(defs), defs)
    ensures forall d :: !(d in OnSubmitDefs(defs) && d in OnChangeDefs(defs))
    ensures |OnSubmitDefs(defs)| + |OnChangeDefs(defs)| == |defs|
  {
    FilterIsSubsequence(defs, Submit);
    FilterIsSubsequence(defs, Change);
    if defs != [] {
      TriggerPartition(defs[1..]);
    }
  }

  // ----------------------------------------------------------- navigation

  /** The options of one `router.navigate([], …)` call. */
  datatype Navigation = Navigation(queryParams: map<string, Option<string>>, queryParamsHandling: string, replaceUrl: bool)

  /** `updateQueryParams(queryParams, replaceUrl)`: always merge. */
  function UpdateQueryParams(queryParams: map<string, Option<string>>, replaceUrl: bool): Navigation
  {
    Navigation(queryParams, "merge", replaceUrl)
  }

  /** Each definition paired with `get(snapshot, def.path)`; the first unreadable path throws. */
  function ParamsFor(defs: seq<QueryParamDef>, snapshot: Value): (r: Result<seq<ResolveParamsOption>, PathError>)
    ensures r.Success? <==> forall i :: 0 <= i < |defs| ==> GetPath(snapshot, Segments(defs[i])).Success?
    ensures r.Success? ==> |r.value| == |defs|
    ensures r.Success? ==> forall i :: 0 <= i < |defs| ==>
      r.value[i].def == defs[i] && GetPath(snapshot, Segments(defs[i])) == Success(r.value[i].value)
  {
    if defs == [] then Success([])
    else
      match GetPath(snapshot, Segments(defs[0]))
      case Failure(e) => Failure(e)
      case Success(v) =>
        match ParamsFor(defs[1..], snapshot)
        case Failure(e) => Failure(e)
        case Success(rest) => Success([ResolveParamsOption(defs[0], v)] + rest)
  }

  /** The keys of a list of definitions. */
  function KeysOf(defs: seq<QueryParamDef>): set<string>
  {
    set i | 0 <= i < |defs| :: defs[i].queryKey
  }

  /** One handler run: read every path of the subset from the snapshot, resolve, navigate. */
  function Handle(subset: seq<QueryParamDef>, snapshot: Value, replaceUrl: bool): Result<Navigation, PathError>
  {
    match ParamsFor(subset, snapshot)
    case Failure(e) => Failure(e)
    case Success(entries) => Success(UpdateQueryParams(Resolved(entries, Serialize), replaceUrl))
  }

  /** The navigation of the submit listener. */
  function SubmitNavigation(defs: seq<QueryParamDef>, snapshot: Value): Result<Navigation, PathError>
  {
    Handle(OnSubmitDefs(defs), snapshot, true)
  }

  /** The navigation of the value-change listener. */
  function ChangeNavigation(defs: seq<QueryParamDef>, snapshot: Value): Result<Navigation, PathError>
  {
    Handle(OnChangeDefs(defs), snapshot, false)
  }

  /** The entries paired from a subset carry exactly the subset's keys. */
  lemma ParamsForKeys(subset: seq<QueryParamDef>, snapshot: Value)
    requires ParamsFor(subset, snapshot).Success?
    ensures QueryKeys(ParamsFor(subset, snapshot).value) == KeysOf(subset)
  {
    var entries := ParamsFor(subset, snapshot).value;
    forall k | k in KeysOf(subset) ensures k in QueryKeys(entries) {
      var i :| 0 <= i < |subset| && subset[i].queryKey == k;
      assert entries[i].def.queryKey == k;
    }
  }

  /**
   * A handler run produces one merge navigation holding exactly the subset's
   * keys, each mapped to the serialization of the value at the path of the
   * last definition carrying it.
   */
  lemma HandleNavigation(subset: seq<QueryParamDef>, snapshot: Value, replaceUrl: bool)
    requires Handle(subset, snapshot, replaceUrl).Success?
    ensures var nav := Handle(subset, snapshot, replaceUrl).value;
      && nav.queryParamsHandling == "merge"
      && nav.replaceUrl == replaceUrl
      && nav.queryParams.Keys == KeysOf(subset)
      && forall i :: 0 <= i < |subset| && (forall j :: i < j < |subset| ==> subset[j].queryKey != subset[i].queryKey) ==>
           nav.queryParams[subset[i].queryKey] == Serialize(subset[i], GetPath(snapshot, Segments(subset[i])).value)
  {
    var entries := ParamsFor(subset, snapshot).value;
    ResolvedKeys(entries, Serialize);
    ParamsForKeys(subset, snapshot);
    forall i | 0 <= i < |subset| && (forall j :: i < j < |subset| ==> subset[j].queryKey != subset[i].queryKey)
      ensures Resolved(entries, Serialize)[subset[i].queryKey] == Serialize(subset[i], GetPath(snapshot, Segments(subset[i])).value)
    {
      ParamsForLastWins(subset, snapshot, i);
    }
  }

  /** The last definition carrying a key decides that key's serialized value. */
  lemma ParamsForLastWins(subset: seq<QueryParamDef>, snapshot: Value, i: int)
    requires ParamsFor(subset, snapshot).Success?
    requires 0 <= i < |subset| && forall j :: i < j < |subset| ==> subset[j].queryKey != subset[i].queryKey
    ensures subset[i].queryKey in Resolved(ParamsFor(subset, snapshot).value, Serialize)
    ensures Resolved(ParamsFor(subset, snapshot).value, Serialize)[subset[i].queryKey] ==
      Serialize(subset[i], GetPath(snapshot, Segments(subset[i])).value)
  {
    var entries := ParamsFor(subset, snapshot).value;
    assert LastWithKey(entries, i);
    ResolvedLastWins(entries, Serialize, i);
  }

  /** Every key a trigger's navigation carries belongs to a definition with that trigger. */
  lemma KeysFromTrigger(defs: seq<QueryParamDef>, snapshot: Value, trigger: Trigger, replaceUrl: bool)
    requires Handle(FilterByTrigger(defs, trigger), snapshot, replaceUrl).Success?
    ensures var nav := Handle(FilterByTrigger(defs, trigger), snapshot, replaceUrl).value;
      forall k :: k in nav.queryParams ==> exists i :: 0 <= i < |defs| && defs[i].queryKey == k && defs[i].trigger == trigger
  {
    var subset := FilterByTrigger(defs, trigger);
    HandleNavigation(subset, snapshot, replaceUrl);
    forall k | k in KeysOf(subset)
      ensures exists i :: 0 <= i < |defs| && defs[i].queryKey == k && defs[i].trigger == trigger
    {
      var j :| 0 <= j < |subset| && subset[j].queryKey == k;
      var d := subset[j];
      assert d in subset;
      assert d in defs && d.trigger == trigger;
      var i :| 0 <= i < |defs| && defs[i] == d;
      assert defs[i].queryKey == k && defs[i].trigger == trigger;
    }
  }

  /**
   * Submit navigations replace the history entry and carry only submit
   * keys; change navigations push a new entry and carry only change keys.
   */
  lemma TriggerNavigations(defs: seq<QueryParamDef>, snapshot: Value)
    ensures SubmitNavigation(defs, snapshot).Success? ==>
      var nav := SubmitNavigation(defs, snapshot).value;
      nav.replaceUrl && nav.queryParamsHandling == "merge" &&
      forall k :: k in nav.queryParams ==> exists i :: 0 <= i < |defs| && defs[i].queryKey == k && defs[i].trigger == Submit
    ensures ChangeNavigation(defs, snapshot).Success? ==>
      var nav := ChangeNavigation(defs, snapshot).value;
      !nav.replaceUrl && nav.queryParamsHandling == "merge" &&
      forall k :: k in nav.queryParams ==> exists i :: 0 <= i < |defs| && defs[i].queryKey == k && defs[i].trigger == Change
  {
    if SubmitNavigation(defs, snapshot).Success? {
      KeysFromTrigger(defs, snapshot, Submit, true);
    }
    if ChangeNavigation(defs, snapshot).Success? {
      KeysFromTrigger(defs, snapshot, Change, false);
    }
  }

  // ------------------------------------------------------------ directive

  /**
   * The directive: its definitions, what it has handed to the form group's
   * `patchValue`, which listeners are live, and the calls it has made to
   * `router.navigate`, oldest first.
   */
  class BindQueryParamsDirective {
    const defs: seq<QueryParamDef>
    var patches: seq<map<string, Value>>
    var submitSubscribed: bool
    var changeSubscribed: bool
    var navigations: seq<Navigation>

    constructor(defs: seq<QueryParamDef>)
      ensures this.defs == defs
      ensures patches == [] && navigations == []
      ensures !submitSubscribed && !changeSubscribed
    {
      this.defs := defs;
      patches := [];
      submitSubscribed := false;
      changeSubscribed := false;
      navigations := [];
    }

    /**
     * `ngOnInit`: patch the form with the decoded tree, then listen to
     * submits and value changes only for non-empty subsets.
     */
    method NgOnInit(query: Query)
      modifies this
      ensures patches == old(patches) + [Decoded(defs, query)]
      ensures submitSubscribed == (OnSubmitDefs(defs) != [])
      ensures changeSubscribed == (OnChangeDefs(defs) != [])
      ensures navigations == old(navigations)
    {
      var value := DecodeQuery(defs, query);
      patches := patches + [value];
      var onSubmitDefs := OnSubmitDefs(defs);
      var onChangeDefs := OnChangeDefs(defs);
      submitSubscribed := |onSubmitDefs| > 0;
      changeSubscribed := |onChangeDefs| > 0;
    }

    /** One run of a listener: resolve the subset against the snapshot and navigate. */
    method Update(subset: seq<QueryParamDef>, snapshot: Value, replaceUrl: bool)
      modifies this`navigations
      ensures navigations == old(navigations) +
        (if Handle(subset, snapshot, replaceUrl).Success? then [Handle(subset, snapshot, replaceUrl).value] else [])
    {
      var entries := ParamsFor(subset, snapshot);
      if entries.Success? {
        var queryParams := ResolveParams(Many(entries.value), Serialize);
        navigations := navigations + [UpdateQueryParams(queryParams, replaceUrl)];
      }
    }

    /** The form is submitted; `formValue` is the group's value at that moment. */
    method NgSubmit(formValue: Value)
      modifies this`navigations
      ensures navigations == old(navigations) +
        (if submitSubscribed && SubmitNavigation(defs, formValue).Success? then [SubmitNavigation(defs, formValue).value] else [])
    {
      if submitSubscribed {
        Update(OnSubmitDefs(defs), formValue, true);
      }
    }

    /** The group emits a new value. */
    method ValueChanges(formValue: Value)
      modifies this`navigations
      ensures navigations == old(navigations) +
        (if changeSubscribed && ChangeNavigation(defs, formValue).Success? then [ChangeNavigation(defs, formValue).value] else [])
    {
      if changeSubscribed {
        Update(OnChangeDefs(defs), formValue, false);
      }
    }

    /** `ngOnDestroy`: both listeners stop; nothing else changes. */
    method NgOnDestroy()
      modifies this`submitSubscribed, this`changeSubscribed
      ensures !submitSubscribed && !changeSubscribed
    {
      submitSubscribed := false;
      changeSubscribed := false;
    }
  }
}
