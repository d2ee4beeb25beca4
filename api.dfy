/**
 * The request shaping of the API client: the grid of sampling parameters is
 * cleaned before it is sent, a run is started from an id or from an id with a
 * grid override, and list queries carry an optional cursor and limit.
 */
module Api {
  import opened Wrappers
  import opened Collections
  import opened Domain

  /** The properties of a `GridSpec`, in the order `sanitizeGrid` copies them. */
  const GridKeys: seq<string> := ["temperature", "top_p", "top_k", "max_tokens", "samples", "seed"]

  lemma GridKeysDistinct()
    ensures |GridKeys| == 6 && NoDup(GridKeys)
  {
  }

  /**
   * Whether the `j`-th property is copied: the four lists only when they are
   * arrays, `samples` only when it is a number, `seed` when it is a number or `null`.
   */
  predicate Keeps(j: nat, v: Value)
  {
    if j < 4 then v.Arr? else if j == 4 then v.Num? else v.Num? || v.Null?
  }

  /** `!input || typeof input !== "object"`: anything but a non-null object or array. */
  predicate NotAnObject(input: Value)
  {
    !Truthy(input) || !(input.Obj? || input.Arr?)
  }

  /** The properties copied from the first `n` of `GridKeys`. */
  function Picked(input: Value, n: nat): seq<(string, Value)>
    requires n <= |GridKeys|
  {
    if n == 0 then []
    else
      var v := Get(input, GridKeys[n - 1]);
      Picked(input, n - 1) + (if Keeps(n - 1, v) then [(GridKeys[n - 1], v)] else [])
  }

  /** Only the first `n` names are copied. */
  lemma {:induction false} PickedKeys(input: Value, n: nat)
    requires n <= |GridKeys|
    ensures forall i :: 0 <= i < |Picked(input, n)| ==> Picked(input, n)[i].0 in GridKeys[..n]
  {
    if n > 0 {
      PickedKeys(input, n - 1);
      assert GridKeys[..n - 1] <= GridKeys[..n];
    }
  }

  /** The gridSpec `sanitizeGrid` returns, as a function of its input. */
  function Sanitized(input: Value): (r: Value)
    ensures r.Obj?
  {
    if NotAnObject(input) then Obj([]) else Obj(Picked(input, 6))
  }

  /**
   * One assignment of `sanitizeGrid`: `out` does not have property `j` yet, so
   * assigning it, when it is kept, adds it last.
   */
  lemma PickStep(input: Value, o: seq<(string, Value)>, j: nat, k: string, v: Value)
    requires j < |GridKeys| && k == GridKeys[j] && v == Get(input, k) && o == Picked(input, j)
    ensures k !in Keys(o)
    ensures Keeps(j, v) ==> o + [(k, v)] == Picked(input, j + 1)
    ensures !Keeps(j, v) ==> o == Picked(input, j + 1)
  {
    GridKeysDistinct();
    PickedKeys(input, j);
    assert k !in GridKeys[..j];
    assert forall i :: 0 <= i < |o| ==> o[i].0 != k;
  }

  /**
   * `sanitizeGrid`: an empty object for anything but an object, then one
   * assignment per wanted property, in the order of `GridKeys`; each adds a new
   * last property.
   */
  method SanitizeGrid(input: Value) returns (out: Value)
    ensures out == Sanitized(input)
  {
    if !Truthy(input) || !(input.Obj? || input.Arr?) {
      return Obj([]);
    }
    var o: seq<(string, Value)> := [];
    var v := Get(input, GridKeys[0]);
    PickStep(input, o, 0, GridKeys[0], v);
    if v.Arr? {
      o := o + [(GridKeys[0], v)];
    }
    v := Get(input, GridKeys[1]);
    PickStep(input, o, 1, GridKeys[1], v);
    if v.Arr? {
      o := o + [(GridKeys[1], v)];
    }
    v := Get(input, GridKeys[2]);
    PickStep(input, o, 2, GridKeys[2], v);
    if v.Arr? {
      o := o + [(GridKeys[2], v)];
    }
    v := Get(input, GridKeys[3]);
    PickStep(input, o, 3, GridKeys[3], v);
    if v.Arr? {
      o := o + [(GridKeys[3], v)];
    }
    v := Get(input, GridKeys[4]);
    PickStep(input, o, 4, GridKeys[4], v);
    if v.Num? {
      o := o + [(GridKeys[4], v)];
    }
    v := Get(input, GridKeys[5]);
    PickStep(input, o, 5, GridKeys[5], v);
    if v.Num? || v.Null? {
      o := o + [(GridKeys[5], v)];
    }
    out := Obj(o);
  }

  /** Reading a property of the copy gives the input's property when it was copied, `undefined` otherwise. */
  lemma {:induction false} GetPicked(input: Value, n: nat, j: nat)
    requires n <= |GridKeys| && j < |GridKeys|
    ensures Get(Obj(Picked(input, n)), GridKeys[j]) ==
      if j < n && Keeps(j, Get(input, GridKeys[j])) then Get(input, GridKeys[j]) else Undefined
  {
    GridKeysDistinct();
    if n > 0 {
      GetPicked(input, n - 1, j);
      PickedKeys(input, n - 1);
      var v := Get(input, GridKeys[n - 1]);
      var rest := Picked(input, n - 1);
      var last := if Keeps(n - 1, v) then [(GridKeys[n - 1], v)] else [];
      LookupAppend(rest, last, GridKeys[j]);
      if GridKeys[j] in Keys(rest) {
        var i := IndexOf(Keys(rest), GridKeys[j]);
        assert rest[i].0 in GridKeys[..n - 1];
      }
      if j == n - 1 {
        assert GridKeys[j] !in GridKeys[..n - 1];
      }
    }
  }

  /**
   * The sanitized grid holds only properties of `GridKeys`, in that order: the
   * lists that are arrays, a numeric `samples`, a numeric or null `seed`, each
   * with the input's value; anything but an object gives `{}`.
   */
  lemma SanitizedSpec(input: Value, j: nat)
    requires j < |GridKeys|
    ensures NotAnObject(input) ==> Sanitized(input) == Obj([])
    ensures forall k :: k in Keys(Sanitized(input).fields) ==> k in GridKeys
    ensures !NotAnObject(input) ==>
      Get(Sanitized(input), GridKeys[j]) == if Keeps(j, Get(input, GridKeys[j])) then Get(input, GridKeys[j]) else Undefined
  {
    if !NotAnObject(input) {
      GetPicked(input, 6, j);
      PickedKeys(input, 6);
      assert GridKeys[..6] == GridKeys;
    }
  }

  /** The copied properties of a sanitized grid are its own again. */
  lemma {:induction false} PickedAgain(input: Value, n: nat)
    requires n <= |GridKeys| && !NotAnObject(input)
    ensures Picked(Sanitized(input), n) == Picked(input, n)
  {
    if n > 0 {
      PickedAgain(input, n - 1);
      GetPicked(input, 6, n - 1);
    }
  }

  /** Sanitizing twice is sanitizing once. */
  lemma SanitizeIdempotent(input: Value)
    ensures Sanitized(Sanitized(input)) == Sanitized(input)
  {
    if NotAnObject(input) {
      assert Picked(Obj([]), 6) == [] by {
        EmptyPicksNothing(6);
      }
    } else {
      PickedAgain(input, 6);
    }
  }

  /** An empty object has none of the properties. */
  lemma {:induction false} EmptyPicksNothing(n: nat)
    requires n <= |GridKeys|
    ensures Picked(Obj([]), n) == []
  {
    if n > 0 {
      EmptyPicksNothing(n - 1);
    }
  }

  /** `CreateExperimentBody`. */
  datatype CreateBody = CreateBody(title: string, prompt: string, model: string, gridSpec: Value)

  /** The payload of `createExperiment`: `{ ...body, gridSpec: sanitizeGrid(body.gridSpec) }`. */
  function CreatePayload(body: CreateBody): (p: CreateBody)
    ensures p.title == body.title && p.prompt == body.prompt && p.model == body.model
    ensures p.gridSpec == Sanitized(body.gridSpec)
  {
    body.(gridSpec := Sanitized(body.gridSpec))
  }

  /** A payload sent again is sent unchanged. */
  lemma CreatePayloadIdempotent(body: CreateBody)
    ensures CreatePayload(CreatePayload(body)) == CreatePayload(body)
  {
    SanitizeIdempotent(body.gridSpec);
  }

  /** The argument of `runExperiment`: the experiment id, or `{ id, gridOverride }` with a possibly absent override. */
  datatype RunInput = ById(id: string) | WithOverride(id: string, gridOverride: Value)

  /** The request `runExperiment` posts: the path and, when there is one, the body. */
  datatype RunRequest = RunRequest(path: string, body: Option<Value>)

  function RunRequestOf(input: RunInput): (r: RunRequest)
  {
    var id := input.id;
    var raw := if input.ById? then Undefined else input.gridOverride;
    var body := if Truthy(raw) then Some(Obj([("gridOverride", Sanitized(raw))])) else None;
    RunRequest("/experiments/" + id + "/run", body)
  }

  /**
   * The run path names the id of either form of input; a body is sent exactly
   * when an override is given and truthy, and it carries the sanitized override.
   */
  lemma RunRequestSpec(input: RunInput)
    ensures var r := RunRequestOf(input);
      && r.path == "/experiments/" + input.id + "/run"
      && (r.body.Some? <==> input.WithOverride? && Truthy(input.gridOverride))
      && (r.body.Some? ==> Get(r.body.value, "gridOverride") == Sanitized(input.gridOverride))
      && (r.body.Some? ==> Keys(r.body.value.fields) == ["gridOverride"])
  {
  }

  /** `if (cursor)`: a present, non-empty cursor. */
  predicate HasCursor(cursor: Option<string>)
  {
    cursor.Some? && cursor.value != ""
  }

  /** `if (limit)`: a present, non-zero limit (NaN is not modelled). */
  predicate HasLimit(limit: Option<real>)
  {
    limit.Some? && limit.value != 0.0
  }

  /** The parameters `buildCursor` sets, in order. */
  function CursorParams(cursor: Option<string>, limit: Option<real>, str: real -> string): seq<(string, string)>
  {
    (if HasCursor(cursor) then [("cursor", cursor.value)] else []) + (if HasLimit(limit) then [("limit", str(limit.value))] else [])
  }

  /** One `name=value` pair, both percent-encoded by `encode`. */
  function Pair(p: (string, string), encode: string -> string): (r: string)
    ensures '=' in r
  {
    var r := encode(p.0) + "=" + encode(p.1);
    assert r[|encode(p.0)|] == '=';
    r
  }

  /** `qs.toString()`: the pairs joined by `&`. */
  function QueryString(params: seq<(string, string)>, encode: string -> string): (r: string)
    ensures |params| == 0 <==> r == ""
  {
    if |params| == 0 then ""
    else
      var first := Pair(params[0], encode);
      var s := first + (if |params| > 1 then "&" + QueryString(params[1..], encode) else "");
      assert s[..|first|] == first;
      s
  }

  /** `buildCursor`'s result: `?` and the query string, or "" when nothing was set. */
  function Cursor(cursor: Option<string>, limit: Option<real>, str: real -> string, encode: string -> string): string
  {
    var s := QueryString(CursorParams(cursor, limit, str), encode);
    if s != "" then "?" + s else ""
  }

  /** `buildCursor`: sets the cursor, then the limit, on an empty `URLSearchParams`. */
  method BuildCursor(cursor: Option<string>, limit: Option<real>, str: real -> string, encode: string -> string) returns (r: string)
    ensures r == Cursor(cursor, limit, str, encode)
  {
    var qs: seq<(string, string)> := [];
    if cursor.Some? && cursor.value != "" {
      qs := qs + [("cursor", cursor.value)];
    }
    if limit.Some? && limit.value != 0.0 {
      qs := qs + [("limit", str(limit.value))];
    }
    assert qs == CursorParams(cursor, limit, str);
    var s := QueryString(qs, encode);
    r := if s != "" then "?" + s else "";
  }

  /**
   * The suffix is empty exactly when neither a cursor nor a limit is set;
   * otherwise it is `?` followed by the pairs, the cursor's first.
   */
  lemma CursorSpec(cursor: Option<string>, limit: Option<real>, str: real -> string, encode: string -> string)
    ensures Cursor(cursor, limit, str, encode) == "" <==> !HasCursor(cursor) && !HasLimit(limit)
    ensures HasCursor(cursor) ==>
      StartsWith(Cursor(cursor, limit, str, encode), "?" + encode("cursor") + "=" + encode(cursor.value))
    ensures !HasCursor(cursor) && HasLimit(limit) ==>
      Cursor(cursor, limit, str, encode) == "?" + encode("limit") + "=" + encode(str(limit.value))
    ensures HasCursor(cursor) && HasLimit(limit) ==>
      Cursor(cursor, limit, str, encode) ==
        "?" + encode("cursor") + "=" + encode(cursor.value) + "&" + encode("limit") + "=" + encode(str(limit.value))
  {
    var ps := CursorParams(cursor, limit, str);
    var r := Cursor(cursor, limit, str, encode);
    if HasCursor(cursor) {
      var c := "?" + encode("cursor") + "=" + encode(cursor.value);
      assert ps[0] == ("cursor", cursor.value);
      var rest := if |ps| > 1 then "&" + QueryString(ps[1..], encode) else "";
      assert r == c + rest;
      assert r[..|c|] == c;
      if HasLimit(limit) {
        assert ps[1..] == [("limit", str(limit.value))];
      }
    }
  }
}
