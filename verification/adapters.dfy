/** Adapter execution data, its typed argument accessors and the tool-argument
    validator.

    Go's `any` becomes the tagged `Value` type. Go's map iteration order,
    which decides which of several matching caller keys the validator picks
    up, is a `KeyChooser` parameter; every property below holds for every
    valid chooser. */
module Adapters {
  import opened Wrappers
  import opened Strings

  // ------------------------------------------------------- execution states

  const Queued: string := "Queued"
  const Running: string := "Running"
  const Completed: string := "Completed"
  const Cancelled: string := "Cancelled"
  const Failed: string := "Failed"
  const Unknown: string := "Unknown"

  // ----------------------------------------------------------------- values

  /** The dynamic value behind a Go `any`. JSON decoding yields `Float` for
      every number and `AnyList` for every array; the typed list cases are
      what Go code can put into the map directly. */
  datatype Value =
    | Null
    | Str(s: string)
    | Int(i: int)
    | Float(f: real)
    | Bool(b: bool)
    | StrList(strs: seq<string>)
    | IntList(ints: seq<int>)
    | FloatList(floats: seq<real>)
    | BoolList(bools: seq<bool>)
    | AnyList(items: seq<Value>)
    | Object(fields: map<string, Value>)

  datatype ExecutionData = ExecutionData(
    adapterName: string,
    jobId: string,
    missionId: string,
    threadId: string,
    runId: string,
    arguments: map<string, Value>)

  /** The same data with one argument set. */
  function WithArgument(d: ExecutionData, key: string, v: Value): (r: ExecutionData)
    ensures r.arguments.Keys == d.arguments.Keys + {key}
    ensures key in r.arguments && r.arguments[key] == v
    ensures forall k :: k in d.arguments && k != key ==> r.arguments[k] == d.arguments[k]
  {
    d.(arguments := d.arguments[key := v])
  }

  // -------------------------------------------------------------- accessors

  /** `GetArgument`: the stored value and whether the key is present. */
  function GetArgument(d: ExecutionData, key: string): (r: (Value, bool))
    ensures r.1 <==> key in d.arguments
    ensures r.1 ==> r.0 == d.arguments[key]
    ensures !r.1 ==> r.0 == Null
  {
    if key in d.arguments then (d.arguments[key], true) else (Null, false)
  }

  function GetArgumentValueAsString(d: ExecutionData, key: string): (r: (string, bool))
    ensures r.1 <==> key in d.arguments && d.arguments[key].Str?
    ensures r.1 ==> r.0 == d.arguments[key].s
    ensures !r.1 ==> r.0 == ""
  {
    if key in d.arguments && d.arguments[key].Str? then (d.arguments[key].s, true) else ("", false)
  }

  function GetArgumentValueAsInt(d: ExecutionData, key: string): (r: (int, bool))
    ensures r.1 <==> key in d.arguments && d.arguments[key].Int?
    ensures r.1 ==> r.0 == d.arguments[key].i
    ensures !r.1 ==> r.0 == 0
  {
    if key in d.arguments && d.arguments[key].Int? then (d.arguments[key].i, true) else (0, false)
  }

  function GetArgumentValueAsFloat(d: ExecutionData, key: string): (r: (real, bool))
    ensures r.1 <==> key in d.arguments && d.arguments[key].Float?
    ensures r.1 ==> r.0 == d.arguments[key].f
    ensures !r.1 ==> r.0 == 0.0
  {
    if key in d.arguments && d.arguments[key].Float? then (d.arguments[key].f, true) else (0.0, false)
  }

  function GetArgumentValueAsBool(d: ExecutionData, key: string): (r: (bool, bool))
    ensures r.1 <==> key in d.arguments && d.arguments[key].Bool?
    ensures r.1 ==> r.0 == d.arguments[key].b
    ensures !r.1 ==> !r.0
  {
    if key in d.arguments && d.arguments[key].Bool? then (d.arguments[key].b, true) else (false, false)
  }

  function GetArgumentValueAsArrayString(d: ExecutionData, key: string): (r: (seq<string>, bool))
    ensures r.1 <==> key in d.arguments && d.arguments[key].StrList?
    ensures r.1 ==> r.0 == d.arguments[key].strs
    ensures !r.1 ==> r.0 == []
  {
    if key in d.arguments && d.arguments[key].StrList? then (d.arguments[key].strs, true) else ([], false)
  }

  function GetArgumentValueAsArrayInt(d: ExecutionData, key: string): (r: (seq<int>, bool))
    ensures r.1 <==> key in d.arguments && d.arguments[key].IntList?
    ensures r.1 ==> r.0 == d.arguments[key].ints
    ensures !r.1 ==> r.0 == []
  {
    if key in d.arguments && d.arguments[key].IntList? then (d.arguments[key].ints, true) else ([], false)
  }

  function GetArgumentValueAsArrayFloat(d: ExecutionData, key: string): (r: (seq<real>, bool))
    ensures r.1 <==> key in d.arguments && d.arguments[key].FloatList?
    ensures r.1 ==> r.0 == d.arguments[key].floats
    ensures !r.1 ==> r.0 == []
  {
    if key in d.arguments && d.arguments[key].FloatList? then (d.arguments[key].floats, true) else ([], false)
  }

  function GetArgumentValueAsArrayBool(d: ExecutionData, key: string): (r: (seq<bool>, bool))
    ensures r.1 <==> key in d.arguments && d.arguments[key].BoolList?
    ensures r.1 ==> r.0 == d.arguments[key].bools
    ensures !r.1 ==> r.0 == []
  {
    if key in d.arguments && d.arguments[key].BoolList? then (d.arguments[key].bools, true) else ([], false)
  }

  /** Storing a value of some type and reading it back through the accessor
      of that type gives the value; the accessors of the other types report
      a miss. */
  lemma SetThenGet(d: ExecutionData, key: string, s: string, n: int, x: real, b: bool)
    ensures GetArgument(WithArgument(d, key, Str(s)), key) == (Str(s), true)
    ensures GetArgumentValueAsString(WithArgument(d, key, Str(s)), key) == (s, true)
    ensures GetArgumentValueAsInt(WithArgument(d, key, Int(n)), key) == (n, true)
    ensures GetArgumentValueAsFloat(WithArgument(d, key, Float(x)), key) == (x, true)
    ensures GetArgumentValueAsBool(WithArgument(d, key, Bool(b)), key) == (b, true)
    ensures GetArgumentValueAsArrayString(WithArgument(d, key, StrList([s])), key) == ([s], true)
    ensures GetArgumentValueAsArrayInt(WithArgument(d, key, IntList([n])), key) == ([n], true)
    ensures GetArgumentValueAsArrayFloat(WithArgument(d, key, FloatList([x])), key) == ([x], true)
    ensures GetArgumentValueAsArrayBool(WithArgument(d, key, BoolList([b])), key) == ([b], true)
    ensures GetArgumentValueAsInt(WithArgument(d, key, Float(x)), key) == (0, false)
    ensures GetArgumentValueAsArrayString(WithArgument(d, key, AnyList([Str(s)])), key) == ([], false)
  {
  }

  // ------------------------------------------------------------- parameters

  /** A tool parameter (declared in the NATS tool file, used here). */
  datatype ToolParameter = ToolParameter(
    name: string,
    aliases: seq<string>,
    description: string,
    varType: string,
    required: bool,
    enum: Slice<string>,
    defaultValue: Option<ExecutionData -> Value>)

  /** The spellings a caller key is compared with after lower-casing it: the
      name as declared (not lower-cased) and every alias lower-cased. */
  function AllowedKeys(p: ToolParameter): (r: seq<string>)
    ensures |r| == |p.aliases| + 1 && r[0] == p.name
    ensures forall j :: 0 <= j < |p.aliases| ==> r[j + 1] == Lower(p.aliases[j])
  {
    [p.name] + seq(|p.aliases|, j requires 0 <= j < |p.aliases| => Lower(p.aliases[j]))
  }

  predicate KeyMatches(p: ToolParameter, key: string) {
    Lower(key) in AllowedKeys(p)
  }

  /** The caller keys that match a parameter. */
  function MatchingKeys(p: ToolParameter, args: map<string, Value>): (r: set<string>)
    ensures forall k :: k in r <==> k in args && KeyMatches(p, k)
  {
    set k | k in args && KeyMatches(p, k)
  }

  /** A key matches exactly when its lower-case form is the declared name or
      the lower-case form of some alias. */
  lemma KeyMatchesIff(p: ToolParameter, key: string)
    ensures KeyMatches(p, key) <==>
      Lower(key) == p.name || exists j :: 0 <= j < |p.aliases| && Lower(key) == Lower(p.aliases[j])
  {
    var a := AllowedKeys(p);
    if KeyMatches(p, key) && Lower(key) != p.name {
      var m :| 0 <= m < |a| && a[m] == Lower(key);
      assert m > 0;
      assert Lower(key) == Lower(p.aliases[m - 1]);
    }
    if exists j :: 0 <= j < |p.aliases| && Lower(key) == Lower(p.aliases[j]) {
      var j :| 0 <= j < |p.aliases| && Lower(key) == Lower(p.aliases[j]);
      assert a[j + 1] == Lower(key);
    }
  }

  /** A declared name holding an upper-case letter is never matched through
      itself: with no aliases, no caller key, not even the name, matches. */
  lemma CapitalisedNameNeverMatches(p: ToolParameter, args: map<string, Value>, j: nat)
    requires j < |p.name| && IsUpperAscii(p.name[j])
    requires p.aliases == []
    ensures MatchingKeys(p, args) == {}
  {
    forall k | k in args
      ensures !KeyMatches(p, k)
    {
      LowerHasNoUpper(k);
      assert AllowedKeys(p) == [p.name];
      if j < |Lower(k)| {
        assert !IsUpperAscii(Lower(k)[j]);
      }
      assert Lower(k) != p.name;
    }
  }

  // ------------------------------------------------------------------ types

  /** Whether a value passes the type switch for a declared variable type.
      Types outside the six listed ones are not checked. */
  predicate TypeAccepts(varType: string, v: Value) {
    if varType == "string" then v.Str?
    else if varType == "number" then v.Float?
    else if varType == "boolean" then v.Bool?
    else if varType == "array:string" then v.StrList?
    else if varType == "array:number" then v.FloatList?
    else if varType == "array:boolean" then v.BoolList?
    else true
  }

  /** The type name used in the error message; "array:boolean" is reported as "array:bool". */
  function TypeErrorName(varType: string): (r: string)
    ensures varType != "array:boolean" ==> r == varType
  {
    if varType == "array:boolean" then "array:bool" else varType
  }

  /** Numbers only pass as `float64`, arrays only as the exact typed slice:
      integers fail "number" and a decoded JSON array fails every array type. */
  lemma TypeAcceptanceTable(v: Value, vs: seq<Value>, t: string)
    ensures v.Int? ==> !TypeAccepts("number", v)
    ensures !TypeAccepts("array:string", AnyList(vs))
    ensures !TypeAccepts("array:number", AnyList(vs))
    ensures !TypeAccepts("array:boolean", AnyList(vs))
    ensures !TypeAccepts("array:number", IntList([]))
    ensures t !in {"string", "number", "boolean", "array:string", "array:number", "array:boolean"} ==>
      TypeAccepts(t, v)
  {
  }

  // ------------------------------------------------------------- validation

  datatype ArgumentError =
    | NotValidType(key: string, typeName: string)
    | NotInEnum(key: string, allowed: seq<string>)

  /** The Go error text; `%v` of a string slice prints it space-separated in brackets. */
  function ErrorMessage(e: ArgumentError): string {
    match e
    case NotValidType(key, t) => "argument(" + key + ") is not a valid " + t
    case NotInEnum(key, allowed) => "argument(" + key + ") is not in the enum([" + Join(allowed, " ") + "])"
  }

  /** The three results of `ValidateToolArguments`: the (possibly updated) data,
      the verdict and the error. */
  datatype Validated = Validated(data: ExecutionData, valid: bool, err: Option<ArgumentError>)

  /** The state after one parameter: go on with the next, or stop with an error. */
  datatype Step = Next(data: ExecutionData) | Stop(data: ExecutionData, err: ArgumentError)

  /** `Arguments[key]` replaced by the parameter's default, computed from the current data. */
  function SubstituteDefault(p: ToolParameter, d: ExecutionData, key: string): (r: ExecutionData)
    requires p.defaultValue.Some?
    ensures r == WithArgument(d, key, p.defaultValue.value(d))
  {
    WithArgument(d, key, p.defaultValue.value(d))
  }

  /** The value under the caller's key copied to the parameter's declared name. */
  function CopyToName(p: ToolParameter, d: ExecutionData, key: string): (r: ExecutionData)
    requires key in d.arguments
    ensures r.arguments.Keys == d.arguments.Keys + {p.name}
    ensures r.arguments[p.name] == d.arguments[key]
    ensures forall k :: k in d.arguments && k != p.name ==> r.arguments[k] == d.arguments[k]
  {
    WithArgument(d, p.name, d.arguments[key])
  }

  /** The type check of one matched parameter (first half of the loop body). */
  function CheckType(p: ToolParameter, d: ExecutionData, key: string, value: Value): Step {
    if TypeAccepts(p.varType, value) then Next(d)
    else if p.defaultValue.Some? then Next(SubstituteDefault(p, d, key))
    else Stop(d, NotValidType(key, TypeErrorName(p.varType)))
  }

  /** One matched parameter: type check, enum check on the caller's original
      value (a non-string value there is a failed type assertion), then the
      copy to the declared name. */
  function ProcessParameter(p: ToolParameter, d: ExecutionData, key: string): (r: Run<Step>)
    requires key in d.arguments
  {
    var value := d.arguments[key];
    match CheckType(p, d, key, value)
    case Stop(d1, e) => Done(Stop(d1, e))
    case Next(d1) =>
      if |p.enum.Elements()| > 0 && p.varType == "string" then
        if !value.Str? then Panic("interface conversion: interface {} is not string")
        else if value.s in p.enum.Elements() then Done(Next(CopyToName(p, d1, key)))
        else if p.defaultValue.Some? then Done(Next(CopyToName(p, SubstituteDefault(p, d1, key), key)))
        else Done(Stop(d1, NotInEnum(key, p.enum.Elements())))
      else
        assert key in d1.arguments;
        Done(Next(CopyToName(p, d1, key)))
  }

  /** Chooses, for the `i`-th parameter, which of the matching keys Go's map
      iteration reaches first. */
  type KeyChooser = (nat, set<string>) -> string

  ghost predicate ValidChooser(pick: KeyChooser) {
    forall i: nat, ks: set<string> {:trigger pick(i, ks)} :: ks != {} ==> pick(i, ks) in ks
  }

  /** The key processed for parameter `i`, if any caller key matches it. */
  function ChosenKey(ps: seq<ToolParameter>, d: ExecutionData, pick: KeyChooser, i: nat): (r: Option<string>)
    requires ValidChooser(pick) && i < |ps|
    ensures r.None? <==> MatchingKeys(ps[i], d.arguments) == {}
    ensures r.Some? ==> r.value in d.arguments && KeyMatches(ps[i], r.value)
  {
    var ks := MatchingKeys(ps[i], d.arguments);
    if ks == {} then None else Some(pick(i, ks))
  }

  /** Reference definition of the validator: the parameters from index `i` on,
      one after the other, stopping at the first error or panic. */
  function ValidateFrom(ps: seq<ToolParameter>, d: ExecutionData, pick: KeyChooser, i: nat): Run<Validated>
    requires ValidChooser(pick) && i <= |ps|
    decreases |ps| - i
  {
    if i == |ps| then Done(Validated(d, true, None))
    else
      match ChosenKey(ps, d, pick, i)
      case None => ValidateFrom(ps, d, pick, i + 1)
      case Some(key) =>
        match ProcessParameter(ps[i], d, key)
        case Panic(why) => Panic(why)
        case Done(Stop(d1, e)) => Done(Validated(d1, false, Some(e)))
        case Done(Next(d1)) => ValidateFrom(ps, d1, pick, i + 1)
  }

  /** `ValidateToolArguments` for a tool with parameters `ps`. */
  method ValidateToolArguments(ps: seq<ToolParameter>, jobData: ExecutionData, pick: KeyChooser)
    returns (r: Run<Validated>)
    requires ValidChooser(pick)
    ensures r == ValidateFrom(ps, jobData, pick, 0)
  {
    var d := jobData;
    var i := 0;
    while i < |ps|
      invariant 0 <= i <= |ps|
      invariant ValidateFrom(ps, d, pick, i) == ValidateFrom(ps, jobData, pick, 0)
    {
      var p := ps[i];
      var candidates := MatchingKeys(p, d.arguments);
      if candidates != {} {
        var key := pick(i, candidates);
        var outcome := ProcessParameter(p, d, key);
        if outcome.Panic? {
          return Panic(outcome.reason);
        }
        if outcome.value.Stop? {
          return Done(Validated(outcome.value.data, false, Some(outcome.value.err)));
        }
        d := outcome.value.data;
      }
      i := i + 1;
    }
    return Done(Validated(d, true, None));
  }

  // ------------------------------------------------------ validator properties

  /** No caller key is ever removed, and every key added is a parameter's
      declared name; a successful run reports no error. */
  lemma {:induction false} ValidateKeepsCallerKeys(ps: seq<ToolParameter>, d: ExecutionData, pick: KeyChooser, i: nat)
    requires ValidChooser(pick) && i <= |ps|
    ensures ValidateFrom(ps, d, pick, i).Done? ==>
      var v := ValidateFrom(ps, d, pick, i).value;
      d.arguments.Keys <= v.data.arguments.Keys &&
      (forall k :: k in v.data.arguments && k !in d.arguments ==> exists j :: i <= j < |ps| && ps[j].name == k) &&
      (v.valid <==> v.err.None?)
    decreases |ps| - i
  {
    if i < |ps| {
      var key := ChosenKey(ps, d, pick, i);
      if key.Some? {
        var out := ProcessParameter(ps[i], d, key.value);
        if out.Done? && out.value.Next? {
          var d1 := out.value.data;
          ValidateKeepsCallerKeys(ps, d1, pick, i + 1);
          ProcessKeys(ps[i], d, key.value);
        }
        if out.Done? && out.value.Stop? {
          ProcessKeys(ps[i], d, key.value);
        }
      } else {
        ValidateKeepsCallerKeys(ps, d, pick, i + 1);
      }
    }
  }

  /** One parameter adds at most its declared name and removes nothing. */
  lemma ProcessKeys(p: ToolParameter, d: ExecutionData, key: string)
    requires key in d.arguments
    ensures ProcessParameter(p, d, key).Done? ==>
      d.arguments.Keys <= ProcessParameter(p, d, key).value.data.arguments.Keys <= d.arguments.Keys + {p.name}
  {
  }

  /** Parameters that no caller key matches, required or not, are skipped:
      the data comes back unchanged and valid. */
  lemma {:induction false} UnmatchedParametersAreSkipped(ps: seq<ToolParameter>, d: ExecutionData, pick: KeyChooser, i: nat)
    requires ValidChooser(pick) && i <= |ps|
    requires forall j :: i <= j < |ps| ==> MatchingKeys(ps[j], d.arguments) == {}
    ensures ValidateFrom(ps, d, pick, i) == Done(Validated(d, true, None))
    decreases |ps| - i
  {
    if i < |ps| {
      UnmatchedParametersAreSkipped(ps, d, pick, i + 1);
    }
  }

  /** A missing required parameter is accepted. */
  lemma MissingRequiredAccepted(p: ToolParameter, d: ExecutionData, pick: KeyChooser)
    requires ValidChooser(pick)
    requires p.required && MatchingKeys(p, d.arguments) == {}
    ensures ValidateFrom([p], d, pick, 0) == Done(Validated(d, true, None))
  {
    UnmatchedParametersAreSkipped([p], d, pick, 0);
  }

  /** The outcome of a single matched parameter, whichever matching key is
      chosen: the three ways it can fail, the copy to the declared name, and
      the default stored under both keys when the value is rejected. */
  lemma SingleParameterOutcome(p: ToolParameter, d: ExecutionData, pick: KeyChooser)
    requires ValidChooser(pick)
    requires MatchingKeys(p, d.arguments) != {}
    ensures var key := pick(0, MatchingKeys(p, d.arguments));
      var value := d.arguments[key];
      var r := ValidateFrom([p], d, pick, 0);
      var allowed := p.enum.Elements();
      var enumChecked := |allowed| > 0 && p.varType == "string";
      (r.Panic? <==> enumChecked && !value.Str? && p.defaultValue.Some?) &&
      (r == Done(Validated(d, false, Some(NotValidType(key, TypeErrorName(p.varType))))) <==>
        !TypeAccepts(p.varType, value) && p.defaultValue.None?) &&
      (r == Done(Validated(d, false, Some(NotInEnum(key, allowed)))) <==>
        enumChecked && value.Str? && value.s !in allowed && p.defaultValue.None?) &&
      (TypeAccepts(p.varType, value) && (!enumChecked || value.s in allowed) ==>
        r == Done(Validated(CopyToName(p, d, key), true, None)))
    ensures var key := pick(0, MatchingKeys(p, d.arguments));
      var value := d.arguments[key];
      var r := ValidateFrom([p], d, pick, 0);
      var enumChecked := |p.enum.Elements()| > 0 && p.varType == "string";
      var rejected := !TypeAccepts(p.varType, value) || (enumChecked && value.Str? && value.s !in p.enum.Elements());
      rejected && p.defaultValue.Some? && !r.Panic? ==>
        r == Done(Validated(CopyToName(p, SubstituteDefault(p, d, key), key), true, None)) &&
        r.value.data.arguments[key] == p.defaultValue.value(d) &&
        r.value.data.arguments[p.name] == p.defaultValue.value(d)
  {
    var ks := MatchingKeys(p, d.arguments);
    var key := pick(0, ks);
    assert ChosenKey([p], d, pick, 0) == Some(key);
    var out := ProcessParameter(p, d, key);
    if out.Done? && out.value.Next? {
      assert ValidateFrom([p], out.value.data, pick, 1) == Done(Validated(out.value.data, true, None));
    }
  }

  /** On failure the reported key is one the caller supplied. */
  lemma {:induction false} ErrorNamesCallerKey(ps: seq<ToolParameter>, d: ExecutionData, pick: KeyChooser, i: nat)
    requires ValidChooser(pick) && i <= |ps|
    ensures var r := ValidateFrom(ps, d, pick, i);
      r.Done? && r.value.err.Some? ==> r.value.err.value.key in r.value.data.arguments
    decreases |ps| - i
  {
    if i < |ps| {
      var key := ChosenKey(ps, d, pick, i);
      if key.Some? {
        var out := ProcessParameter(ps[i], d, key.value);
        if out.Done? && out.value.Next? {
          ErrorNamesCallerKey(ps, out.value.data, pick, i + 1);
        }
      } else {
        ErrorNamesCallerKey(ps, d, pick, i + 1);
      }
    }
  }

  /** The caller spells the key "Query" for a parameter declared as "query":
      the value is copied to "query" and the caller's "Query" is kept. */
  lemma AliasExample(pick: KeyChooser)
    requires ValidChooser(pick)
    ensures var p := ToolParameter("query", [], "", "string", true, Nil, None);
      var d := ExecutionData("search", "job", "", "", "", map["Query" := Str("dafny")]);
      ValidateFrom([p], d, pick, 0) ==
        Done(Validated(d.(arguments := map["Query" := Str("dafny"), "query" := Str("dafny")]), true, None))
  {
    var p := ToolParameter("query", [], "", "string", true, Nil, None);
    var d := ExecutionData("search", "job", "", "", "", map["Query" := Str("dafny")]);
    assert Lower("Query") == "query";
    assert MatchingKeys(p, d.arguments) == {"Query"};
    SingleParameterOutcome(p, d, pick);
  }
}
