/** Prompt templates: variable tags (`<aic:var name=".." default=".." options=".."/>`)
    and prompt references (`<aic:prompt id="..@N" key=value .../>`) inside
    prompt text.

    The two tag patterns are matched by regular expressions in the program;
    here a template arrives already cut into segments, each tag carrying the
    parts its pattern captures and the raw text it matched. One cut serves
    both patterns. That is exact when no match of one pattern lies inside a
    match of the other; the prompt pattern's attribute text may hold `<` and
    `"`, so a prompt tag can enclose a variable tag, and such text has no
    single cut. */
module PromptTemplates {
  import opened Wrappers
  import opened Strings
  import opened Seqs
  import opened AgentPrompts

  datatype Segment =
    | Literal(text: string)
      /** `default` and `options` are "" when the optional attribute is absent. */
    | VarTag(raw: string, name: string, default: string, options: string)
      /** `version` holds the digits after `@`, "" when there are none;
          `attrs` is the text between the id and the closing `/>`. */
    | PromptTag(raw: string, id: string, version: string, attrs: string)

  type Template = seq<Segment>

  /** What the patterns guarantee of their captures: a variable name is
      non-empty and quote-free, a prompt id is non-empty and holds neither `"`
      nor `@`, and a version is a run of ASCII digits. */
  predicate WellFormed(t: Template) {
    forall i :: 0 <= i < |t| ==> SegmentWellFormed(t[i])
  }

  predicate SegmentWellFormed(s: Segment) {
    match s
    case Literal(_) => true
    case VarTag(_, name, _, _) => name != "" && '"' !in name
    case PromptTag(_, id, version, _) => id != "" && '"' !in id && '@' !in id && AllDigits(version)
  }

  /** The text a segment came from. */
  function Raw(s: Segment): string {
    if s.Literal? then s.text else s.raw
  }

  /** The template's original text. */
  function Text(t: Template): string {
    FlatMap(t, Raw)
  }

  // ---------------------------------------------------------- variables

  datatype PromptVariable = PromptVariable(name: string, default: string, options: Slice<string>)

  predicate IsVarTag(s: Segment) {
    s.VarTag?
  }

  /** The variable a tag declares: options stay nil when the attribute is
      empty or absent, and are otherwise split at every comma. */
  function ToVariable(s: Segment): (v: PromptVariable)
    requires s.VarTag?
    ensures v.name == s.name && v.default == s.default
    ensures v.options.Nil? <==> s.options == ""
    ensures Join(v.options.Elements(), ",") == s.options
  {
    JoinSplit(s.options, ',');
    PromptVariable(s.name, s.default, if s.options == "" then Nil else Slice(Split(s.options, ',')))
  }

  /** `ExtractVariables`: one entry per variable tag, in template order. */
  function ExtractVariables(t: Template): (r: seq<PromptVariable>)
    ensures var tags := Filter(t, IsVarTag);
      |r| == |tags| && forall i :: 0 <= i < |r| ==> r[i] == ToVariable(tags[i])
    decreases |t|
  {
    if t == [] then []
    else
      var init := ExtractVariables(t[..|t| - 1]);
      var last := t[|t| - 1];
      assert t == t[..|t| - 1] + [last];
      FilterAppend(t[..|t| - 1], [last], IsVarTag);
      if last.VarTag? then init + [ToVariable(last)] else init
  }

  /** Every extracted entry comes from a variable tag, and every tag gives one. */
  lemma ExtractVariablesMembership(t: Template, v: PromptVariable)
    ensures v in ExtractVariables(t) <==> exists i :: 0 <= i < |t| && t[i].VarTag? && ToVariable(t[i]) == v
  {
    var r := ExtractVariables(t);
    if v in r {
      var j :| 0 <= j < |r| && r[j] == v;
      EntryFromTag(t, j);
    }
    if exists i :: 0 <= i < |t| && t[i].VarTag? && ToVariable(t[i]) == v {
      var i :| 0 <= i < |t| && t[i].VarTag? && ToVariable(t[i]) == v;
      TagGivesEntry(t, i);
    }
  }

  /** Each extracted entry is declared by some variable tag of the template. */
  lemma EntryFromTag(t: Template, j: nat)
    requires j < |ExtractVariables(t)|
    ensures exists i :: 0 <= i < |t| && t[i].VarTag? && ToVariable(t[i]) == ExtractVariables(t)[j]
  {
    var tags := Filter(t, IsVarTag);
    FilterMembership(t, IsVarTag, tags[j]);
    var i :| 0 <= i < |t| && t[i] == tags[j];
  }

  /** Every variable tag of the template gives an entry. */
  lemma TagGivesEntry(t: Template, i: nat)
    requires i < |t| && t[i].VarTag?
    ensures ToVariable(t[i]) in ExtractVariables(t)
  {
    var tags := Filter(t, IsVarTag);
    FilterMembership(t, IsVarTag, t[i]);
    var j :| 0 <= j < |tags| && tags[j] == t[i];
    assert ExtractVariables(t)[j] == ToVariable(t[i]);
  }

  /** As many entries as variable tags, repeated tags included. */
  lemma ExtractVariablesCount(t: Template)
    ensures |ExtractVariables(t)| == |Filter(t, IsVarTag)|
  {
  }

  /** The text a variable tag turns into: the caller's value when there is
      one, else a non-empty default, else a marker naming the variable. */
  function VarValue(name: string, default: string, values: map<string, string>): (r: string)
    ensures name in values ==> r == values[name]
    ensures name !in values && default != "" ==> r == default
    ensures name !in values && default == "" ==> r == "[Missing value for " + name + "]"
  {
    if name in values then values[name]
    else if default != "" then default
    else "[Missing value for " + name + "]"
  }

  function ReplaceSegment(s: Segment, values: map<string, string>): string {
    if s.VarTag? then VarValue(s.name, s.default, values) else Raw(s)
  }

  /** `ReplaceVariables`: every variable tag replaced by its value; all other
      text, prompt tags included, is kept as it is. */
  function ReplaceVariables(t: Template, values: map<string, string>): string {
    FlatMap(t, Replacer(values))
  }

  function Replacer(values: map<string, string>): Segment -> string {
    (s: Segment) => ReplaceSegment(s, values)
  }

  /** Replacement works piece by piece. */
  lemma ReplaceVariablesAppend(a: Template, b: Template, values: map<string, string>)
    ensures ReplaceVariables(a + b, values) == ReplaceVariables(a, values) + ReplaceVariables(b, values)
  {
    FlatMapAppend(a, b, Replacer(values));
  }

  /** A text without variable tags comes back unchanged. */
  lemma ReplaceVariablesIdentity(t: Template, values: map<string, string>)
    requires forall i :: 0 <= i < |t| ==> !t[i].VarTag?
    ensures ReplaceVariables(t, values) == Text(t)
  {
    FlatMapAgree(t, Replacer(values), Raw);
  }

  /** Only the values of names that occur in variable tags matter. */
  lemma ReplaceVariablesLocal(t: Template, values: map<string, string>, other: map<string, string>)
    requires forall i :: 0 <= i < |t| && t[i].VarTag? ==>
      (t[i].name in values <==> t[i].name in other) &&
      (t[i].name in values ==> values[t[i].name] == other[t[i].name])
    ensures ReplaceVariables(t, values) == ReplaceVariables(t, other)
  {
    FlatMapAgree(t, Replacer(values), Replacer(other));
  }

  // ------------------------------------------------------ key/value pairs

  /** One attribute word `key=value`, split at its first `=`, with every
      leading and trailing `"` trimmed from both halves; None without `=`. */
  function Pair(part: string): (r: Option<(string, string)>)
    ensures r.None? <==> '=' !in part
  {
    match CutAtChar(part, '=')
    case None => None
    case Some((k, v)) => Some((Trim(k, '"'), Trim(v, '"')))
  }

  /** `parseKeyValuePairs`: the attribute text split at white space, each
      `key=value` word assigned in order, so a repeated key keeps its last value. */
  function ParseKeyValuePairs(s: string): map<string, string> {
    AssignAll(Fields(s), Pair)
  }

  /** A key is parsed exactly when some word assigns it, and it keeps the
      value of the last such word. */
  lemma ParseKeyValuePairsLastWins(s: string, k: string)
    ensures var parts := Fields(s);
      (k in ParseKeyValuePairs(s) <==> exists i :: 0 <= i < |parts| && AssignsKey(Pair, parts[i], k)) &&
      (k in ParseKeyValuePairs(s) ==>
        exists i :: 0 <= i < |parts| && AssignsKey(Pair, parts[i], k) && ParseKeyValuePairs(s)[k] == Pair(parts[i]).value.1 &&
          forall j :: i < j < |parts| ==> !AssignsKey(Pair, parts[j], k))
  {
    AssignAllLastWins(Fields(s), Pair, k);
  }

  /** A word that survives splitting and trimming untouched. */
  predicate Plain(w: string) {
    NoSpace(w) && '"' !in w && '=' !in w
  }

  function Attribute(kv: (string, string)): string {
    kv.0 + "=" + kv.1
  }

  lemma PairOfAttribute(kv: (string, string))
    requires Plain(kv.0) && Plain(kv.1)
    ensures Pair(Attribute(kv)) == Some(kv)
  {
    assert Attribute(kv) == kv.0 + ['='] + kv.1;
    CutAtCharOfPair(kv.0, '=', kv.1);
    TrimAbsent(kv.0, '"');
    TrimAbsent(kv.1, '"');
  }

  function Attributes(kvs: seq<(string, string)>): (r: seq<string>)
    ensures |r| == |kvs|
  {
    Map(kvs, Attribute)
  }

  function SomePair(kv: (string, string)): Option<(string, string)> {
    Some(kv)
  }

  lemma AssignAttributes(kvs: seq<(string, string)>)
    requires forall i :: 0 <= i < |kvs| ==> Plain(kvs[i].0) && Plain(kvs[i].1)
    ensures AssignAll(Attributes(kvs), Pair) == AssignAll(kvs, SomePair)
  {
    forall i | 0 <= i < |kvs|
      ensures Pair(Attribute(kvs[i])) == SomePair(kvs[i])
    {
      PairOfAttribute(kvs[i]);
    }
    AssignAllMap(kvs, Attribute, Pair, SomePair);
  }

  /** Parsing undoes writing `k=v` words separated by single spaces, as long as
      keys and values hold no space, quote or `=`: the result is the map the
      pairs build when assigned in order. */
  lemma ParseKeyValuePairsRoundTrip(kvs: seq<(string, string)>)
    requires forall i :: 0 <= i < |kvs| ==> Plain(kvs[i].0) && Plain(kvs[i].1)
    ensures ParseKeyValuePairs(Join(Attributes(kvs), " ")) == AssignAll(kvs, SomePair)
  {
    var ws := Attributes(kvs);
    forall k | 0 <= k < |ws|
      ensures ws[k] != [] && NoSpace(ws[k])
    {
      AttributeWord(kvs, k);
    }
    FieldsOfJoin(ws);
    AssignAttributes(kvs);
  }

  lemma AttributeWord(kvs: seq<(string, string)>, k: nat)
    requires forall i :: 0 <= i < |kvs| ==> Plain(kvs[i].0) && Plain(kvs[i].1)
    requires k < |kvs|
    ensures Attributes(kvs)[k] == Attribute(kvs[k])
    ensures Attributes(kvs)[k] != [] && NoSpace(Attributes(kvs)[k])
  {
    var w := Attribute(kvs[k]);
    assert w[|kvs[k].0|] == '=';
    forall j | 0 <= j < |w|
      ensures !IsSpace(w[j])
    {
      if j < |kvs[k].0| {
        assert w[j] == kvs[k].0[j];
      } else if j > |kvs[k].0| {
        assert w[j] == kvs[k].1[j - |kvs[k].0| - 1];
      }
    }
  }

  /** Quoted values are not kept together: the word after a space inside the
      quotes has no `=` and is dropped. */
  lemma QuotedSpaceSplits()
    ensures ParseKeyValuePairs("name=\"John Smith\"") == map["name" := "John"]
  {
    QuotedSpaceFields();
    QuotedSpacePairs();
    AssignPairThenWord("name=\"John", "Smith\"", ("name", "John"));
  }

  lemma AssignPairThenWord(w1: string, w2: string, kv: (string, string))
    requires Pair(w1) == Some(kv) && Pair(w2) == None
    ensures AssignAll([w1, w2], Pair) == map[kv.0 := kv.1]
  {
    var ws := [w1, w2];
    assert ws[..1] == [w1] && ws[1] == w2;
    assert [w1][..0] == [];
    assert AssignAll([w1], Pair) == AssignAll([], Pair)[kv.0 := kv.1];
    assert AssignAll(ws, Pair) == AssignAll([w1], Pair);
  }

  lemma QuotedSpacePairs()
    ensures Pair("name=\"John") == Some(("name", "John"))
    ensures Pair("Smith\"") == None
  {
    QuotedSpaceCut();
    QuotedSpaceTrim();
    PairOfCut("name=\"John", "name", "\"John");
    QuotedSpaceNoPair();
  }

  lemma QuotedSpaceNoPair()
    ensures Pair("Smith\"") == None
  {
    var w2 := "Smith\"";
    assert forall i :: 0 <= i < |w2| ==> w2[i] != '=';
  }

  lemma PairOfCut(part: string, k: string, v: string)
    requires CutAtChar(part, '=') == Some((k, v))
    ensures Pair(part) == Some((Trim(k, '"'), Trim(v, '"')))
  {
  }

  lemma QuotedSpaceCut()
    ensures CutAtChar("name=\"John", '=') == Some(("name", "\"John"))
  {
    assert "name=\"John" == "name" + ['='] + "\"John";
    CutAtCharOfPair("name", '=', "\"John");
  }

  lemma QuotedSpaceTrim()
    ensures Trim("name", '"') == "name" && Trim("\"John", '"') == "John"
  {
    TrimAbsent("name", '"');
    var q, j := "\"John", "John";
    assert q[0] == '"' && q[1..] == j;
    assert j[0] != '"' && j[|j| - 1] != '"';
    assert TrimLeft(j, '"') == j;
    assert TrimLeft(q, '"') == j;
    assert TrimRight(j, '"') == j;
  }

  lemma QuotedSpaceFields()
    ensures Fields("name=\"John Smith\"") == ["name=\"John", "Smith\""]
  {
    var w1, w2 := "name=\"John", "Smith\"";
    assert "name=\"John Smith\"" == Join([w1, w2], " ");
    assert NoSpace(w1) && NoSpace(w2);
    FieldsOfJoin([w1, w2]);
  }

  // ------------------------------------------------------ prompt references

  /** The reference one prompt tag describes: its version under "version"
      when it names one, then the attribute pairs, which win over it. */
  function Reference(s: Segment): (r: map<string, string>)
    requires s.PromptTag?
    ensures "version" in r <==> s.version != "" || "version" in ParseKeyValuePairs(s.attrs)
    ensures "version" in r && "version" !in ParseKeyValuePairs(s.attrs) ==> r["version"] == s.version
    ensures forall k :: k in ParseKeyValuePairs(s.attrs) ==> k in r && r[k] == ParseKeyValuePairs(s.attrs)[k]
    ensures forall k :: k in r ==> k == "version" || k in ParseKeyValuePairs(s.attrs)
  {
    (if s.version != "" then map["version" := s.version] else map[]) + ParseKeyValuePairs(s.attrs)
  }

  function ReferenceEntry(s: Segment): Option<(string, map<string, string>)> {
    if s.PromptTag? then Some((s.id, Reference(s))) else None
  }

  /** `ExtractPromptReferences`: for every referenced prompt id, the reference
      of the last tag naming it. */
  function ExtractPromptReferences(t: Template): (r: map<string, map<string, string>>)
    ensures forall id :: id in r <==> exists i :: 0 <= i < |t| && t[i].PromptTag? && t[i].id == id
    ensures forall id :: id in r ==>
      exists i :: 0 <= i < |t| && t[i].PromptTag? && t[i].id == id && r[id] == Reference(t[i]) &&
        forall j :: i < j < |t| ==> !(t[j].PromptTag? && t[j].id == id)
  {
    forall id
      ensures id in AssignAll(t, ReferenceEntry) <==> exists i :: 0 <= i < |t| && t[i].PromptTag? && t[i].id == id
      ensures id in AssignAll(t, ReferenceEntry) ==>
        exists i :: 0 <= i < |t| && t[i].PromptTag? && t[i].id == id && AssignAll(t, ReferenceEntry)[id] == Reference(t[i]) &&
          forall j :: i < j < |t| ==> !(t[j].PromptTag? && t[j].id == id)
    {
      AssignAllLastWins(t, ReferenceEntry, id);
      assert forall i :: 0 <= i < |t| ==> (AssignsKey(ReferenceEntry, t[i], id) <==> t[i].PromptTag? && t[i].id == id);
    }
    AssignAll(t, ReferenceEntry)
  }

  /** The largest value of Go's `int`. */
  const MaxInt: int := 0x7fff_ffff_ffff_ffff

  /** `fmt.Sscanf(digits, "%d", &n)` with `n` starting at 0: a value that does
      not fit in `int` is an error and leaves `n` at 0. */
  function ScanInt(digits: string): (n: int)
    requires AllDigits(digits)
    ensures 0 <= n <= MaxInt
    ensures n == if DecimalValue(digits) <= MaxInt then DecimalValue(digits) else 0
  {
    var v := DecimalValue(digits);
    if v <= MaxInt then v else 0
  }

  /** The version number a tag asks for; 0 means the latest. */
  function RequestedVersion(s: Segment): int
    requires s.PromptTag? && AllDigits(s.version)
  {
    if s.version == "" then 0 else ScanInt(s.version)
  }

  /** What one prompt tag becomes: a marker for an unknown prompt or version,
      otherwise the requested version's content with the tag's attribute
      pairs filled in as variable values. A tag asking for the latest
      version of a prompt without versions panics. `tokenize` cuts a
      version's content into segments. */
  function ResolveTag(s: Segment, prompts: map<string, AgentPrompt>, tokenize: string -> Template): (r: Run<string>)
    requires s.PromptTag? && AllDigits(s.version)
    ensures r.Panic? <==> s.id in prompts && RequestedVersion(s) == 0 && prompts[s.id].versions == []
    ensures s.id !in prompts ==> r == Done("[Prompt not found: " + s.id + "]")
    ensures s.id in prompts && r.Done? ==>
      match GetVersion(prompts[s.id], RequestedVersion(s))
      case Done(None) => r.value == "[Version not found for prompt: " + s.id + "@" + s.version + "]"
      case Done(Some(pv)) => r.value == ReplaceVariables(tokenize(pv.content), ParseKeyValuePairs(s.attrs))
      case Panic(_) => false
  {
    if s.id !in prompts then Done("[Prompt not found: " + s.id + "]")
    else
      match GetVersion(prompts[s.id], RequestedVersion(s))
      case Panic(m) => Panic(m)
      case Done(None) => Done("[Version not found for prompt: " + s.id + "@" + s.version + "]")
      case Done(Some(pv)) => Done(ReplaceVariables(tokenize(pv.content), ParseKeyValuePairs(s.attrs)))
  }

  function ResolveSegment(s: Segment, prompts: map<string, AgentPrompt>, tokenize: string -> Template): Run<string>
    requires SegmentWellFormed(s)
  {
    if s.PromptTag? then ResolveTag(s, prompts, tokenize) else Done(Raw(s))
  }

  /** Whether resolving segment `s` panics. */
  predicate PanicsOn(s: Segment, prompts: map<string, AgentPrompt>) {
    s.PromptTag? && AllDigits(s.version) && s.id in prompts && RequestedVersion(s) == 0 && prompts[s.id].versions == []
  }

  /** Each segment's outcome, in template order. */
  function Pieces(t: Template, prompts: map<string, AgentPrompt>, tokenize: string -> Template): (r: seq<Run<string>>)
    requires WellFormed(t)
    ensures |r| == |t| && forall i :: 0 <= i < |t| ==> r[i] == ResolveSegment(t[i], prompts, tokenize)
    decreases |t|
  {
    if t == [] then []
    else
      WellFormedPrefix(t, |t| - 1);
      Pieces(t[..|t| - 1], prompts, tokenize) + [ResolveSegment(t[|t| - 1], prompts, tokenize)]
  }

  /** The outcomes joined left to right; the first panic ends the walk, as
      a panic in Go's replacement callback does. */
  function Concat(ps: seq<Run<string>>): Run<string>
    decreases |ps|
  {
    if ps == [] then Done("")
    else
      match Concat(ps[..|ps| - 1])
      case Panic(m) => Panic(m)
      case Done(text) =>
        match ps[|ps| - 1]
        case Panic(m) => Panic(m)
        case Done(piece) => Done(text + piece)
  }

  lemma {:induction false} ConcatPanics(ps: seq<Run<string>>)
    ensures Concat(ps).Panic? <==> exists i :: 0 <= i < |ps| && ps[i].Panic?
    decreases |ps|
  {
    if ps != [] {
      var init := ps[..|ps| - 1];
      ConcatPanics(init);
      assert forall i :: 0 <= i < |init| ==> init[i] == ps[i];
    }
  }

  lemma {:induction false} ConcatAppend(xs: seq<Run<string>>, ys: seq<Run<string>>)
    ensures Concat(xs).Done? && Concat(ys).Done? ==> Concat(xs + ys) == Done(Concat(xs).value + Concat(ys).value)
    decreases |ys|
  {
    if ys == [] {
      assert xs + ys == xs;
      assert Concat(xs).Done? ==> Concat(xs).value + "" == Concat(xs).value;
    } else {
      var yinit := ys[..|ys| - 1];
      ConcatAppend(xs, yinit);
      assert (xs + ys)[..|xs + ys| - 1] == xs + yinit;
      if Concat(xs).Done? && Concat(ys).Done? {
        var x, yi, y := Concat(xs).value, Concat(yinit).value, ys[|ys| - 1].value;
        assert Concat(ys).value == yi + y;
        assert Concat(xs + ys) == Done((x + yi) + y);
        assert (x + yi) + y == x + (yi + y);
      }
    }
  }

  /** The segments resolved left to right. */
  function ResolveAll(t: Template, prompts: map<string, AgentPrompt>, tokenize: string -> Template): Run<string>
    requires WellFormed(t)
  {
    Concat(Pieces(t, prompts, tokenize))
  }

  /** Resolution panics exactly when some tag asks for the latest version of
      a known prompt that has none. */
  lemma ResolveAllPanics(t: Template, prompts: map<string, AgentPrompt>, tokenize: string -> Template)
    requires WellFormed(t)
    ensures ResolveAll(t, prompts, tokenize).Panic? <==> exists i :: 0 <= i < |t| && PanicsOn(t[i], prompts)
  {
    var ps := Pieces(t, prompts, tokenize);
    ConcatPanics(ps);
    forall i | 0 <= i < |t|
      ensures ps[i].Panic? <==> PanicsOn(t[i], prompts)
    {
      assert SegmentWellFormed(t[i]);
    }
  }

  /** `ReplacePromptReferences`: every prompt tag resolved; the error result is always nil. */
  function ReplacePromptReferences(t: Template, prompts: map<string, AgentPrompt>, tokenize: string -> Template): (r: Run<(string, Option<string>)>)
    requires WellFormed(t)
    ensures r.Panic? <==> exists i :: 0 <= i < |t| && PanicsOn(t[i], prompts)
    ensures r.Done? ==> r.value.1.None? && ResolveAll(t, prompts, tokenize) == Done(r.value.0)
  {
    ResolveAllPanics(t, prompts, tokenize);
    match ResolveAll(t, prompts, tokenize)
    case Panic(m) => Panic(m)
    case Done(text) => Done((text, None))
  }

  lemma WellFormedAppend(a: Template, b: Template)
    requires WellFormed(a) && WellFormed(b)
    ensures WellFormed(a + b)
  {
    forall i | 0 <= i < |a + b|
      ensures SegmentWellFormed((a + b)[i])
    {
      if i < |a| { assert (a + b)[i] == a[i]; } else { assert (a + b)[i] == b[i - |a|]; }
    }
  }

  lemma WellFormedPrefix(t: Template, n: nat)
    requires WellFormed(t) && n <= |t|
    ensures WellFormed(t[..n])
  {
    assert forall i :: 0 <= i < n ==> t[..n][i] == t[i];
  }

  /** Resolution works piece by piece. */
  lemma ResolveAllAppend(a: Template, b: Template, prompts: map<string, AgentPrompt>, tokenize: string -> Template)
    requires WellFormed(a) && WellFormed(b)
    ensures WellFormed(a + b)
    ensures var ra, rb := ResolveAll(a, prompts, tokenize), ResolveAll(b, prompts, tokenize);
      ra.Done? && rb.Done? ==> ResolveAll(a + b, prompts, tokenize) == Done(ra.value + rb.value)
  {
    WellFormedAppend(a, b);
    var pa, pb := Pieces(a, prompts, tokenize), Pieces(b, prompts, tokenize);
    var pab := Pieces(a + b, prompts, tokenize);
    forall i | 0 <= i < |a + b|
      ensures pab[i] == (pa + pb)[i]
    {
      if i < |a| { assert (a + b)[i] == a[i]; } else { assert (a + b)[i] == b[i - |a|]; }
    }
    assert pab == pa + pb;
    ConcatAppend(pa, pb);
  }

  /** A text without prompt tags comes back unchanged. */
  lemma {:induction false} ResolveAllIdentity(t: Template, prompts: map<string, AgentPrompt>, tokenize: string -> Template)
    requires WellFormed(t)
    requires forall i :: 0 <= i < |t| ==> !t[i].PromptTag?
    ensures ResolveAll(t, prompts, tokenize) == Done(Text(t))
    decreases |t|
  {
    if t != [] {
      var init := t[..|t| - 1];
      WellFormedPrefix(t, |t| - 1);
      ResolveAllIdentity(init, prompts, tokenize);
      var ps := Pieces(t, prompts, tokenize);
      assert ps[..|ps| - 1] == Pieces(init, prompts, tokenize);
    }
  }

  /** A tag naming a stored version gets that version's content: after
      `AddVersion`, both the bare id and `id@n` for the number just handed out
      resolve to the new content. */
  lemma ResolveAddedVersion(s: Segment, prompts: map<string, AgentPrompt>, tokenize: string -> Template,
                            content: string, createdBy: string, now: int)
    requires s.PromptTag? && AllDigits(s.version) && s.id in prompts && WellVersioned(prompts[s.id])
    requires RequestedVersion(s) == 0 || RequestedVersion(s) == prompts[s.id].currentVersion
    ensures var added := prompts[s.id := AddVersion(prompts[s.id], content, createdBy, now)];
      ResolveTag(s, added, tokenize) == Done(ReplaceVariables(tokenize(content), ParseKeyValuePairs(s.attrs)))
  {
    GetAddedVersion(prompts[s.id], content, createdBy, now);
  }
}
