/**
 * The collection rule document (redfish/rule.go): a traversal rule (root and exclusion
 * patterns) and metric rules (a path pattern and property rules), its validation, and
 * the three value converters selected by a property rule's `Type`.
 */
module Rule {
  import opened Wrappers
  import opened Strings
  import opened JsonValue

  /** Errors that stop the collector from starting. */
  datatype RuleError =
    | RootMissing
    | BadExcludes
    | PathMissing
    | PointerMissing
    | NameMissing
    | ConverterMissing
    | UnknownType(typeName: string)

  /** A property rule; `kind` is the `Type` text of the rule document, "" when absent. */
  datatype PropertyRule = PropertyRule(pointer: string, name: string, description: string, kind: string)

  datatype MetricRule = MetricRule(path: string, properties: seq<PropertyRule>)

  /* ---------- converters ---------- */

  datatype Converter = Number | Health | State

  /** The `typeToConverters` table: exactly three type names are known. */
  function ConverterOf(typeName: string): (r: Result<Converter, RuleError>)
    ensures r.Success? <==> typeName == "number" || typeName == "health" || typeName == "state"
    ensures r.Failure? ==> r.error == UnknownType(typeName)
  {
    if typeName == "number" then Success(Number)
    else if typeName == "health" then Success(Health)
    else if typeName == "state" then Success(State)
    else Failure(UnknownType(typeName))
  }

  /** The type name under which a converter is written in a rule document. */
  function TypeName(c: Converter): (name: string)
    ensures ConverterOf(name) == Success(c)
  {
    match c
    case Number => "number"
    case Health => "health"
    case State => "state"
  }

  lemma TypeNameInjective(c: Converter, d: Converter)
    requires TypeName(c) == TypeName(d)
    ensures c == d
  {
  }

  /** A converter's `(float64, error)` result; `error` is None on success. */
  datatype Conversion = Conversion(value: real, error: Option<string>)

  function NumberConverter(data: Json): (r: Conversion)
    ensures r.error.None? <==> data.JNum?
    ensures data.JNum? ==> r.value == data.n
  {
    match data
    case JNum(n) => Conversion(n, None)
    case _ => Conversion(0.0, Some("value was not float64"))
  }

  /** Health values in the order of their codes 0, 1, 2. */
  const HealthNames: seq<string> := ["OK", "Warning", "Critical"]

  /** State values in the order of their codes 0 to 10. */
  const StateNames: seq<string> :=
    ["Enabled", "Disabled", "Absent", "Deferring", "InTest", "Quiesced",
     "StandbyOffline", "StandbySpare", "Starting", "UnavailableOffline", "Updating"]

  /** `v` is a whole number between 0 and |names| - 1 that names `s`. */
  ghost predicate CodeOf(names: seq<string>, s: string, v: real)
  {
    0.0 <= v < |names| as real && v == v.Floor as real && names[v.Floor] == s
  }

  function HealthConverter(data: Json): (r: Conversion)
    ensures data.JNull? ==> r == Conversion(-1.0, None)
    ensures !data.JNull? && r.error.None? ==> data.JStr? && CodeOf(HealthNames, data.s, r.value)
    ensures data.JStr? && data.s in HealthNames ==> r.error.None?
    ensures r.error.Some? ==> r.value == -1.0
  {
    match data
    case JNull => Conversion(-1.0, None)
    case JStr(health) =>
      if health == "OK" then Conversion(0.0, None)
      else if health == "Warning" then Conversion(1.0, None)
      else if health == "Critical" then Conversion(2.0, None)
      else Conversion(-1.0, Some("unknown health value: " + health))
    case _ => Conversion(-1.0, Some("health value was not string"))
  }

  function StateConverter(data: Json): (r: Conversion)
    ensures r.error.None? ==> data.JStr? && CodeOf(StateNames, data.s, r.value)
    ensures data.JStr? && data.s in StateNames ==> r.error.None?
    ensures r.error.Some? ==> r.value == -1.0
  {
    match data
    case JStr(state) =>
      if state == "Enabled" then Conversion(0.0, None)
      else if state == "Disabled" then Conversion(1.0, None)
      else if state == "Absent" then Conversion(2.0, None)
      else if state == "Deferring" then Conversion(3.0, None)
      else if state == "InTest" then Conversion(4.0, None)
      else if state == "Quiesced" then Conversion(5.0, None)
      else if state == "StandbyOffline" then Conversion(6.0, None)
      else if state == "StandbySpare" then Conversion(7.0, None)
      else if state == "Starting" then Conversion(8.0, None)
      else if state == "UnavailableOffline" then Conversion(9.0, None)
      else if state == "Updating" then Conversion(10.0, None)
      else Conversion(-1.0, Some("unknown state value: " + state))
    case _ => Conversion(-1.0, Some("state value was not string"))
  }

  /** The state converter is one-to-one on the values it accepts, with codes 0 to 10. */
  lemma StateConverterInjective(a: Json, b: Json)
    requires StateConverter(a).error.None? && StateConverter(b).error.None?
    requires StateConverter(a).value == StateConverter(b).value
    ensures a == b
    ensures 0.0 <= StateConverter(a).value <= 10.0
  {
  }

  /** No name occurs twice in the state vocabulary. */
  lemma StateNamesDistinct()
    ensures forall p, q :: 0 <= p < q < |StateNames| ==> StateNames[p] != StateNames[q]
  {
  }

  /** Each of the 11 state names is converted to its position in the vocabulary. */
  lemma StateConverterOnNames(i: nat)
    requires i < |StateNames|
    ensures StateConverter(JStr(StateNames[i])) == Conversion(i as real, None)
  {
    StateNamesDistinct();
    var r := StateConverter(JStr(StateNames[i]));
    assert StateNames[r.value.Floor] == StateNames[i];
  }

  /** Each of the 3 health names is converted to its position in the vocabulary. */
  lemma HealthConverterOnNames(i: nat)
    requires i < |HealthNames|
    ensures HealthConverter(JStr(HealthNames[i])) == Conversion(i as real, None)
  {
    var r := HealthConverter(JStr(HealthNames[i]));
    assert HealthNames[r.value.Floor] == HealthNames[i];
  }

  function Convert(c: Converter, data: Json): Conversion
  {
    match c
    case Number => NumberConverter(data)
    case Health => HealthConverter(data)
    case State => StateConverter(data)
  }

  /* ---------- validation ---------- */

  /** The checks `propertyRule.validate` makes, with an unknown type also rejected. */
  ghost predicate PropertyRuleOk(pr: PropertyRule)
  {
    pr.pointer != "" && pr.name != "" && ConverterOf(pr.kind).Success?
  }

  ghost predicate MetricRuleOk(mr: MetricRule)
  {
    mr.path != "" && forall i :: 0 <= i < |mr.properties| ==> PropertyRuleOk(mr.properties[i])
  }

  /** `propertyRule.validate`: the first missing mandatory field, in Pointer, Name, Type order. */
  function ValidatePropertyRule(pr: PropertyRule): (err: Option<RuleError>)
    ensures err.None? <==> PropertyRuleOk(pr)
    ensures pr.pointer == "" ==> err == Some(PointerMissing)
    ensures pr.pointer != "" && pr.name == "" ==> err == Some(NameMissing)
    ensures pr.pointer != "" && pr.name != "" && pr.kind == "" ==> err == Some(ConverterMissing)
  {
    if pr.pointer == "" then Some(PointerMissing)
    else if pr.name == "" then Some(NameMissing)
    else if pr.kind == "" then Some(ConverterMissing)
    else match ConverterOf(pr.kind)
      case Success(_) => None
      case Failure(e) => Some(e)
  }

  /** The first failing property rule's error, in declaration order. */
  function ValidatePropertyRules(prs: seq<PropertyRule>): (err: Option<RuleError>)
    ensures err.None? <==> forall i :: 0 <= i < |prs| ==> PropertyRuleOk(prs[i])
    ensures err.Some? ==> exists i :: 0 <= i < |prs| && err == ValidatePropertyRule(prs[i])
                                && forall j :: 0 <= j < i ==> PropertyRuleOk(prs[j])
  {
    if prs == [] then None
    else match ValidatePropertyRule(prs[0])
      case Some(e) => Some(e)
      case None =>
        var rest := ValidatePropertyRules(prs[1..]);
        assert forall i :: 1 <= i < |prs| ==> prs[i] == prs[1..][i - 1];
        rest
  }

  /** `metricRule.validate`. */
  function ValidateMetricRule(mr: MetricRule): (err: Option<RuleError>)
    ensures err.None? <==> MetricRuleOk(mr)
    ensures mr.path == "" ==> err == Some(PathMissing)
  {
    if mr.path == "" then Some(PathMissing) else ValidatePropertyRules(mr.properties)
  }

  /** The loop of `CollectRule.Validate` over the metric rules. */
  function ValidateMetricRules(mrs: seq<MetricRule>): (err: Option<RuleError>)
    ensures err.None? <==> forall i :: 0 <= i < |mrs| ==> MetricRuleOk(mrs[i])
    ensures err.Some? ==> exists i :: 0 <= i < |mrs| && err == ValidateMetricRule(mrs[i])
                                && forall j :: 0 <= j < i ==> MetricRuleOk(mrs[j])
  {
    if mrs == [] then None
    else match ValidateMetricRule(mrs[0])
      case Some(e) => Some(e)
      case None =>
        var rest := ValidateMetricRules(mrs[1..]);
        assert forall i :: 1 <= i < |mrs| ==> mrs[i] == mrs[1..][i - 1];
        rest
  }

  /**
   * The traversal rule. `Validate` compiles the exclusion patterns into one regular
   * expression and stores it; regular expressions are abstract here: a pattern is kept
   * as its text, `compiles` says whether `regexp.Compile` accepts it.
   */
  class TraverseRule {
    const root: string
    const excludeRules: seq<string>
    var excludeRegexp: Option<string>

    constructor (root: string, excludeRules: seq<string>)
      ensures this.root == root && this.excludeRules == excludeRules
      ensures excludeRegexp == None
    {
      this.root := root;
      this.excludeRules := excludeRules;
      excludeRegexp := None;
    }

    /** The combined exclusion pattern: the alternation of all patterns. */
    function CombinedExcludes(): string
    {
      Join(excludeRules, '|')
    }

    /** `traverseRule.validate`. */
    method Validate(compiles: string -> bool) returns (err: Option<RuleError>)
      modifies this`excludeRegexp
      ensures root == "" ==> err == Some(RootMissing)
      ensures root != "" && |excludeRules| > 0 && !compiles(CombinedExcludes()) ==> err == Some(BadExcludes)
      ensures err.None? <==> root != "" && (|excludeRules| > 0 ==> compiles(CombinedExcludes()))
      ensures excludeRegexp ==
        if err.None? && |excludeRules| > 0 then Some(CombinedExcludes()) else old(excludeRegexp)
    {
      if root == "" {
        return Some(RootMissing);
      }
      if |excludeRules| > 0 {
        var excludes := Join(excludeRules, '|');
        if !compiles(excludes) {
          return Some(BadExcludes);
        }
        excludeRegexp := Some(excludes);
      }
      return None;
    }

    /** Whether a path is excluded from the traversal (redfish/redfish.go:69). */
    predicate Excluded(matchString: (string, string) -> bool, path: string)
      reads this
    {
      excludeRegexp.Some? && matchString(excludeRegexp.value, path)
    }
  }

  /** A whole rule document. */
  class CollectRule {
    const traverseRule: TraverseRule
    const metricRules: seq<MetricRule>

    constructor (traverseRule: TraverseRule, metricRules: seq<MetricRule>)
      ensures this.traverseRule == traverseRule && this.metricRules == metricRules
    {
      this.traverseRule := traverseRule;
      this.metricRules := metricRules;
    }

    /** `CollectRule.Validate`: the traversal rule first, then each metric rule in order. */
    method Validate(compiles: string -> bool) returns (err: Option<RuleError>)
      modifies traverseRule`excludeRegexp
      ensures traverseRule.root == "" ==> err == Some(RootMissing)
      ensures err.None? <==>
        && traverseRule.root != ""
        && (|traverseRule.excludeRules| > 0 ==> compiles(traverseRule.CombinedExcludes()))
        && forall i :: 0 <= i < |metricRules| ==> MetricRuleOk(metricRules[i])
      ensures traverseRule.excludeRegexp ==
        if traverseRule.root != "" && |traverseRule.excludeRules| > 0 && compiles(traverseRule.CombinedExcludes())
        then Some(traverseRule.CombinedExcludes())
        else old(traverseRule.excludeRegexp)
    {
      err := traverseRule.Validate(compiles);
      if err.Some? {
        return;
      }
      err := ValidateMetricRules(metricRules);
    }
  }

  /** With no exclusion patterns, validation installs no matcher and nothing is excluded. */
  method ValidateWithoutExcludes(root: string, metricRules: seq<MetricRule>, compiles: string -> bool,
                                 matchString: (string, string) -> bool, path: string)
    returns (err: Option<RuleError>, excluded: bool)
    ensures err.None? <==> root != "" && forall i :: 0 <= i < |metricRules| ==> MetricRuleOk(metricRules[i])
    ensures !excluded
  {
    var tr := new TraverseRule(root, []);
    var cr := new CollectRule(tr, metricRules);
    err := cr.Validate(compiles);
    excluded := tr.Excluded(matchString, path);
  }
}
