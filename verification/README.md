# Redfish collector engine of setup-hw, in Dafny

This project models the rule-driven core of the setup-hw hardware monitor. A BMC's Redfish API
is walked from a root resource by following `@odata.id` links. That walk yields a snapshot: a map
from resource path to JSON document. Collection rules then turn the snapshot into Prometheus
samples:

- a metric rule's path pattern (`/redfish/v1/Chassis/{chassis}`) selects resources and binds labels;
- each of its property rules has a pointer pattern (`/Temperatures/{sensor}/ReadingCelsius`),
  which selects values inside a document and binds array indices;
- a converter (`number`, `health`, `state`) turns each selected value into a number.

The offline rule generator works the other way: it infers metric rules from a snapshot and a list
of `key:type` pairs.

The project has these modules:

- `Wrappers` holds `Option` and `Result`.
- `Strings` holds `strings.Split`/`Join`, `ReplaceAll` for single characters, ASCII `ToLower`, Go's
  string order and `strconv.Itoa`.
- `JsonValue` holds the JSON document. An object is a list of fields in document order. Gabs'
  `Search`/`Path` lookup is included.
- `Sorting` holds a stable insertion sort by a string key. It stands in for `sort.Slice`.
- `Rule` models redfish/rule.go:
  - the rule shapes;
  - the converter table and the three converters;
  - validation. `TraverseRule` is a class, because `validate` stores the compiled exclusion
    pattern into it.
- `Collector` models redfish/collector.go:
  - `matchPath`, `splitPointer` and `matchPointer` as functions, with lemmas about them;
  - `Collect` as loops proved against a sample-set function;
  - `Cache` as a class with one field.
- `Redfish` models the traversal of redfish/redfish.go as a class. The class holds the snapshot
  map, and `Get` and `Follow` change that map in place. The HTTP server is a finite map from path
  to `Response(status, body)`. The exclusion regex is an abstract `matchString`.
- `GenerateRule` models pkg/collector/cmd/generaterule.go:
  - `normalize`, singularisation and `findKeyInKeyTypes`;
  - `generateRuleAux`, as a function with an accumulator plus a method;
  - `generateRule`, as a loop proved against the function `Generated`.

Go map iteration has no fixed order. It is modelled in two ways:

- a snapshot's paths are visited in an `order` sequence that lists each key once (`Enumerates`);
- an object's fields are visited in document order.

## Model

| member | source | states |
|---|---|---|
| Strings.Split | redfish/collector.go:88-89 | `strings.Split`: one piece more than there are separators, and no piece contains the separator |
| Strings.JoinSplit | redfish/collector.go:206 | joining the pieces of a split gives back the original string |
| Strings.SplitJoin | redfish/collector.go:209 | splitting a join of separator-free pieces gives back the pieces |
| Strings.JoinAppend | redfish/collector.go:206-209 | joining two non-empty lists puts exactly one separator between the two joins |
| Strings.SplitPrefix | redfish/collector.go:209 | a separator-free prefix glues onto the first piece of a split |
| Strings.ReplaceChar | redfish/collector.go:156 | `ReplaceAll` for one character: same length, each occurrence replaced, every other character kept |
| Strings.ReplaceJoin | redfish/collector.go:156 | replacing the separator of a join of separator-free pieces joins them with the new character |
| Strings.ToLower | pkg/collector/cmd/generaterule.go:138 | lower-casing keeps the length and lowers each character independently |
| Strings.LexLeTotal | pkg/collector/cmd/generaterule.go:100 | Go's string order is total |
| Strings.LexLeTransitive | pkg/collector/cmd/generaterule.go:108 | Go's string order is transitive |
| Strings.LexLeAntisymmetric | pkg/collector/cmd/generaterule.go:108 | two strings each at most the other are equal |
| Strings.NatToString | redfish/collector.go:71 | `strconv.Itoa` of an index: at least one decimal digit, with no leading zero unless it is 0 |
| Strings.NatToStringRoundTrip | redfish/collector.go:71 | the rendered digits read back as the index |
| Strings.NatToStringInjective | redfish/collector.go:70-72 | distinct indices give distinct label values |
| JsonValue.Member | redfish/collector.go:157 | a field lookup succeeds exactly on an object that has the key, and returns that field's value |
| Sorting.SortBySorted | pkg/collector/cmd/generaterule.go:100 | the result of the sort is ordered by the key |
| Sorting.SortByPermutes | pkg/collector/cmd/generaterule.go:108 | the sort is a permutation: the multiset of elements is unchanged |
| Sorting.SortByMembers | pkg/collector/cmd/generaterule.go:108 | the sort holds exactly the elements of its input |
| Sorting.SortByDistinct | pkg/collector/cmd/generaterule.go:108 | sorting keeps keys distinct when they were distinct |
| Rule.ConverterOf | redfish/rule.go:96-116 | the type name resolves exactly for "number", "health" and "state"; any other name is an `UnknownType` error |
| Rule.TypeName | redfish/rule.go:112-116 | every converter has a type name that resolves back to that converter |
| Rule.TypeNameInjective | redfish/rule.go:112-116 | distinct converters have distinct type names |
| Rule.NumberConverter | redfish/rule.go:118-124 | succeeds exactly on a number, which it returns unchanged |
| Rule.HealthConverter | redfish/rule.go:126-143 | null gives -1 with no error; a success is a string of the health vocabulary coded by its position; every vocabulary string succeeds; every error carries -1 |
| Rule.HealthConverterOnNames | redfish/rule.go:134-141 | "OK", "Warning" and "Critical" give 0, 1 and 2 |
| Rule.StateConverter | redfish/rule.go:145-175 | a success is a string of the 11-name state vocabulary coded by its position; every vocabulary string succeeds; non-strings and other strings are errors carrying -1 |
| Rule.StateConverterOnNames | redfish/rule.go:150-172 | the i-th state name, from `Enabled` to `Updating`, gives i |
| Rule.StateNamesDistinct | redfish/rule.go:150-172 | no state name occurs twice |
| Rule.StateConverterInjective | redfish/rule.go:145-175 | accepted values with the same code are equal, and every code lies in 0..10 |
| Rule.ValidatePropertyRule | redfish/rule.go:82-94 | passes exactly when the pointer, the name and a known type are all present; reports the first missing one in the order pointer, name, converter |
| Rule.ValidatePropertyRules | redfish/rule.go:73-77 | passes exactly when every property rule is valid; otherwise reports the error of the first invalid one |
| Rule.ValidateMetricRule | redfish/rule.go:68-80 | passes exactly when the path is non-empty and every property rule is valid; an empty path is reported as `PathMissing` |
| Rule.ValidateMetricRules | redfish/rule.go:41-45 | passes exactly when every metric rule is valid; otherwise reports the error of the first invalid one |
| Rule.TraverseRule.Validate | redfish/rule.go:50-66 | an empty root is an error, reported first; otherwise it passes exactly when there are no exclusion patterns or their `\|`-join compiles; the stored matcher is that join, and is set only in that case |
| Rule.CollectRule.Validate | redfish/rule.go:36-48 | passes exactly when the traversal rule and every metric rule are valid, with the root checked first |
| Rule.ValidateWithoutExcludes | redfish/rule.go:55-63 | with no exclusion patterns, validation depends only on the root and the metric rules, and no path is excluded |
| Collector.Bracketed | redfish/collector.go:98-99 | a label segment is its name in braces |
| Collector.MatchSegmentsSucceeds | redfish/collector.go:96-104 | the segment loop succeeds exactly when every literal segment equals the path segment at its position |
| Collector.MatchSegmentsKeys | redfish/collector.go:96-104 | on success, the loop adds exactly one key per bracketed name |
| Collector.MatchSegmentsValues | redfish/collector.go:96-104 | on success, each name is bound to the path segment under its last occurrence, and earlier labels are kept |
| Collector.MatchPathSpec | redfish/collector.go:87-107 | a different number of `/` means no match; a match happens exactly when the segment counts agree and the literal segments agree; the labels are then exactly the bracketed names, each valued by its path segment |
| Collector.MatchPathLiteral | redfish/collector.go:95-106 | a pattern with no bracketed segment matches only the identical path, with empty labels |
| Collector.FirstLabel | redfish/collector.go:203-204 | the position found is bracketed, and no segment before it is |
| Collector.SplitPointerMatched | redfish/collector.go:201-215 | a pointer splits exactly when it has a bracketed segment; otherwise the result is `(false, "", "", "")` |
| Collector.SplitPointerReassembles | redfish/collector.go:201-215 | for a pointer starting with `/`: `subpath + "/{" + index + "}" + remainder` is the pointer, and the remainder is empty or starts with `/` |
| Collector.SplitPointerIndexNames | redfish/collector.go:201-215 | the subpath has no bracketed segment; the pointer's index names are the split one plus the remainder's |
| Collector.RemainderSegments | redfish/collector.go:208-210 | the remainder's segments are those after the bracketed one, behind an empty first segment |
| Collector.PointerLookup | redfish/collector.go:172-173 | the empty pointer, such as the subpath in front of a leading bracketed segment, names the document itself |
| Collector.PointerLookupSearch | redfish/collector.go:156-157 | a non-empty pointer whose segments hold no "." navigates the document one field per `/`-separated segment |
| Collector.Tag | redfish/collector.go:192-194 | the matches keep their values and their order; each index map gains the index name, bound to the element's position, and keeps every other binding |
| Collector.MatchPointer | redfish/collector.go:137-152 | the empty pointer gives exactly one match, the whole document with no indexes; a pointer not starting with `/` gives none |
| Collector.MatchPointerPlain | redfish/collector.go:153-170 | a pointer with no bracketed segment gives at most one match: the value its lookup names, with no index bound; it gives none exactly when the lookup fails |
| Collector.MatchPointerFields | redfish/collector.go:153-170 | a pointer of plain field names such as `/Status/Health` gives the value under those fields with no index bound, or nothing when a field is missing on the way |
| Collector.MatchPointerIndexes | redfish/collector.go:137-199 | every match binds exactly the pointer's index names |
| Collector.MatchChildrenIndexes | redfish/collector.go:189-196 | every match from the element loop binds its index to an element position within the array |
| Collector.MatchChildrenConcat | redfish/collector.go:189-196 | the element loop concatenates the per-element match lists, in element order |
| Collector.MatchPointerIterates | redfish/collector.go:172-198 | a pointer with a bracketed segment gives nothing when the subpath is missing or not an array; otherwise it gives the concatenation, in element order, of the remainder's matches on each element, each binding an index below the array's length |
| Collector.MatchPointerChildren | redfish/collector.go:181-196 | over an array, the matches are those of the element loop from element 0 |
| Collector.MatchChildrenCount | redfish/collector.go:189-196 | when each element gives `each` matches, the loop gives `each` times the number of remaining elements |
| Collector.MatchPointerCount | redfish/collector.go:172-198 | when each element gives `each` matches, the pointer gives `each` times the array's length, so nested arrays multiply |
| Collector.SubpathDotsAsWritten | redfish/collector.go:172 | `subpath[1:]` fails exactly when the subpath is empty |
| Collector.LeadingIndexPointerPanics | redfish/collector.go:172 | the pointer `/{i}` passes validation, yet it splits with an empty subpath, on which `subpath[1:]` panics |
| Collector.ConsecutiveIndexPointerPanics | redfish/collector.go:172 | the pointer `/A/{i}/{j}` passes validation and splits into `/A`, `i` and `/{j}`; the remainder `/{j}` then splits with an empty subpath, on which `subpath[1:]` panics |
| Collector.MatchChildrenWhole | redfish/collector.go:189-196 | with an empty remainder, the k-th match is the k-th element, with only its index bound |
| Collector.LeadingIndexPointerIterates | redfish/collector.go:172-198 | with the corrected lookup, `/{i}` over a top-level array gives each element with `i` bound to its position |
| Collector.BuildFQName | redfish/collector.go:73-74 | the metric name is empty exactly when the rule's name is; otherwise it starts with `hw_` and the rule's name can be read back from what follows |
| Collector.BuildFQNameInjective | redfish/collector.go:73-74 | distinct property-rule names give distinct metric names |
| Collector.MergeLabels | redfish/collector.go:66-72 | the keys are the path labels plus the index names; an index name is valued by its decimal index and wins a clash; every other key keeps its path label |
| Collector.ApplyConverter | redfish/collector.go:65 | a value is produced exactly when the type name is a known converter and that converter reports no error; the value is the converter's result |
| Collector.CollectProperty | redfish/collector.go:64-77 | the inner loop emits exactly the samples of the matches whose value converts, in match order |
| Collector.CollectResource | redfish/collector.go:62-78 | the property loop emits exactly the samples of each property rule in turn |
| Collector.CollectSamples | redfish/collector.go:55-80 | the rule loop emits exactly the samples of the scrape, rules in order and, per rule, paths in visiting order |
| Collector.CollectRule | redfish/collector.go:56-79 | for one rule, the path loop skips paths the rule's pattern does not match and emits the samples of each matching resource in visiting order |
| Collector.MatchSamplesSound | redfish/collector.go:64-77 | every sample emitted for a property comes from one of its matches whose value converts |
| Collector.MatchSamplesComplete | redfish/collector.go:64-77 | every match whose value converts has its sample emitted |
| Collector.PropertySamplesSound | redfish/collector.go:62-78 | every sample emitted for a resource comes from one property rule's pointer, selecting a value that converts |
| Collector.PropertySamplesComplete | redfish/collector.go:62-78 | every such property sample is emitted |
| Collector.PathSamplesSound | redfish/collector.go:56-79 | every sample emitted for a metric rule comes from a resource whose path matches the rule's pattern |
| Collector.PathSamplesComplete | redfish/collector.go:56-79 | every sample of a matching resource is emitted |
| Collector.RuleSamplesSound | redfish/collector.go:52-81 | every emitted sample comes from a rule, a resource its pattern matches, a property pointer and a value that converts; it is named `hw_`+Name and carries the merged labels |
| Collector.RuleSamplesComplete | redfish/collector.go:52-81 | every such sample is emitted, whatever order the snapshot's paths are visited in |
| Collector.Cache.constructor | redfish/collector.go:34 | the initial cache holds an empty snapshot |
| Collector.Cache.Set | redfish/collector.go:116-120 | the cache then holds exactly the given snapshot |
| Collector.Cache.Get | redfish/collector.go:122-126 | returns exactly the snapshot last set, and changes nothing |
| Collector.RedfishCollector.constructor | redfish/collector.go:33-47 | the collector keeps the decoded rules and a fresh cache holding an empty snapshot |
| Collector.RedfishCollector.Collect | redfish/collector.go:52-81 | emits exactly the scrape's samples for the snapshot the cache holds |
| Redfish.FieldsLinksMembers | redfish/redfish.go:132-146 | the links of an object are exactly the links of its fields |
| Redfish.ElemsLinksMembers | redfish/redfish.go:148-153 | the links of an array are exactly the links of its elements |
| Redfish.RedfishClient.constructor | redfish/redfish.go:34-60 | the client takes its root and exclusion matcher from the traversal rule; the snapshot starts empty |
| Redfish.RedfishClient.Fetch | redfish/redfish.go:99-126 | a document is obtained exactly for a status of 200 (not any other 2xx) whose body parses |
| Redfish.RedfishClient.StoreShrinks | redfish/redfish.go:83-85 | storing a new accepted path leaves strictly fewer accepted paths unstored, so the walk terminates on cyclic link graphs |
| Redfish.RedfishClient.StoreKeepsStored | redfish/redfish.go:126 | storing an accepted path linked from a stored document keeps every stored path linked back to the root |
| Redfish.RedfishClient.Get | redfish/redfish.go:68-129 | the map only grows and no stored document is replaced; the path ends up stored exactly when it was already stored or is accepted (not excluded, fetched with 200, parsed); a path not accepted, or one already stored, leaves the map unchanged, so a stored path is not fetched again; every newly stored document has its accepted links stored; every newly stored path is reachable from `path` through links over accepted paths |
| Redfish.RedfishClient.Follow | redfish/redfish.go:131-154 | afterwards every accepted link anywhere in the document is stored, and earlier entries are unchanged; every newly stored path is reachable from those links through accepted paths |
| Redfish.RedfishClient.FollowFields | redfish/redfish.go:132-146 | the object loop stores every accepted link of the fields: string `@odata.id` values and links nested in other fields; every newly stored path is reachable from those links through accepted paths |
| Redfish.RedfishClient.FollowField | redfish/redfish.go:133-143 | a string `@odata.id` is fetched, a non-string one leaves the map unchanged, and any other field is followed; every newly stored path is reachable from the field's links |
| Redfish.RedfishClient.FollowElems | redfish/redfish.go:148-153 | the array loop stores every accepted link of every element; every newly stored path is reachable from those links through accepted paths |
| Redfish.RedfishClient.StoredReachable | redfish/redfish.go:126-128 | every stored path is reachable from the root through `@odata.id` links over accepted paths |
| Redfish.RedfishClient.ChainStored | redfish/redfish.go:128-153 | every chain of links from the root over accepted paths ends at a stored path |
| Redfish.RedfishClient.Traverse | redfish/redfish.go:62-66 | starting from an empty map and the root, the result holds exactly the paths reachable through links over accepted paths, each with its fetched document and none excluded |
| GenerateRule.Normalize | pkg/collector/cmd/generaterule.go:158-170 | the output is no longer than the key and contains only `[a-z0-9_]` |
| GenerateRule.NormalizeEachChar | pkg/collector/cmd/generaterule.go:162-169 | a character of `[a-z0-9_]` is kept, an ASCII capital becomes its small letter, and every other character is dropped |
| GenerateRule.NormalizeKeepsNames | pkg/collector/cmd/generaterule.go:162-164 | a string already made of `[a-z0-9_]` is unchanged |
| GenerateRule.NormalizeIdempotent | pkg/collector/cmd/generaterule.go:158-170 | normalizing twice is normalizing once |
| GenerateRule.NormalizeConcat | pkg/collector/cmd/generaterule.go:161-169 | characters are filtered one by one, in order: normalizing a concatenation concatenates the results |
| GenerateRule.NormalizeIgnoresCase | pkg/collector/cmd/generaterule.go:165-167 | lower-casing first does not change the name |
| GenerateRule.Singular | pkg/collector/cmd/generaterule.go:131-137 | singularisation never lengthens the word |
| GenerateRule.SingularUndoesPlural | pkg/collector/cmd/generaterule.go:133-137 | a trailing `ies` becomes `y`; otherwise one trailing `s` is dropped; a word not ending in `s` is unchanged |
| GenerateRule.FindKeyInKeyTypes | pkg/collector/cmd/generaterule.go:147-154 | none exactly when no entry has the key; otherwise the first entry with that key |
| GenerateRule.GenAuxAccumulates | pkg/collector/cmd/generaterule.go:112-145 | the rules already gathered stay, unchanged, as a prefix of the result |
| GenerateRule.GenFieldsAccumulates | pkg/collector/cmd/generaterule.go:114-125 | the object loop only appends to its accumulator |
| GenerateRule.GenFieldAccumulates | pkg/collector/cmd/generaterule.go:115-124 | one field only appends to the accumulator |
| GenerateRule.EmitFromListedKey | pkg/collector/cmd/generaterule.go:117-121 | the rule emitted for a listed key extends the pointer by that key, with the first type listed for it |
| GenerateRule.GenAuxSound | pkg/collector/cmd/generaterule.go:112-145 | every generated property rule has a pointer that extends the starting pointer and ends with a listed key, typed by that key's first entry |
| GenerateRule.GenAuxLeaf | pkg/collector/cmd/generaterule.go:112-145 | a scalar, an empty array or an empty object adds no rules: the rules gathered so far come back unchanged |
| GenerateRule.GenFieldsSound | pkg/collector/cmd/generaterule.go:113-127 | the same for the rules of an object's fields |
| GenerateRule.GenFieldSound | pkg/collector/cmd/generaterule.go:115-124 | the same for the rules of one field |
| GenerateRule.GenFieldsPrefix | pkg/collector/cmd/generaterule.go:114-125 | the rules of the earlier fields come first |
| GenerateRule.EmitsListedFields | pkg/collector/cmd/generaterule.go:115-121 | a listed field yields the rule with pointer `pointer/k`, name `(name_normalize(k))` without its first character, and the key's type |
| GenerateRule.DescendsUnlistedFields | pkg/collector/cmd/generaterule.go:122-124 | an unlisted field is descended into with the pointer and the name extended by it |
| GenerateRule.GenerateRuleAux | pkg/collector/cmd/generaterule.go:112-145 | the recursive method, with its field loop (through `GenerateFields`) and its first-element-only array case, returns exactly the accumulator followed by the rules the sound, accumulating and emitting lemmas above describe |
| GenerateRule.GenerateFields | pkg/collector/cmd/generaterule.go:113-127 | the object loop returns exactly the rules the fields give in turn, as `GenFields`, whose lemmas give their meaning |
| GenerateRule.FirstMatch | pkg/collector/cmd/generaterule.go:84-93 | a rule index found lies within the rules |
| GenerateRule.FirstMatchSpec | pkg/collector/cmd/generaterule.go:84-93 | the rule found matches and none before it does; when none is found, no rule matches |
| GenerateRule.FirstMatchingRule | pkg/collector/cmd/generaterule.go:84-94 | the inner loop returns the first matching rule's index, or the number of rules when none matches |
| GenerateRule.ClaimNext | pkg/collector/cmd/generaterule.go:83-105 | one loop step: a path whose rule was already claimed changes neither the claims nor the output; otherwise the rule's path is claimed and a metric rule is appended when properties are found |
| GenerateRule.GenerateRule | pkg/collector/cmd/generaterule.go:77-110 | the loop computes exactly the claimed, generated and path-sorted metric rules |
| GenerateRule.SelfMatch | pkg/collector/cmd/generaterule.go:85 | a path pattern matches its own text |
| GenerateRule.TargetClaimed | pkg/collector/cmd/generaterule.go:85-91 | the path a claimed data path is filed under is itself matched by a rule |
| GenerateRule.ClaimRecorded | pkg/collector/cmd/generaterule.go:87-90 | once a rule claims a data path, its path stays in `matchedRules` |
| GenerateRule.RecordedClaim | pkg/collector/cmd/generaterule.go:87-90 | every path in `matchedRules` belongs to a rule that claimed an earlier data path |
| GenerateRule.SkippedIffTaken | pkg/collector/cmd/generaterule.go:83-95 | a data path is skipped exactly when an earlier data path was already filed under the same rule path; a path no rule claims is never skipped |
| GenerateRule.GeneratedOrigin | pkg/collector/cmd/generaterule.go:81-106 | every generated metric rule comes from the first data path filed under its path |
| GenerateRule.GeneratedDistinct | pkg/collector/cmd/generaterule.go:83-105 | no two generated metric rules share a path |
| GenerateRule.GeneratedComplete | pkg/collector/cmd/generaterule.go:83-105 | the first data path filed under a target yields its metric rule whenever it finds properties |
| GenerateRule.GeneratedShape | pkg/collector/cmd/generaterule.go:99-105 | every generated metric rule has a non-empty property list, sorted by pointer |
| GenerateRule.GenerateRuleSorted | pkg/collector/cmd/generaterule.go:99-108 | the output is sorted by path with no path twice, and each metric rule's properties are non-empty and sorted by pointer |
| GenerateRule.GenerateRuleSound | pkg/collector/cmd/generaterule.go:77-110 | every output metric rule is filed under its path by the first data path with that target, and holds that document's non-empty findings sorted by pointer |
| GenerateRule.YieldedFound | pkg/collector/cmd/generaterule.go:96-97 | what a data path yields is what `generateRuleAux` finds in its document, from the root-stripped prefix |
| GenerateRule.GenerateRuleComplete | pkg/collector/cmd/generaterule.go:77-110 | every first-filed data path that finds properties has its metric rule in the output |

## Left out

- HTTP transport, TLS, basic auth, the 5-second timeout and context cancellation (redfish/redfish.go:34-60, 87-107) are I/O. A fixed map from path to response stands in for the server; a missing entry is a transport error.
- URL resolution and `EscapedPath` (redfish/redfish.go:73-82) are library behaviour. The path is used as is.
- Regular expressions are library behaviour. Compiling is an abstract `compiles` predicate and matching an abstract `matchString`; the combined pattern is kept as its text.
- Log warnings (redfish/collector.go:148-150, 159-161, 175-177, 183-185; redfish/redfish.go:75-78, 101-114, 120-123, 139-142) have no effect on results and are dropped.
- Gabs lookups through arrays: the model navigates objects only, so an array met before the last segment gives no value.
- Collector.MatchPointer: gabs' `Children()` also succeeds on an object, where it iterates the field values; the model, like the collector's test, treats a non-array value as giving no matches.
- Duplicate keys in one JSON object: the source decodes every document with `gabs.ParseJSONBuffer` (redfish/redfish.go:118) into a Go map, which keeps only the last of several fields with the same key. The model keeps every field in document order: `JsonValue.Member` returns the first such field, and `Redfish.Links`, `Redfish.FieldsLinks` and `GenerateRule.GenFields` visit all of them. On a document with duplicate keys, lookups, the traversal and rule generation can therefore differ from the source; on documents without duplicate keys they agree.
- YAML and JSON decoding (redfish/collector.go:41, redfish/rule.go:96-101) are library work. `UnmarshalYAML`'s unknown-type error is reported by `Rule.ValidatePropertyRule` instead, as `UnknownType`; an absent type is the empty type name.
- The prometheus `Desc`, `ConstMetric` and channel plumbing and `Describe` (redfish/collector.go:49-50, 73-76) are library plumbing. A scrape returns a sequence of samples (name, description, labels, value).
- `Update` (redfish/collector.go:83-85) delegates to the client's poll step, which wires `Traverse` to `Cache.Set`; that wiring is not modelled as one member.
- Collector.RedfishCollector.Collect: the line that takes the converter result (redfish/collector.go:65) treats the converter as single-valued, while redfish/rule.go:33 gives it a `(float64, error)` result. The model emits a sample only when conversion succeeds.
- The `Cache` mutex and concurrent readers (redfish/collector.go:113-125) are not modelled. The cache has a single owner.
- Floating point: values are `real`, and the number converter passes them through.
- Go map iteration order in `Collect`, `follow`, `generateRuleAux` and `generateRule` is not fixed by the language. Snapshot paths are visited in any given order; object fields are visited in document order.
- GenerateRule.GenerateRule: `sort.Slice` is not stable. The model sorts stably, so two property rules with equal pointers keep their generation order, where Go may swap them. Equal pointers come from duplicate keys, or from a key containing `/`: the fields `"a/b": {"X": …}` and `"a": {"b": {"X": …}}` both give the pointer `/a/b/X`. Metric rule paths are proved distinct, so their order is fixed.
- GenerateRule.GenerateRule: requires a non-nil rule and every data path, once filed under its target, at least as long as `Root`. The source dereferences the rule at pkg/collector/cmd/generaterule.go:96 even though line 83 allows nil, and slices the path there.
- Strings.ToLower: `strings.ToLower` in singularisation lowers ASCII letters only; other Unicode case mappings are not modelled.
- Key-list parsing and the CLI (pkg/collector/cmd/generaterule.go:37-75) are I/O and YAML output. `keyTypes` is given as a list of pairs.
- redfish/mock.go, pkg/monitor-hw/cmd and pkg/render-rules are file, process and template I/O, and are not part of this model.
- `Collect`'s three nested loops are split into `CollectSamples`, `CollectRule`, `CollectResource` and `CollectProperty`. `follow`'s loops are split into `FollowFields`, `FollowField` and `FollowElems`, `generateRuleAux`'s object loop into `GenerateFields`, and `generateRule`'s inner loop into `FirstMatchingRule`. The behaviour is that of the original loops.

## Findings

| source | as written | input that shows it | evidently intended | confidence | as-written member | corrected member |
|---|---|---|---|---|---|---|
| redfish/collector.go:172 | the gabs path of a subpath is taken as `subpath[1:]`, which is out of range when the bracketed segment comes first and the subpath is empty | property rule pointer `/{i}` (it passes `propertyRule.validate`) on any document; likewise any pointer with two bracketed segments in a row, such as `/A/{i}/{j}`, through its remainder `/{j}` (Collector.ConsecutiveIndexPointerPanics) | an empty subpath names the document itself, so `/{i}` iterates a top-level array | not executed | Collector.LeadingIndexPointerPanics | Collector.LeadingIndexPointerIterates |
