# Runtime filters of the TiDB planner, modelled in Dafny

This project models the runtime-filter record of TiDB's physical planner
(`planner/core/runtime_filter.go`). A runtime filter comes from one equality predicate of a hash
join. It is computed from the join's build side and pushed down to a table scan on the probe side.
The model covers what that file does:

- **Generation** (`NewRuntimeFilter`). The build-side argument of the predicate becomes the only
  source column. The other argument's unique id is returned. One filter is made per enabled filter
  type, and each takes a fresh id from the plan's id generator.
- **Assignment** (`assign`). The filter is linked to the target scan. The target column is appended.
  The filter is appended to the build join's list and to the scan's list. The scan's 10000 ms wait
  budget is set only when it receives its first filter.
- **Rendering**: the explain text from either side (`ExplainInfo`) and the debug string (`String`).
- **Cloning** (`Clone`): a detached copy that holds resolved operator ids instead of operator
  references.
- **Serialisation** (`ToPB`, `RuntimeFilterListToPB`): conversion to the execution layer's wire
  message. It fails on the first expression, or the first filter, that cannot be converted.

The physical plan is an arena (`Planning.Plan`, mutated through the class `Planning.PhysicalPlan`).
Hash joins, table scans and filters each sit in a slot. An operator pointer held by a filter is a
`NodeRef`: the slot plus the operator's plan id, which never changes. An operator's
`runtimeFilterList` holds filter slots. The rendering, cloning and serialisation operations only
read a filter. Each is a specification function over the `RuntimeFilter` datatype plus a method
with the source's loop, proved equal to that function.

Facts of the code the model keeps:

- The comment on the record (`planner/core/runtime_filter.go:69`) says the mode and the target node
  are set on assignment, but `assign` (lines 105-116) sets only the target node; it never writes the
  mode. A filter therefore keeps the zero mode after assignment.
- `assign` does not check whether the filter already has a target. `Planning.AssignTwiceBreaksLinks`
  shows what a second assignment does to the operator lists.
- `ToPB` (lines 242-248) sends every mode other than GLOBAL as LOCAL, so a filter whose mode was
  never set is sent as LOCAL.

The plan invariant `Planning.Linked` ties the operator lists to the filters in both directions: a
filter a join lists has that join as build node, a filter a scan lists has that scan as target
node, an assigned filter is listed exactly once by its build join and once by its target scan, and
an unassigned filter is listed by no operator. The plan invariant `Planning.Shaped` records that
the expression lists hold one value at present (the comment at `planner/core/runtime_filter.go:58`):
one source column per filter, and one target column once the filter is assigned, none before.

Modules: `Wrappers` (Option, Result, the stop-at-first-failure walk), `Text` (decimal text, comma
joining and splitting), `RuntimeFilters` (the record, explain, string, clone), `Serialization`
(wire messages), `Planning` (arena, generation, assignment).

## Model

| member | source | states |
|---|---|---|
| `Planning.PhysicalPlan.NewRuntimeFilter` | planner/core/runtime_filter.go:79-103 | If the right input is the build side, the source column is the right argument and the returned id is the left argument's unique id; otherwise the reverse. The new filters are `Generated` from the next generator id, one per type in `rfTypes` order. The generator advances by `len(rfTypes)`. The returned slots are the new filters'. Operators are unchanged. The plan stays well formed and linked, and ids stay unique. Every filter keeps one source column, and one target column exactly when it is assigned. |
| `Planning.GeneratedFilters` | planner/core/runtime_filter.go:91-102 | Exactly one filter per enabled type, in type order. Each has the join as build node, a one-element source list, an empty target list, no target node and the zero mode. Ids strictly increase, so they are pairwise distinct. |
| `Planning.GenerationPreservesInvariants` | planner/core/runtime_filter.go:93-101 | Adding generated filters keeps the plan well formed and linked. Ids stay unique when the new ids follow the last one handed out. |
| `Planning.AppendUnassignedKeepsLinked` | planner/core/runtime_filter.go:93-101 | New filters without a target are listed by no operator, so adding them keeps the plan linked. |
| `Planning.AppendFreshIdsKeepsUnique` | planner/core/runtime_filter.go:94-96 | Filters whose ids count up from just past the last id handed out keep all ids pairwise distinct and bounded by the new last id. |
| `Planning.GenerationKeepsShaped` | planner/core/runtime_filter.go:83-101 | New filters have one source column and no target column, so adding them keeps every filter with one source column and, exactly when assigned, one target column. |
| `Planning.PhysicalPlan.Assign` | planner/core/runtime_filter.go:105-113 | The new plan state is `Assigned` of the old one. The plan stays well formed. When the filter had no target before, the plan stays linked and every filter keeps one source column, and one target column exactly when it is assigned. |
| `Planning.AssignEffect` | planner/core/runtime_filter.go:105-113 | The filter's target node becomes the scan, and the target list grows by exactly the given column. The filter is appended once to the end of the build join's list and of the scan's list. The budget becomes 10000 when the scan's list was empty and is kept otherwise. The filter differs from before only in target node and target list: id, type, mode, sources, build node, the stored endpoint ids, every other filter and operator, and all operator ids are unchanged. |
| `Planning.AssignPreservesInvariants` | planner/core/runtime_filter.go:105-113 | Assignment keeps the plan well formed and ids unique. When the filter was unassigned it keeps the plan linked in both directions: every list entry points back at its operator, the filter becomes listed exactly once by its build join and once by the scan, and every other filter is listed as often as before. |
| `Planning.AssignKeepsWellFormed` | planner/core/runtime_filter.go:105-113 | After assignment every list entry and every operator reference still names an existing slot. |
| `Planning.AssignKeepsBackLinks` | planner/core/runtime_filter.go:106-113 | After assigning an unassigned filter, every join-list entry has that join as build node and every scan-list entry has that scan as target node. |
| `Planning.AssignKeepsCounts` | planner/core/runtime_filter.go:112-113 | After assigning an unassigned filter, it is listed exactly once by its build join and once by the scan; every other unassigned filter is still listed by no operator, and every other assigned filter still exactly once by each of its operators. |
| `Planning.AssignKeepsShaped` | planner/core/runtime_filter.go:105-111 | Assigning an unassigned filter gives it exactly one target column and keeps every other filter's column counts. |
| `Planning.SecondAssignKeepsBudget` | planner/core/runtime_filter.go:107-110 | Two filters assigned in turn to one scan are both listed, in order. The budget after both is the one the first assignment left: 10000 if the scan had no filter before, else unchanged. |
| `Planning.AssignTwiceBreaksLinks` | planner/core/runtime_filter.go:105-113 | Assigning one unassigned filter twice, to the same scan or to two different scans, is accepted. Its target list then holds both columns, both scans list it, its build join lists it twice, it points at the second scan only, and the plan is no longer linked. |
| `RuntimeFilters.ExplainInfo` | planner/core/runtime_filter.go:119-140 | The loop builds `ExplainText`: the id, the type in brackets, then ` <- ` and the source texts from the build side, or ` -> ` and the target texts otherwise. Texts are joined by commas that come only between neighbours. |
| `RuntimeFilters.ExplainListsColumns` | planner/core/runtime_filter.go:122-138 | The text starts with the header, and an empty list yields the header alone. Otherwise, when no column text holds a comma, splitting the rest at commas gives back the column texts in list order. So there is no leading or trailing comma. |
| `Text.SplitJoin` | planner/core/runtime_filter.go:124-129 | Splitting comma-joined, comma-free texts gives back the texts. |
| `RuntimeFilters.String` | planner/core/runtime_filter.go:142-173 | The loops build `FilterString`, in this order: id, build node id, target node id or `nil`, each source text followed by a comma, each target text followed by a comma, type, and mode or `nil`, then a full stop. |
| `RuntimeFilters.TargetNodeFieldNil` | planner/core/runtime_filter.go:148-152 | The target field reads `targetNodeID=nil` exactly when the target node is nil. |
| `RuntimeFilters.ModeFieldNil` | planner/core/runtime_filter.go:166-170 | The mode field reads `rfMode=nil` exactly when the mode is the zero value. |
| `Text.TerminatedIsJoinedPlusComma` | planner/core/runtime_filter.go:154-162 | A non-empty list with a comma after every text equals the comma-joined list plus one trailing comma. |
| `RuntimeFilters.AppendTerminated` | planner/core/runtime_filter.go:154-162 | The loop appends each column text followed by a comma, in list order: the result is the input text followed by `Terminated` of the column texts. |
| `RuntimeFilters.Clone` | planner/core/runtime_filter.go:176-201 | The loops copy both expression lists element by element, and the result is `Cloned`. |
| `RuntimeFilters.CloneKeepsFilter` | planner/core/runtime_filter.go:176-201 | The clone has the same id, type and mode, and the same source and target lists (length and order). It holds no operator reference. Each endpoint id comes from the live operator when there is one, else from the stored id. |
| `RuntimeFilters.CloneIdempotent` | planner/core/runtime_filter.go:181-190 | Cloning a clone gives the same clone. |
| `Serialization.ToPB` | planner/core/runtime_filter.go:217-259 | The two loops and the two switches compute `Wire`. They stop at the first source, then the first target, that has no wire form. |
| `Serialization.WireFailure` | planner/core/runtime_filter.go:219-234 | Conversion fails exactly when some source or target expression has no wire form. A source error is reported exactly when some source fails, and it names the first failing source. A target error means every source converted, and it names the first failing target. |
| `Serialization.WireSuccess` | planner/core/runtime_filter.go:235-258 | On success the message carries `int32(id)` and the converted sources and targets in order and count. The executor ids are decimal texts that read back as the stored build and target ids. The type is MIN_MAX exactly for MinMax, and the mode is GLOBAL exactly for Global. |
| `Serialization.TypeToPB` | planner/core/runtime_filter.go:235-241 | MinMax maps to MIN_MAX, everything else to IN. |
| `Serialization.ModeToPB` | planner/core/runtime_filter.go:242-248 | Global maps to GLOBAL, everything else, the unset mode included, to LOCAL. |
| `Serialization.Int32` | planner/core/runtime_filter.go:250 | The result lies in the int32 range and equals the id modulo 2^32. It is the id itself when the id fits. |
| `Serialization.CloneThenWire` | planner/core/runtime_filter.go:253-254 | A clone converts exactly when the original does. Its executor ids read back as the ids of the operators the original points at, or of the ids it already held. |
| `Text.NatDigits` | planner/core/runtime_filter.go:253-254 | The digits of a natural number: at least one, all decimal digits, more than one exactly from 10 on, and no leading zero. |
| `Text.DecimalString` | planner/core/runtime_filter.go:253-254 | The text is an optional minus sign then digits, and it begins with a minus sign exactly for negative numbers. |
| `Text.DecimalRoundTrip` | planner/core/runtime_filter.go:253-254 | A decimal id text reads back as the id. |
| `Text.DecimalInjective` | planner/core/runtime_filter.go:144-151 | Different ids print differently. |
| `Serialization.RuntimeFilterListToPB` | planner/core/runtime_filter.go:204-214 | The loop computes `WireList`, returning at the first filter that fails. |
| `Serialization.WireListAllOrNothing` | planner/core/runtime_filter.go:204-214 | On success there is one message per filter, in input order, each that filter's own message. On failure the result is the first failing filter's error, every earlier filter converted, and no list is returned. Empty input gives an empty list. |
| `Wrappers.MapUntilFailure` | planner/core/runtime_filter.go:220-226 | On success there is one result per input, in order. On failure the error is that of an element whose predecessors all converted. |
| `Wrappers.FailureIsFinal` | planner/core/runtime_filter.go:207-210 | Once a prefix fails, the whole input fails with the same error. |

## Left out

- Predicate arguments that are not columns: the source's type assertion panics on them. The model takes the two arguments as columns.
- `RuntimeFilters.String` requires a live build node, because the source dereferences it.
- `Planning.PhysicalPlan.Assign` requires a filter that has a build node, as every generated filter does, because the source dereferences it.
- The debug log call in `assign`: it is an observability side effect only.
- Column printing and cloning are not part of this model. A column is its unique id and its text, and a clone of a column is the same value.
- The expression converter, the statement context and the client are not part of this model. Together they are one parameter: a partial function from column to wire expression.
- The tipb byte encoding is not part of this model.
- The error value is the failing expression's text and its side (source or target). The formatted message and the stack trace are left out.
- The session's enabled-type list is a parameter.
- The source of the id generator (`util.IDGenerator`) is not part of this model. The model assumes it is a counter that advances by exactly one per call and returns the new value. The contracts of `Planning.PhysicalPlan.NewRuntimeFilter` and `Planning.GeneratedFilters` rely on that (consecutive ids from the next value, the counter advancing by the number of types); only the pairwise distinctness of ids and `Planning.UniqueIds` would hold for any strictly increasing generator.
- The type and mode names (`IN`, `MIN_MAX`, `OFF`, `LOCAL`, `GLOBAL`) come from their own package, which is not part of this model.
- Filter and operator ids are unbounded integers. The model does not capture Go's 64-bit `int`, and the only truncation it models is the explicit `int32` of the wire id.
- All filters from one generation share one source slice. The model gives them equal sequence values instead of shared storage.
- Waiting on the budget at execution time is not modelled (timers, cancellation). Only the stored value is.
