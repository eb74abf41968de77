# clustertools: a verified model of the in-memory core

This project models the parts of `clustertools` that run in memory:

- **The result datacube** (`clustertools/datacube.py`). This covers the `Hasher` and the `Datacube`.
  - The `Hasher` is a mixed-radix encoding of a metric name and one value per parameter into a flat index.
  - `Datacube.__init__` splits the observed parameters into axes and metadata, allocates the data list and writes every result through the hasher.
  - Indexing (`__getitem__`, `__call__`) returns the cube itself, a stored value or a narrowed clone.
  - The model also covers the enumerations `items`, `in_domain`, `out_of_domain`, `_missing_ratio`, `_some_miss_vs_all_there` and `iter_dimensions`, and the in-place `reorder_parameters`.
- **The parameter sets** (`clustertools/parameterset.py`):
  - the explicit FIFO set;
  - the cartesian builder with separators and its staged `_iter`;
  - the constraint filter and the priority sort that decorate another set;
  - the `get_indices_with` and `__getitem__` lookups.
- **The computation states** (`clustertools/state.py`). This covers the state automaton (`reset`, `abort`, `is_not_up`, `to_*`, `update_progress`, `__eq__`) and the `Monitor` that rewrites its list of states.
- **The legacy experiment** (`clustertools/experiment.py`). This covers its value lists, its labelled cartesian enumeration, its lookup by index or label, and the legacy `Hasher`.
- **The legacy notification lookups** (`clustertools/notification.py`):
  - `is_up`, `_filter` and `_sort_by_state`;
  - `Historic`'s reclassification of stale jobs, with `get_state`, `is_launchable` and `count_by_state`;
  - `yield_not_done_computation`.

Modelling conventions:

- **Dicts.** A Python dict is `Dict<K, V> = seq<(K, V)>` with distinct keys. The sequence order is the mapping's iteration order. Order matters: the hasher's strides follow the iteration order of the `domain` mapping (datacube.py:32-36). That order is insertion order only for Python 3.7 and later; in Python 2 a dict iterates in hash order. The proved properties hold for any iteration order. The dehash example under "## Findings" assumes insertion order; under hash order other names show the same flaw.
- **Sets.** A Python set is a duplicate-free sequence. The source sorts sets before any order-dependent use.
- **Values.** Parameter values are `Num(int) | Text(string) | Tuple(seq<Value>)`, with one total order: numbers, then strings, then tuples, each compared lexicographically inside. `str(x)` is modelled concretely.
- **Exceptions.** A Python exception becomes `Err(e)` in a `Result`. `e` is one of `KeyError`, `IndexError`, `ValueError`, `ZeroDivisionError`, `AttributeError` or `TypeError`.
- **Specification functions and classes.** Each operation is a pure function on values. Where the source mutates an object, a class (`Hasher`, `Datacube`, `CartesianParameterSet`, `ConstrainedParameterSet`, `PrioritizedParamSet`, `ExplicitParameterSet`, `Monitor`, `Historic`, `Experiment`) has methods with loops. Each method is proved against its function, and lemmas about the functions state what the source promises.
- **External calls.** These calls become parameters:
  - the environment's list of queued jobs;
  - the storage's loaded states and notifications;
  - the constraints of a constrained set.

  Storage writes are identities: `PickleStorage.update_state` returns its argument.

## Model

| member | source | states |
|---|---|---|
| Hashing.Inverse | clustertools/datacube.py:33 | `{p: i for i, p in enumerate(vals)}` has distinct keys, exactly the values of the list |
| HashingFacts.InverseLastIndex | clustertools/datacube.py:33 | with repeated values the comprehension keeps, for each value, its last position |
| HashingFacts.SortBackInverse | clustertools/datacube.py:21-25 | `sort_back` of the enumeration inverse of a duplicate-free list gives the list back |
| Hashing.AxisTables | clustertools/datacube.py:29-38 | the constructor's loop over the domain builds each axis's value inverse, a stride equal to the running product of the earlier axis sizes, and the metric stride equal to the product of all sizes |
| Hashing.MetadataTables | clustertools/datacube.py:39-42 | the constructor's loop over the metadata gives each name stride 0 and the single value `{v: 0}` |
| Hashing.Hasher.constructor | clustertools/datacube.py:27-42 | the constructed hasher holds the tables `Build(metrics, domain, metadata)`; no metadata is an empty mapping |
| Hashing.Hasher.AddMetadata | clustertools/datacube.py:65-68 | the new tables add stride 0 and `{v: 0}` for each keyword, overwriting an existing name in place |
| Hashing.Hasher.Hash | clustertools/datacube.py:70-82 | the loop returns the hash specification `HashOf`: `IndexError` on a wrong parameter count, `KeyError` on an unknown metric, name or value, otherwise the sum of the terms |
| Hashing.Hasher.Dehash | clustertools/datacube.py:84-104 | the method returns the dehash specification `DehashOf` (metric by floor division, then dimensions by decreasing `(stride, name)`, skipping stride 0) |
| Hashing.Hasher.DehashFrom | clustertools/datacube.py:93-102 | the loop over `dims` agrees with `DehashDims` |
| Hashing.Hasher.GetConsArgs | clustertools/datacube.py:44-55 | the method returns `ConsArgsOf`: metrics sorted back, stride-0 names as metadata, the rest as axes, `None` for no metadata |
| HashingFacts.HashArity | clustertools/datacube.py:77-78 | `hash` raises `IndexError` whenever the number of parameters differs from the number of axes plus metadata names |
| HashingFacts.HashUnknownMetric | clustertools/datacube.py:79 | with the right number of parameters, an unknown metric raises `KeyError` |
| HashingFacts.HashValue | clustertools/datacube.py:70-82 | for a valid key the hash is the mixed-radix number of the value positions (first axis fastest), plus the metric's position times the metric stride |
| Hashing.HashOf | clustertools/datacube.py:70-82 | `hash`: IndexError when the number of parameters differs from the number of axes plus metadata, KeyError for an unknown metric or value, otherwise the metric's position times the metric stride plus each value's position times its stride; `HashingFacts.HashInjective`, `HashRange` and `HashOnto` prove it a bijection onto [0, size) |
| HashingFacts.HashRange | clustertools/datacube.py:27-38 | the hash of a valid key lies in `[0, |metrics| * Π|domain_i|)` |
| HashingFacts.HashInjective | clustertools/datacube.py:70-82 | two valid keys with the same hash have the same metric and the same parameter values |
| HashingFacts.HashOnto | clustertools/datacube.py:27-38 | every index in `[0, |metrics| * Π|domain_i|)` is the hash of some valid key |
| HashingFacts.ConsArgsRoundTrip | clustertools/datacube.py:44-55 | `get_cons_args` returns the metrics, domain and metadata the hasher was built from (metadata `None` when empty), so the hasher can be rebuilt from them |
| HashingFacts.MetadataConcat | clustertools/datacube.py:65-68 | two `add_metadata` calls lay out the same tables as one call with both mappings |
| HashingFacts.AddMetadataBuild | clustertools/datacube.py:65-68 | `add_metadata` after construction equals passing the metadata to the constructor |
| HashingFacts.AddMetadataHash | clustertools/datacube.py:65-68 | adding metadata moves no index: a key extended with the new metadata values hashes where it did |
| DehashFacts.DehashHash | clustertools/datacube.py:84-104 | when every axis has at least two values and none is called `"metric"`, `dehash(hash(m, params))` returns the metric under `"metric"` and every axis value, without the metadata |
| Hashing.DehashOf | clustertools/datacube.py:84-104 | `dehash`: the metric from the quotient by the metric stride, then each dimension in reverse-sorted `(stride, name)` order from the remainder, metadata skipped; `DehashFacts.DehashHash` proves it inverts `hash` on hashers whose axes all have two or more values |
| DehashFacts.DehashOneValueAxis | clustertools/datacube.py:93-101 | as written, with domain `[("b", ["v"]), ("a", ["x", "y", "z"])]` and metric `"m"`, `hash` gives 2 and `dehash(2)` raises `IndexError` |
| DehashFacts.DehashInOrderHash | clustertools/datacube.py:84-104 | the corrected dehash (axes visited from the largest stride down, in reverse insertion order) inverts `hash` for every valid key, one-value axes included, when no axis is called `"metric"` |
| CubeBuild.CollectValues | clustertools/datacube.py:138-146 | the first construction loop builds `param_tmp` as `ObserveAll` of the parameter dicts |
| CubeBuild.ObservedNames | clustertools/datacube.py:138-146 | `param_tmp` has exactly the parameter names that some row uses |
| CubeBuild.ObservedValues | clustertools/datacube.py:138-146 | each name's set holds exactly the values observed for it |
| CubeBuild.SplitParameters | clustertools/datacube.py:151-158 | the loop over `param_tmp` splits it into axes, metadata and the axis-name list as `SplitItems` does |
| CubeBuild.SplitDomain | clustertools/datacube.py:151-156 | a name with more than one observed value becomes an axis holding them sorted and stringified; the axis list names exactly the axes |
| CubeBuild.SplitMetadata | clustertools/datacube.py:157-158 | a name with exactly one observed value becomes metadata holding it stringified |
| CubeBuild.CollectMetrics | clustertools/datacube.py:161-167 | the loop over the results and the sort give the metric list `Metrics(rs)` |
| CubeBuild.MetricsFacts | clustertools/datacube.py:161-167 | the metric list is sorted, has no repeat, and names exactly the metrics some result reports |
| CubeBuild.AxisShape | clustertools/datacube.py:170-173 | the shape loop lists the axis sizes in `parameter_list` order |
| CubeBuild.FillRow | clustertools/datacube.py:181-184 | the inner fill loop writes one row's results in place as `FillFrom` specifies, or raises what it raises |
| CubeBuild.Fill | clustertools/datacube.py:178-184 | the fill loop writes each result, in order, at the index the hasher gives it, or raises the hasher's error |
| CubeBuild.LastHitFacts | clustertools/datacube.py:178-184 | the last write to a slot is empty exactly when no result is written there; otherwise it is the value of a write there that no later write there follows |
| CubeBuild.FillFacts | clustertools/datacube.py:178-184 | after the writes every slot holds its last write, or what it held |
| CubeBuildFacts.ShapeProduct | clustertools/datacube.py:169-176 | `reduce(mul, shape, 1)` is the metric count times the product of the axis sizes, whatever order the axes are listed in |
| CubeBuildFacts.SkeletonParameters | clustertools/datacube.py:149-159 | `parameters` lists each axis name once, sorted, and exactly the axes |
| CubeBuildFacts.SkeletonShape | clustertools/datacube.py:169-174 | `shape` is the axis sizes in `parameters` order, then the metric count |
| CubeBuildFacts.SkeletonData | clustertools/datacube.py:175-176 | the data list has `Π shape` slots, all `None` |
| CubeBuildFacts.SkeletonMetrics | clustertools/datacube.py:161-167 | the metric list holds every reported metric once, sorted |
| CubeBuildFacts.SkeletonAxes | clustertools/datacube.py:151-156 | a parameter is an axis exactly when two different values of it were seen; the axis holds them sorted and stringified, however the set is iterated |
| CubeBuildFacts.SkeletonMetadata | clustertools/datacube.py:157-158 | a parameter is metadata exactly when a single value of it was seen, which it holds stringified |
| CubeBuildFacts.SkeletonWellFormed | clustertools/datacube.py:179 | the hasher the constructor builds gets inputs meeting the hash lemmas' conditions |
| CubeBuildFacts.BuiltFill | clustertools/datacube.py:178-184 | when every row names the same parameters and `str` keeps their values apart, construction raises nothing and each result goes to its hash index inside the data list |
| CubeBuildFacts.BuiltCells | clustertools/datacube.py:176-184 | after construction each slot holds the last result written to it; a slot nothing was written to is still `None` |
| CubeBuildFacts.BuiltSkeleton | clustertools/datacube.py:187-196 | the attributes other than `data` are those set up before the fill loop |
| Cube.Attributes | clustertools/datacube.py:137-167 | the part of the constructor before allocation computes the metadata, domain, sorted parameter list and metrics of `Skeleton` |
| Cube.Allocate | clustertools/datacube.py:169-179 | the allocated data list, shape and hasher are those of `Skeleton` |
| Cube.Datacube.constructor | clustertools/datacube.py:187-196 | sets every attribute; the parameter list gets its own array |
| Cube.Datacube.Make | clustertools/datacube.py:137-196 | `Datacube(parameters_ls, results_ls, exp_name)` yields the cube `Built` describes, or raises the fill loop's error |
| Cube.Datacube.AddMetadata | clustertools/datacube.py:209-211 | the cube's metadata is updated with the keywords and its (shared) hasher gets the same metadata; nothing else changes |
| Cube.OrderOf | clustertools/datacube.py:448-454 | `order` keeps each int and looks each name up; it raises `ValueError` exactly when some name is not a parameter |
| Cube.Unmentioned | clustertools/datacube.py:455 | `diff` is exactly the positions below `len(parameters)` that `order` lacks, increasing |
| Cube.ResolveOrder | clustertools/datacube.py:448-454 | the loop building `order` agrees with `OrderOf` |
| Cube.Unlisted | clustertools/datacube.py:455 | the comprehension loop agrees with `Unmentioned` |
| Cube.Gather | clustertools/datacube.py:457 | `tmps` is `[lst[i] for i in order]`, or `IndexError` |
| Cube.Overwrite | clustertools/datacube.py:458-459 | the write loop over the array agrees with `Overwritten`, raising `IndexError` past the end |
| Cube.Datacube.ReorderParameters | clustertools/datacube.py:447-459 | the parameter array is rewritten in place as `Reordering` describes, with the same error |
| ReorderFacts.ReorderExact | clustertools/datacube.py:447-459 | with distinct positions in range nothing raises and the list becomes the gathered completion of `order` |
| ReorderFacts.ReorderPermutes | clustertools/datacube.py:447-459 | on a duplicate-free list with distinct in-range arguments the result is a permutation: the named axes first in the given order, then the others in their previous order |
| ReorderFacts.ReorderOverrun | clustertools/datacube.py:455-459 | a negative or repeated position makes `tmps` longer than the list: the first `len(parameters)` entries are written, then `IndexError` |
| ReorderFacts.ReorderRepeatedName | clustertools/datacube.py:454-459 | naming a parameter twice leaves it in the first two places and raises `IndexError` |
| ReorderFacts.ReorderUnknown | clustertools/datacube.py:454 | an unknown name raises `ValueError` and leaves the list alone |
| ReorderFacts.ReorderOutOfRange | clustertools/datacube.py:457 | a position out of range raises `IndexError` before any write |
| CubeSelect.Wrap | clustertools/datacube.py:273-276 | a non-negative int is kept; a negative one is wrapped by `len(self)` and still negative raises `IndexError` |
| CubeSelect.IndexByName | clustertools/datacube.py:213-219 | `_get_index_by_name` returns the first position of the value in the axis (or metric) list, else `KeyError` |
| CubeSelect.ResolveIndex | clustertools/datacube.py:255-313 | the loop building `fixed` (and `return_scalar`), with the padding by whole slices, agrees with `Index` |
| CubeSelect.CheckWhole | clustertools/datacube.py:318-328 | the `same_obj` loop agrees with `IsWhole` |
| CubeSelect.CollectParams | clustertools/datacube.py:338-342 | the scalar path's `params` is the metadata updated with the picked value of each axis |
| CubeSelect.ReadScalar | clustertools/datacube.py:335-343 | the scalar path reads `data[hash(metric, params)]` through the cube's hasher |
| CubeSelect.Reorder | clustertools/datacube.py:361 | `reorder(vals, idx)`, taken to be `[vals[i] for i in idx]` since `util.reorder` is not part of this model; it raises `IndexError` exactly when an index is out of Python's range |
| CubeSelect.AxisRound | clustertools/datacube.py:353-372 | one clone pass narrows axis `i`; an axis left with one value moves to the metadata and leaves `parameters` |
| CubeSelect.NarrowAxes | clustertools/datacube.py:353-372 | the clone loop agrees with `CloneAxes`, and the clone gets its own parameter list exactly when an axis was demoted |
| CubeSelect.CloneParts | clustertools/datacube.py:345-386 | the clone path agrees with `CloneView`, and shares the parameter list exactly when no axis was demoted |
| CubeSelect.Select | clustertools/datacube.py:234-386 | `__getitem__`: resolves each index, returns the cube itself for a whole selection, a scalar read when every axis and the metrics are fixed, and the narrowed clone otherwise; `CubeSelectFacts` and `CloneFacts` prove each of these outcomes and its errors |
| Cube.Datacube.GetItem | clustertools/datacube.py:234-386 | `cube[index]` returns the cube itself, the stored value, or a fresh clone, as `Select` describes |
| Cube.Datacube.Call | clustertools/datacube.py:402-422 | `cube(metric, **kwargs)` returns what `CubeSelect.Call` describes |
| CubeSelectFacts.TooManyIndices | clustertools/datacube.py:259-260 | more entries than axes raises `IndexError` |
| CubeSelectFacts.WholeSelections | clustertools/datacube.py:318-330 | an index of `...` and whole slices returns the very same cube |
| CubeSelectFacts.CallWhole | clustertools/datacube.py:402-422 | a call without arguments, or whose arguments all keep whole axes, returns the very same cube |
| CubeSelectFacts.CallUnknown | clustertools/datacube.py:414-416 | a keyword that is not a parameter raises `IndexError` |
| CubeSelectFacts.CallUnknownMetric | clustertools/datacube.py:213-232 | asking for a metric the cube lacks raises `KeyError` |
| CubeSelectFacts.ScalarPoints | clustertools/datacube.py:335-343 | an int or a name on every axis and on the metrics reads the data list at the hash of the chosen metric and the metadata updated with the chosen values |
| CubeSelectFacts.BuiltLookup | clustertools/datacube.py:335-343 | on a constructed cube that read gives the last result recorded for that metric under those values and the metadata, or `None` |
| CubeSelectFacts.CallLookup | clustertools/datacube.py:402-422 | `cube(metric, **kwargs)` naming a value of every parameter gives the last result recorded for them, or `None` |
| CloneFacts.CloneViewFacts | clustertools/datacube.py:345-386 | a clone is consistent and sized, shares name, data and hasher, and narrows the original's metrics |
| CloneFacts.SelectClone | clustertools/datacube.py:345-386 | a clone narrows every axis; an axis left with one value becomes metadata; the original metadata is kept and the metrics only narrow |
| CloneFacts.OneSelect | clustertools/datacube.py:262-313 | one value picked on one axis, the rest whole, selects a clone |
| CloneFacts.CallOne | clustertools/datacube.py:364-368 | `cube(name=value)` is a clone in which that axis became the metadatum `name = value`; the metadata are kept and no axis is added |
| CubeQuery.Axes | clustertools/datacube.py:486 | `[self.domain[p] for p in self.parameters]`, or `KeyError` when a parameter has no axis |
| CubeQuery.RowsOf | clustertools/datacube.py:486-492 | `items` yields, for each assignment in order, the assignment and the row the hasher reads |
| CubeQuery.Items | clustertools/datacube.py:482-492 | `items`: for each assignment of the product of the axes, in `self.parameters` order, the tuple of its metric slots; `QueryFacts.ItemsShape` proves one row per assignment with one value per metric |
| QueryFacts.ItemsShape | clustertools/datacube.py:482-492 | `items` yields one row per assignment of the product of the axes, in `itertools.product` order, with one value per metric |
| BuiltQueryFacts.ItemsHashed | clustertools/datacube.py:482-492 | on a hashed cube `items` raises nothing and each metric's value is the data slot its hash names |
| BuiltQueryFacts.BuiltItems | clustertools/datacube.py:482-492 | on a constructed cube each metric in `items` holds the last result recorded under its assignment, or `None` |
| CubeQuery.AllPresent | clustertools/datacube.py:497-501 | the inner loop of `in_domain` decides whether the row misses no metric |
| CubeQuery.CollectFilled | clustertools/datacube.py:494-505 | the loop of `in_domain` collects the assignments of the complete rows |
| CubeQuery.CollectInDomain | clustertools/datacube.py:494-505 | `in_domain()` agrees with `InDomain` |
| QueryFacts.FilledExact | clustertools/datacube.py:494-505 | a dict is listed by `in_domain` exactly when it is the assignment of a row with no `None` |
| BuiltQueryFacts.BuiltInDomain | clustertools/datacube.py:494-505 | on a constructed cube `in_domain` lists exactly the assignments under which every metric has a recorded result |
| CubeQuery.CollectGaps | clustertools/datacube.py:510-513 | the inner loop of `out_of_domain` collects one row's missing metrics |
| CubeQuery.CollectMissing | clustertools/datacube.py:507-514 | the loop of `out_of_domain` collects every row's missing pairs |
| CubeQuery.CollectOutOfDomain | clustertools/datacube.py:507-514 | `out_of_domain()` agrees with `OutOfDomain` |
| QueryFacts.MissingExact | clustertools/datacube.py:507-514 | a pair is listed by `out_of_domain` exactly when some row holds `None` for that metric |
| QueryFacts.MissingCount | clustertools/datacube.py:507-514 | at most one pair per row and metric |
| CubeQuery.MissingRatio | clustertools/datacube.py:516-519 | `_missing_ratio`: the number of missing (assignment, metric) pairs over `size()`, ZeroDivisionError on an empty cube; `QueryFacts.MissingRatioBounds` proves the fraction lies in [0, 1] |
| BuiltQueryFacts.BuiltOutOfDomain | clustertools/datacube.py:507-514 | on a constructed cube `out_of_domain` lists exactly the (assignment, metric) pairs with no recorded result |
| QueryFacts.MissingRatioBounds | clustertools/datacube.py:516-519 | the missing ratio is a fraction in [0, 1] over `size()`, and `ZeroDivisionError` exactly when the size is 0 |
| QueryFacts.BuiltSize | clustertools/datacube.py:202-203 | `size()` of a constructed cube is the length of its data list |
| QueryFacts.SplitByMisses | clustertools/datacube.py:532-534 | per axis, the values some missing assignment takes and the others together are a permutation of the axis |
| CubeQuery.SomeMissVsAllThere | clustertools/datacube.py:521-535 | `_some_miss_vs_all_there`: per axis, the values some missing assignment takes and the values none takes, with KeyError for a missing assignment without some parameter or for a non-empty axis that is not a parameter; `QueryFacts.SomeMissSplits` proves the split is a partition of each axis in axis order |
| QueryFacts.SomeMissSplits | clustertools/datacube.py:521-535 | `_some_miss_vs_all_there` splits every axis into the values some missing assignment takes and those none takes, each in axis order |
| QueryFacts.SomeMissKeyError | clustertools/datacube.py:526-528 | a missing assignment without some parameter raises `KeyError` |
| CubeQuery.Len | clustertools/datacube.py:399-400 | `len(cube)` is `shape[0]`, and fails exactly on an empty shape |
| QueryFacts.LenFirstAxis | clustertools/datacube.py:399-400 | `len(cube)` is the size of the first axis, or the metric count when no axis is left |
| CubeQuery.CubeEq | clustertools/datacube.py:573-583 | `__eq__`: equal names, metadata, parameters, domains, metrics and data lists; `QueryFacts.CubeEqEquivalence` proves it an equivalence |
| QueryFacts.CubeEqEquivalence | clustertools/datacube.py:573-583 | cube equality is reflexive, symmetric and transitive |
| CubeQuery.IterDimensions | clustertools/datacube.py:461-477 | `iter_dimensions`: a metadata dimension contributes its one value without branching, an axis branches into one call-slice per value (`KeywordCall`), depth first in the given dimension order; `IterFacts.WalkDimensions` and `IterDimensionsProduct` prove it yields the product of the dimensions' values |
| IterFacts.WalkDimensions | clustertools/datacube.py:461-477 | the recursive walk raises nothing and yields the cartesian product of the dimensions' values, each with its cube |
| CubeQuery.KeywordCall | clustertools/datacube.py:402-416 | `self(**{dim: value})`: a keyword called `metric` binds to `__call__`'s `metric` parameter and selects a metric; any other keyword narrows its axis; `IterFacts.IterMetricAxis` states the consequence |
| IterFacts.IterDimensionsProduct | clustertools/datacube.py:461-477 | for distinct dimensions on a cube with no one-value axis, none of them an axis called `"metric"`, `iter_dimensions(*dims)` yields as many tuples as the product of the dimensions' value counts, in product order, and each yielded cube holds its tuple's values |
| IterFacts.IterMetricAxis | clustertools/datacube.py:461-477 | on a cube with an axis called `"metric"` whose first value is not a metric name, `iter_dimensions("metric", ...)` raises KeyError, because `self(metric=value)` looks the value up among the metrics |
| LegacyHashing.AxisTables | clustertools/experiment.py:161-170 | the constructor's loop builds the value inverses, running-product strides and the metric stride |
| LegacyHashing.MetadataTables | clustertools/experiment.py:171-174 | metadata names get stride 0 and `{val: 0}` |
| LegacyHashing.Hasher.constructor | clustertools/experiment.py:159-174 | the legacy `Hasher.__init__`: the metric inverse, the axis inverses with running-product strides and the metric stride, then stride 0 for each metadata name, as `Build` lays them out |
| LegacyHashing.Hasher.Hash | clustertools/experiment.py:176-180 | the method returns `HashOf`: `KeyError` on an unknown metric or lookup, otherwise the sum of the terms |
| LegacyHashingFacts.HashValue | clustertools/experiment.py:176-180 | the hash of a metric and chosen value positions is their mixed-radix number plus the metric's position times the product of the axis sizes |
| LegacyHashingFacts.HashRange | clustertools/experiment.py:159-170 | the hash lies in `[0, Π|domain_i| * |metrics|)` |
| LegacyHashingFacts.HashInjective | clustertools/experiment.py:176-180 | distinct assignments have distinct hashes |
| LegacyHashingFacts.HashIgnoresMetadata | clustertools/experiment.py:171-174 | a metadata entry adds nothing to the hash |
| LegacyHashingFacts.TermsErr | clustertools/experiment.py:178-179 | the loop raises exactly when some parameter cannot be looked up, and raises `KeyError` |
| LegacyHashingFacts.HashErr | clustertools/experiment.py:176-180 | `hash` raises `KeyError`, and nothing else, exactly when the metric or some parameter cannot be looked up |
| ParamSets.Matches | clustertools/parameterset.py:53-57 | the inner loop of `get_indices_with` holds exactly when each named value lies in its set, and raises `KeyError` only for a missing name |
| ParamSets.MatchesLoop | clustertools/parameterset.py:53-57 | the loop agrees with `Matches` |
| ParamSets.GetIndicesWith | clustertools/parameterset.py:43-59 | the loop collecting the yielded indices agrees with `IndicesWith` |
| ParamSets.IndicesWithErr | clustertools/parameterset.py:43-59 | `get_indices_with` raises, and raises `KeyError`, exactly when some tuple lacks a named parameter |
| ParamSets.IndicesWithFits | clustertools/parameterset.py:43-59 | otherwise it yields, in order, exactly the indices of the tuples whose named values lie in their sets |
| ParamSets.IndicesWith | clustertools/parameterset.py:43-59 | `get_indices_with` over an enumeration: the indices, in order, of the tuples whose named values lie in their sets, KeyError when a tuple lacks a named parameter; `IndicesWithErr` and `IndicesWithFits` prove both cases |
| ParamSets.ItemAt | clustertools/parameterset.py:61-66 | `ps[index]` is the dict of a pair enumerated under `index`, and `KeyError` exactly when there is none |
| ParamSets.GetItem | clustertools/parameterset.py:61-66 | the loop agrees with `ItemAt` |
| ParamSets.ExplicitParameterSet.constructor | clustertools/parameterset.py:86-87 | the queue is the given one or empty |
| ParamSets.ExplicitParameterSet.AddParameterTuple | clustertools/parameterset.py:93-103 | the tuple is appended to the queue |
| ParamSetFacts.ExplicitItem | clustertools/parameterset.py:105-110 | the explicit set enumerates its queue from 0, so `ps[i]` is the `i`-th tuple added, else `KeyError` |
| ParamSets.ExplicitParameterSet.Iter | clustertools/parameterset.py:108-110 | `__iter__`: the queued tuples in insertion order, numbered 0..n-1; `ParamSetFacts.ExplicitItem` proves `ps[i]` is the i-th of them |
| ParamSets.CartesianParameterSet.constructor | clustertools/parameterset.py:139-146 | the stages are the given ones, or one empty stage; the names are those of every stage |
| ParamSets.CollectNames | clustertools/parameterset.py:144-146 | the loop gathering `parameter_names` agrees with `NamesOf` |
| ParamSets.NamesOf | clustertools/parameterset.py:144-146 | the names are duplicate-free and exactly the keys of some stage |
| ParamSetFacts.InitOk | clustertools/parameterset.py:139-146 | the constructor gives a well-formed builder whose names are those of its stages; an empty sequence gives one empty stage |
| ParamSets.CartesianParameterSet.AddSingleValues | clustertools/parameterset.py:168-185 | the method updates the builder as `AddSingles` describes, raising its error |
| ParamSetFacts.AddSinglesErr | clustertools/parameterset.py:176-183 | `add_single_values` raises `ValueError` exactly when a separator exists and a binding names a new parameter |
| ParamSetFacts.AddSinglesOk | clustertools/parameterset.py:174-184 | otherwise the last stage gets every binding's value as-is and the names grow by the bound names |
| ParamSetFacts.AddSinglesMember | clustertools/parameterset.py:184 | each set of the last stage gains exactly the values bound to its name |
| ParamSets.CartesianParameterSet.AddParameters | clustertools/parameterset.py:187-208 | the method updates the builder as `AddParams` describes |
| ParamSets.CartesianParameterSet.AddValues | clustertools/parameterset.py:206-207 | the loop over one argument's values agrees with `AddEach` |
| ParamSetFacts.AddParamsFlat | clustertools/parameterset.py:195-207 | `add_parameters` is `add_single_values` on every value of every argument in turn: a string or a non-iterable is one value, an iterable gives its elements |
| ParamSetFacts.AddParamsErr | clustertools/parameterset.py:187-208 | `add_parameters` raises `ValueError` exactly when a separator exists and an argument with a value names a new parameter |
| ParamSetFacts.AddParamsMember | clustertools/parameterset.py:187-208 | otherwise each set of the last stage gains exactly the values given for its name |
| ParamSets.CartesianParameterSet.AddSeparator | clustertools/parameterset.py:210-231 | the method updates the builder as `WithSeparator` describes |
| ParamSetFacts.SeparatorErr | clustertools/parameterset.py:220-222 | `add_separator` raises `ValueError` exactly when it names a known parameter |
| ParamSetFacts.SeparatorOk | clustertools/parameterset.py:220-231 | otherwise the defaults join stage 0, one empty stage is appended, and the builder stays well formed |
| ParamSetFacts.SeparatorMember | clustertools/parameterset.py:226-228 | each set of stage 0 gains exactly its default |
| ParamSets.CartesianParameterSet.Length | clustertools/parameterset.py:158-166 | `__len__` is `LenOf` of the stages, which counts the pairs `__iter__` yields while no `add_separator` has raised (`Synced`) |
| ParamSets.MergeLoop | clustertools/parameterset.py:161-162 | the inner loop of `__len__` merges one stage as `MergeStage` does |
| ParamSets.SizeProduct | clustertools/parameterset.py:163-165 | the last loop of `__len__` is the product of the merged sizes |
| ParamWalkFacts.MergedMembers | clustertools/parameterset.py:159-162 | the merged `domains` holds, for each name, every stage's values of it |
| ParamSets.IterOf | clustertools/parameterset.py:233-272 | `_iter`/`__iter__`: the stage-0 product first, then for each later stage and each sorted name the product of the accumulated domains with that name's new values only, numbered from 0; `ParamWalkFacts.IterProduct`, `IterSeparated` and `IterCount` prove it the distinct cartesian product, stage ordered, of length `len` |
| ParamSets.CartesianParameterSet.Iter | clustertools/parameterset.py:270-272 | `__iter__`: `_iter`'s tuples renumbered from 0, as `IterOf` gives them; `ParamWalkFacts.IterProduct` and `IterCount` prove it the distinct cartesian product, of length `len` while no `add_separator` has raised (`Synced`) |
| ParamSets.LenOf | clustertools/parameterset.py:158-166 | `__len__`: the product over the names of the size of each name's merged values; `ParamWalkFacts.IterCount` proves it equals the number of yielded pairs while no `add_separator` has raised (`Synced`) |
| ParamWalkFacts.IterProduct | clustertools/parameterset.py:233-268 | iteration yields distinct tuples, exactly those of the cartesian product of the final domains |
| ParamWalkFacts.IterSeparated | clustertools/parameterset.py:238-268 | stage 0's product comes first, and no later tuple lies inside it |
| ParamWalkFacts.IterLength | clustertools/parameterset.py:233-268 | iteration yields as many tuples as the product of the final domain sizes |
| ParamWalkFacts.IterCount | clustertools/parameterset.py:158-272 | `len(ps)` equals the number of pairs `__iter__` yields while no `add_separator` has raised (`Synced`); `ParamWalkFacts.FailedSeparatorDiverges` shows the two apart once one has |
| ParamWalkFacts.UnheldNameYieldsNothing | clustertools/parameterset.py:233-268 | a registered name that no stage holds has an empty domain, so iteration yields nothing |
| ParamWalkFacts.FailedSeparatorRegisters | clustertools/parameterset.py:220-224 | `add_parameters(p=[1, 2])` then `add_separator(q=0, p=5)` raises `ValueError` with `q` already registered and no stage changed |
| ParamWalkFacts.FailedSeparatorMerged | clustertools/parameterset.py:158-162 | the merged domains of that builder are `p: {1, 2}` |
| ParamWalkFacts.FailedSeparatorDiverges | clustertools/parameterset.py:158-272 | in that builder, which is not `Synced`, `len(ps)` is 2 while iteration yields nothing |
| ParamSetFacts.IterBindings | clustertools/parameterset.py:245-272 | every dict iteration yields binds the sorted names, in order, to its tuple's values |
| ParamSetFacts.CartesianItem | clustertools/parameterset.py:61-66 | on the cartesian set `ps[i]` binds the sorted names to the `i`-th tuple, else `KeyError` |
| ParamSets.ConstrainedParameterSet.constructor | clustertools/parameterset.py:286-290 | the filters are the given ones or empty |
| ParamSets.ConstrainedParameterSet.AddConstraints | clustertools/parameterset.py:298-306 | each constraint is appended to its name's list |
| ParamSetFacts.AddConstraintsAdmits | clustertools/parameterset.py:298-306 | after `add_constraints` a dict passes exactly when it passed before and passes every new constraint |
| ParamSets.ConstrainedParameterSet.Allowed | clustertools/parameterset.py:310-315 | the two loops decide whether every constraint holds |
| ParamSets.ConstrainedParameterSet.Iter | clustertools/parameterset.py:308-317 | `__iter__`: the wrapped pairs, original indices and order kept, that pass every constraint; `ParamSetFacts.KeepIfIncreasing`, `KeepIfAll` and `NoFiltersKeepAll` prove what it keeps and in which order |
| ParamSets.ConstrainedParameterSet.Length | clustertools/parameterset.py:319-323 | `__len__` counts what `__iter__` yields |
| ParamSetFacts.KeepIfIncreasing | clustertools/parameterset.py:308-317 | the filter keeps the wrapped order, so indices still increase |
| ParamSetFacts.KeepIfAll | clustertools/parameterset.py:308-317 | a filter every tuple passes keeps everything |
| ParamSetFacts.NoFiltersKeepAll | clustertools/parameterset.py:286-317 | without filters the decorator yields what it wraps |
| ParamSets.PrioritizedParamSet.constructor | clustertools/parameterset.py:355-360 | the priorities are the given ones or empty, and `n_priorities` is their number |
| ParamSets.PrioritizedParamSet.Prioritize | clustertools/parameterset.py:368-370 | the binding gets rank `n_priorities`, which then grows by one |
| ParamSets.PrioritizedParamSet.GetPriority | clustertools/parameterset.py:372-378 | the loop sums `2**(n_priorities - p - 1)` over the ranked bindings |
| ParamSets.PrioritizedParamSet.Length | clustertools/parameterset.py:388-389 | `__len__` counts what `__iter__` yields, the number of pairs of the wrapped enumeration; this is the wrapped set's `__len__` only while that set's length and iteration agree (see `ParamWalkFacts.IterCount`) |
| ParamSets.PrioritizedParamSet.Iter | clustertools/parameterset.py:380-386 | `__iter__`: the wrapped pairs, indices kept, stably sorted by decreasing priority; `PriorityFacts.PrioritizedPermutes` and `PrioritizedOrder` prove it a permutation in non-increasing priority with ties in wrapped order |
| PriorityFacts.PrioritizeKeeps | clustertools/parameterset.py:368-370 | `prioritize` keeps the ranks distinct and below the count |
| PriorityFacts.PrioritizedPermutes | clustertools/parameterset.py:380-386 | the decorator yields every wrapped pair as often, and nothing else |
| PriorityFacts.PrioritizedOrder | clustertools/parameterset.py:380-386 | it yields by decreasing priority, keeping the wrapped order among equal priorities |
| PriorityFacts.PriorityDominates | clustertools/parameterset.py:372-378 | a dict with an earlier-ranked binding has the greater priority |
| PriorityFacts.PrioritizedFirst | clustertools/parameterset.py:339-352 | the documented order: dicts with the first-prioritized binding first, then among the rest those with the second, and so on |
| ParamSetFacts.DecoratorsDropIndices | clustertools/parameterset.py:391-392 | on a one-tuple set the wrapped lookup finds index 0 while each decorator gives `None` |
| ParamSetFacts.DecoratorsDropIndicesAlways | clustertools/parameterset.py:325-326 | every call of a decorator's `get_indices_with` as written gives `None`, where the corrected one gives the wrapped set's result |
| ParamSets.DecoratorIndices | clustertools/parameterset.py:391-392 | with the missing `return`, the lookup raises exactly when the wrapped set's does and otherwise yields the indices of the matching tuples |
| States.Reset | clustertools/state.py:119-120 | a launchable state with the same computation name and progress |
| States.Abort | clustertools/state.py:122-123 | an aborted state carrying the exception, with the same name and progress |
| States.IsNotUp | clustertools/state.py:125-133 | the result keeps name and progress and no longer claims to wait or work; a state that claims neither is unchanged |
| States.ToPending | clustertools/state.py:153-154 | a launchable state becomes pending, same run |
| States.ToRunning | clustertools/state.py:141-142 | a pending state becomes running, same run |
| States.ToCritical | clustertools/state.py:212-213 | a running state becomes the first critical state and a partial one a later critical state |
| States.ToCompleted | clustertools/state.py:232-233 | a critical or partial state becomes completed, same run |
| States.ToPartial | clustertools/state.py:235-236 | a critical state becomes partial, same run |
| States.ToIncomplete | clustertools/state.py:253-254 | a partial state becomes incomplete, same run |
| States.ToLaunchable | clustertools/state.py:196-197 | a working state's `to_launchable` is its `reset` |
| States.ToAborted | clustertools/state.py:199-200 | a working state's `to_aborted` is its `abort` |
| States.UpdateProgressAsWritten | clustertools/state.py:202-205 | as written: same class and name, the new progress, and the critical flag reset to False |
| States.UpdateProgress | clustertools/state.py:202-205 | corrected: same class and name, the new progress, and the critical flag kept |
| StateFacts.NameIsClass | clustertools/state.py:137-260 | two states have the same `get_name()` exactly when they are of the same class |
| States.Eq | clustertools/state.py:93-96 | `__eq__`: `other` is of `self`'s class and has the same computation name; progress is ignored; `StateFacts.EqEquivalence` and `EqIgnoresProgress` prove it an equivalence blind to progress |
| StateFacts.EqEquivalence | clustertools/state.py:93-96 | state equality is reflexive, symmetric and transitive |
| StateFacts.EqIgnoresProgress | clustertools/state.py:93-96 | a state equals its progress-updated copy |
| StateFacts.IsNotUpIdempotent | clustertools/state.py:125-133 | `is_not_up` twice is `is_not_up` once |
| StateFacts.ResetForgets | clustertools/state.py:119-123 | resetting a reset, corrected or aborted state is resetting the state |
| StateFacts.CriticalFate | clustertools/state.py:238-243 | a first critical state that is not up is launchable again; a later one is incomplete, as its partial state would be |
| StateFacts.Routine | clustertools/state.py:141-257 | pending, running, critical, partial saves, completed: the run keeps its name and progress and only the first critical state is marked first |
| StateFacts.ResavedFacts | clustertools/state.py:235-257 | `to_partial` then `to_critical`, any number of times, gives a critical state of the same run, marked first only with no save |
| StateFacts.UpdateProgressDropsFlag | clustertools/state.py:202-205 | a concrete first critical state, updated as written, is found incomplete instead of launchable |
| StateFacts.UpdateProgressDropsFlagAlways | clustertools/state.py:202-205 | every first critical state, updated as written, is found incomplete instead of launchable |
| StateFacts.UpdateProgressKeepsFate | clustertools/state.py:202-205 | the corrected update changes the progress and nothing `is_not_up` depends on |
| Monitors.Refreshed | clustertools/state.py:295-307 | `refresh` keeps the number of states |
| MonitorFacts.RefreshSettles | clustertools/state.py:295-307 | with no job list the states are kept; otherwise a state still claiming to wait or work is queued, each keeps its run, and queued or settled states are unchanged |
| MonitorFacts.RefreshIdempotent | clustertools/state.py:295-307 | refreshing twice against the same queue is refreshing once |
| Monitors.Monitor.constructor | clustertools/state.py:284-293 | the monitor starts with the refreshed states |
| Monitors.Monitor.Refresh | clustertools/state.py:295-307 | the loop rebuilds the list as `Refreshed` describes |
| Monitors.Monitor.Length | clustertools/state.py:317-318 | `__len__` is the number of states |
| Monitors.Indices | clustertools/state.py:320-330 | `_indices` lists, increasing, exactly the positions whose state is of the class and passes the predicate |
| Monitors.Monitor.IndicesOf | clustertools/state.py:325-330 | `_indices`: the positions of the states of the class that pass the predicate, as `Indices` gives them, increasing |
| Monitors.NamesIn | clustertools/state.py:332-334 | `computation_names` is exactly the names of the states of the class |
| Monitors.Monitor.ComputationNames | clustertools/state.py:332-334 | `computation_names`: the names of the states of the class, as `NamesIn` gives them |
| Monitors.UnlaunchableMember | clustertools/state.py:348-353 | a name is unlaunchable exactly when some state has it and none of its states is launchable |
| Monitors.UnlaunchableSound | clustertools/state.py:348-353 | an unlaunchable name has a state and no launchable one |
| Monitors.UnlaunchableComplete | clustertools/state.py:348-353 | a name with a state and no launchable one is unlaunchable |
| Monitors.Monitor.UnlaunchableCompNames | clustertools/state.py:348-353 | `unlaunchable_comp_names`: the names with a state and no launchable state; `UnlaunchableSound` and `UnlaunchableComplete` prove both directions |
| Monitors.Monitor.PartitionByState | clustertools/state.py:355-359 | the loop builds `Partition` of the states |
| MonitorFacts.OfNameMember | clustertools/state.py:355-359 | the states of one class are exactly the states with that name |
| Monitors.Partition | clustertools/state.py:355-359 | `partition_by_state`: the states grouped by class name, each bucket in list order; `MonitorFacts.PartitionBucket` and `PartitionSize` prove the buckets partition the list |
| MonitorFacts.PartitionDistinct | clustertools/state.py:355-359 | the buckets have distinct names |
| MonitorFacts.PartitionBucket | clustertools/state.py:355-359 | each bucket holds its class's states in order, and a class has a bucket exactly when it has a state |
| MonitorFacts.PartitionSize | clustertools/state.py:355-359 | the buckets hold every state once |
| Monitors.Counts | clustertools/state.py:361-362 | each count is the length of its bucket |
| Monitors.Monitor.CountByState | clustertools/state.py:361-362 | the method returns the counts of the partition |
| MonitorFacts.CountByStateSum | clustertools/state.py:361-362 | the counts add up to the number of states, each being the number of states of its class |
| Monitors.AllIndices | clustertools/state.py:370-371 | no indices means every position, in order |
| Monitors.ResetEach | clustertools/state.py:369-376 | `to_launchables`: resets each listed position in turn, negative positions from the end, stopping with IndexError at the first out-of-range one; `MonitorFacts.ResetEachAt` and `ResetEachErr` prove what it changes and when it fails |
| Monitors.ResetEachValid | clustertools/state.py:369-376 | resetting in-bounds positions keeps the length and raises nothing |
| Monitors.Monitor.ToLaunchables | clustertools/state.py:369-376 | the loop resets the listed positions (all when none are given) as `ResetEach` describes, stopping at the first `IndexError` |
| MonitorFacts.ResetEachErr | clustertools/state.py:369-376 | `to_launchables` raises `IndexError` exactly when some index is out of Python's bounds |
| MonitorFacts.ResetEachAt | clustertools/state.py:369-376 | with indices in bounds it resets exactly the listed positions (negative ones from the end) and keeps the rest |
| Monitors.Monitor.ToLaunchable | clustertools/state.py:378-380 | every state of that computation is reset |
| Monitors.Monitor.Reset | clustertools/state.py:382-383 | the states of the class passing the predicate are reset |
| Monitors.Monitor.AbortedToLaunchable | clustertools/state.py:385-386 | the aborted states passing the predicate are reset |
| Monitors.Monitor.IncompleteToLaunchable | clustertools/state.py:388-389 | the incomplete states passing the predicate are reset |
| MonitorFacts.ResetSelected | clustertools/state.py:382-389 | `reset(from_state, predicate)` resets exactly the states of that class passing the predicate and leaves the others |
| Monitors.AbortEach | clustertools/state.py:393-399 | the abort loop keeps the number of states |
| Monitors.Monitor.Abort | clustertools/state.py:391-399 | the selected states are replaced by their aborted states |
| MonitorFacts.AbortEachAt | clustertools/state.py:393-399 | exactly the listed positions are aborted |
| MonitorFacts.AbortSelected | clustertools/state.py:391-399 | `abort` aborts exactly the states of that class passing the predicate, keeping their run |
| Experiments.Experiment.constructor | clustertools/experiment.py:64-69 | no or an empty mapping starts with no parameter |
| Experiments.Experiment.AddParams | clustertools/experiment.py:71-85 | the loop updates the lists as `Added` describes |
| ExperimentFacts.AddedFacts | clustertools/experiment.py:71-85 | after `add_params` each keyword's list is sorted and holds its old values and the new ones; other lists are unchanged |
| ExperimentFacts.AddedList | clustertools/experiment.py:71-85 | each keyword's list is its old list plus its values, sorted |
| ExperimentFacts.AddedDistinct | clustertools/experiment.py:71-85 | `add_params` keeps the names distinct |
| Experiments.Experiment.GetMetadata | clustertools/experiment.py:87-92 | the loop returns `Metadata` of the lists |
| Experiments.Experiment.GetDomain | clustertools/experiment.py:94-99 | the loop returns `Domain` of the lists |
| ExperimentFacts.SplitFacts | clustertools/experiment.py:87-99 | a name is metadata exactly when it has one value, which is its metadata value, and an axis exactly when it has more |
| Experiments.Lengths | clustertools/experiment.py:103-104 | the length of each list, in dict order |
| Experiments.Experiment.Length | clustertools/experiment.py:101-105 | `__len__` is the product of the list lengths |
| Experiments.SortedKeys | clustertools/experiment.py:111-112 | the keys, sorted |
| Experiments.Columns | clustertools/experiment.py:113 | the value list of each sorted key |
| Experiments.Points | clustertools/experiment.py:107-117 | `__iter__`: the labelled points `Computation-<name>-<i>` over the cartesian product of the value lists in sorted-key order, AttributeError with no parameters; `ExperimentFacts.PointsCount`, `PointsCover` and `PointsDistinct` prove its length and contents |
| ExperimentFacts.PointsCount | clustertools/experiment.py:101-117 | with parameters, iteration yields `len(experiment)` points |
| ExperimentFacts.PointShape | clustertools/experiment.py:114-117 | point `i` is labelled `Computation-<name>-<i>` and gives each sorted name one of its values |
| ExperimentFacts.PointsCover | clustertools/experiment.py:114-117 | every choice of one value per name is a point |
| ExperimentFacts.PointsDistinct | clustertools/experiment.py:114-117 | with no repeated value in any list, the points are pairwise distinct |
| ExperimentFacts.ParseDecimal | clustertools/experiment.py:123 | `int(str(i)) == i` |
| ExperimentFacts.ParseMinus | clustertools/experiment.py:123 | `int("-" + str(n)) == -n` |
| ExperimentFacts.LabelIsText | clustertools/experiment.py:123-130 | a label does not parse as an int, so it is matched as a name |
| ExperimentFacts.LabelInjective | clustertools/experiment.py:116 | distinct points have distinct labels |
| Experiments.ParseInt | clustertools/experiment.py:123 | `int(sel)` on a string: an optional sign then decimal digits, else no number; `ExperimentFacts.ParseDecimal` and `ParseMinus` prove it inverts `str` on integers |
| Experiments.Experiment.GetParamsFor | clustertools/experiment.py:119-134 | the method returns `ParamsFor` |
| Experiments.ParamsFor | clustertools/experiment.py:119-134 | `get_params_for`: an integer (or decimal string) selects the point at that index, KeyError outside [0, len); any other string selects the point with that label; `ExperimentFacts.LookupByIndex`, `LookupByLabel` and `LookupOutOfRange` prove it agrees with iteration |
| Experiments.Experiment.ScanPoints | clustertools/experiment.py:131-134 | the scan returns the first point whose index or label matches, else `KeyError` |
| Experiments.FirstHit | clustertools/experiment.py:131-133 | the first matching position, and no earlier one matches |
| ExperimentFacts.LookupByDecimal | clustertools/experiment.py:123 | a decimal string selects the same point as its int |
| ExperimentFacts.LookupOutOfRange | clustertools/experiment.py:125-127 | an index outside `[0, len)` raises `KeyError`; with no parameters the iteration fails |
| ExperimentFacts.LookupByIndex | clustertools/experiment.py:119-134 | an index in range finds the point iteration yields there |
| ExperimentFacts.LookupByLabel | clustertools/experiment.py:119-134 | a label finds the point it labels |
| ExperimentFacts.LookupYields | clustertools/experiment.py:119-134 | whatever `get_params_for` returns is a point of the iteration |
| Notifications.Filter | clustertools/notification.py:164-165 | `_filter` keeps at most the entries it is given |
| Notifications.IsUp | clustertools/notification.py:160-162 | `is_up`: true exactly for COMPLETED, RUNNING, PENDING and PARTIAL; `NotificationFacts.RefreshSettles` uses it to state which up computations stay after a refresh |
| Notifications.FilterItems | clustertools/notification.py:164-165 | an entry is in `_filter(d, s)` exactly when it is in `d` with state `s` |
| Notifications.FilterDistinct | clustertools/notification.py:164-165 | `_filter` keeps distinct names distinct |
| Notifications.FilterLookup | clustertools/notification.py:164-165 | `_filter(d, s)` holds exactly the computations in state `s`, each with its notification |
| Notifications.SortByState | clustertools/notification.py:150-158 | the loop builds `ByState` |
| NotificationFacts.ByStateBucket | clustertools/notification.py:150-158 | each state's dict is `_filter(job_dict, state)`, and a state has a dict exactly when that is non-empty |
| NotificationFacts.ByStatePartition | clustertools/notification.py:150-158 | each computation is filed under exactly its own state, with its notification |
| NotificationFacts.ByStateSize | clustertools/notification.py:150-158 | the state dicts hold every notification once |
| Notifications.Counts | clustertools/notification.py:254-255 | each count is the size of its state's dict |
| Notifications.StateOf | clustertools/notification.py:226-231 | `get_state`: the recorded state, LAUNCHABLE for a computation with no notification; `NotificationFacts.RefreshLaunchable` uses it |
| Notifications.IsLaunchable | clustertools/notification.py:241-252 | `is_launchable`: the state is LAUNCHABLE, so an absent computation is launchable; `NotificationFacts.RefreshLaunchable` characterises it after a refresh |
| NotificationFacts.CountsSum | clustertools/notification.py:254-255 | the counts add up to the number of notifications, each being the number of computations in its state |
| Notifications.Relabel | clustertools/notification.py:194-199 | the named entries get the new state and the others are kept, in place |
| Notifications.SetStates | clustertools/notification.py:194-199 | the loops over `launchables` and `incompletes` relabel the named entries |
| Notifications.Relaunched | clustertools/notification.py:184-189 | `launchables` of `refresh`: the running or pending computations that are not queued; `NotificationFacts.RefreshRule` proves they become LAUNCHABLE |
| Notifications.Stalled | clustertools/notification.py:187-191 | `incompletes` of `refresh`: the partial computations that are not queued; `NotificationFacts.RefreshRule` proves they become INCOMPLETE |
| Notifications.StaleNames | clustertools/notification.py:184-191 | `launchables` is exactly the running or pending unqueued names, `incompletes` the partial unqueued ones |
| Notifications.RelabelsReclassify | clustertools/notification.py:184-203 | the two relabellings reclassify every notification |
| Notifications.Reclassified | clustertools/notification.py:184-203 | `refresh` keeps every name in its place and reclassifies each notification |
| Notifications.Historic.constructor | clustertools/notification.py:172-178 | the historic starts refreshed |
| Notifications.Historic.Refresh | clustertools/notification.py:180-203 | the job dict is reclassified and the state dict rebuilt from it |
| NotificationFacts.RefreshRule | clustertools/notification.py:184-203 | running or pending unqueued becomes launchable, partial unqueued incomplete, the rest is unchanged |
| NotificationFacts.RefreshSettles | clustertools/notification.py:160-203 | after `refresh` a computation that is up but not completed is queued |
| NotificationFacts.RefreshIdempotent | clustertools/notification.py:180-203 | refreshing twice against the same queue is refreshing once |
| NotificationFacts.RefreshLaunchable | clustertools/notification.py:226-252 | after `refresh`, `is_launchable` holds exactly for a computation with no notification, already launchable, or running or pending and unqueued |
| Notifications.NotDone | clustertools/notification.py:283-287 | the generator yields at most the experiment's points |
| Notifications.NotDoneOf | clustertools/notification.py:283-287 | `yield_not_done_computation`: the experiment's points, in order, whose computation is launchable, with the experiment's iteration error; `NotificationFacts.NotDoneMembers` and `NotDoneConcat` prove which points and in what order |
| NotificationFacts.NotDoneMembers | clustertools/notification.py:283-287 | it yields exactly the points whose computation is launchable |
| NotificationFacts.NotDoneConcat | clustertools/notification.py:283-287 | it keeps the experiment's order |
| NotificationFacts.NotDoneAll | clustertools/notification.py:283-287 | with every computation launchable it yields every point |

## Left out

- **Values** are only `Num`, `Text` and `Tuple`. This affects:
  - every parameter-value operation: `Datacube.__init__`, `add_parameters`/`add_single_values`, `add_params`, `get_priority`, the experiment's iteration.

  The consequences:
  - `None` is not a value. The data list's `None` is the `Option` of a cell, and a `None` parameter value is not modelled.
  - Floats are not values. Float parameter values, float metrics and their ordering are gone.
- **`CubeSelect.IndexByName`: the float fallback** of `_get_index_by_name` (datacube.py:220-230) is not modelled. A name absent from the axis raises `KeyError`. As written, that code unpacks each axis string into two characters (`for i, x in lku`), so a two-character axis value can make it return a string. The exact lookup is what the code evidently means.
- **`CubeSelect.Reorder`: `util.reorder` is assumed.** It is called as `reorder(vals, slc, in_place=False)` at datacube.py:361 and 380, but it is not defined in any of the modelled files. The model assumes it is `[vals[i] for i in idx]`, with Python's negative indexing and `IndexError` out of range. `sort_per_type`, likewise not shown, is taken to be the total order under "Sorting mixed types" below.
- **`CubeQuery.MissingRatio`: the missing ratio** is the exact fraction `(len(ood), size())`, not the float `float(len(ood))/self.size()` (datacube.py:519). `QueryFacts.MissingRatioBounds` states its bounds on that fraction.
- **Sorting mixed types.** The model uses one total order on `Value`: numbers, then strings, then tuples. This order stands in for Python 2's mixed-type `sort()`. The sorts involved:
  - datacube.py:24, 154, 159, 166;
  - parameterset.py:236, 241 (`sort_per_type`, which is not shown), 260;
  - experiment.py:85, 112.

  The order matches Python 2. experiment.py and notification.py are Python 2 code: `iteritems` at experiment.py:72, 89, 96, 164, 172, 178 and notification.py:152, 165, 235, 255; `basestring` at experiment.py:78. datacube.py also calls `iteritems` (532, 552, 561). Under Python 3, `_some_miss_vs_all_there` therefore raises `AttributeError` at datacube.py:532. `QueryFacts.SomeMissSplits` models the Python 2 reading. state.py (`super().__init__`) and parameterset.py (`metaclass=ABCMeta`) are Python 3 code, and Python 3 raises `TypeError` when sorting values of different types. That `TypeError` is not modelled. A parameter set mixing value types is sorted in the model.
- **Generators become finished sequences.** `items`, `iter_dimensions`, the parameter sets' `__iter__`/`_iter`, `get_indices_with`, `Experiment.__iter__` and `yield_not_done_computation` are modelled as the full list of what they yield, or the error that stops them. Laziness is lost, along with any interleaving with the caller: a caller mutating the set while iterating is not modelled.
- **`Experiments.ParseInt`** accepts an optional `-` or `+` sign followed by decimal digits, as Python 2's `int(sel)` does (experiment.py:123). The one gap is surrounding whitespace: `ParseInt(" 3")` is `None`, where Python gives 3. A tuple `sel` raises `TypeError` (`Experiments.Selection`), as `int` does on any value that is neither a number nor a string.
- **Stages and filters are always `defaultdict`s.** `ParamSets.Members` reads a missing name of a stage as an empty set, as a `defaultdict(set)` does. A plain dict passed to `CartesianParameterSet(param_map_seq)` or `ConstrainedParameterSet(filters=...)` would raise `KeyError` instead, at parameterset.py:184, 228, 240 or 306. The other side of the `defaultdict` is left out too: `_iter`'s read `param_map[name]` (parameterset.py:240) inserts an empty set into stage 0 for a name that stage lacks, and `ParamSets.IterOf` is a pure function that does not. This matters only after an `add_separator` that raised, which leaves a registered name no stage holds (`ParamWalkFacts.FailedSeparatorRegisters`). In the source the first iteration then adds that name to stage 0, so `len(ps)` drops from the `LenOf` value to 0. The model keeps the builder unchanged, so its `LenOf` stays at the earlier value while `IterOf` is empty (`ParamWalkFacts.FailedSeparatorDiverges`).
- ParamSets.PrioritizedParamSet.Length: returns the number of pairs of the wrapped enumeration `inner`, not the wrapped set's own `__len__` (parameterset.py:388-389). The two agree for a `ConstrainedParameterSet` and for a `CartesianParameterSet` that is `Synced` (`ParamWalkFacts.IterCount`). They differ for a cartesian set left behind by an `add_separator` that raised (`ParamWalkFacts.FailedSeparatorDiverges`).
- ParamSets.CartesianParameterSet.Iter: requires nothing about `Synced`, but the length it is proved to have equals `__len__` only for a `Synced` builder. It does not model the empty set that iteration inserts into stage 0 (see the `defaultdict` line above).
- Experiments.ParamsFor (and `Experiments.Experiment.GetParamsFor`, `Experiments.Experiment.ScanPoints`): strings are sequences of Unicode characters. Python 2's split between byte and unicode strings is not modelled, and neither is the implicit ASCII decoding at experiment.py:132 and 134. So the model never raises the `UnicodeDecodeError` that `name.encode("utf-8")` raises on a non-ASCII byte-string name (an experiment whose labels contain "café", selected by index). It also never raises the `UnicodeEncodeError` that `str(sel)` raises on a non-ASCII unicode selector that is not found.
- **Constraints are total predicates** on the parameter dict. A constraint that raises, or does not accept the keywords it is given (`constraint(**param_dict)`, parameterset.py:313), is not modelled.
- **Decorators' `__getitem__`.** Both decorators delegate `ps[index]` to the wrapped set: `ConstrainedParameterSet.__getitem__` (parameterset.py:328-329) and `PrioritizedParamSet.__getitem__` (parameterset.py:394-395) both return `self.param_set[index]`. So `ps[index]` is `ItemAt` on the wrapped set's enumeration, not on the decorator's own filtered or reordered one. Neither has a member of its own.
- **`DehashFacts.DehashHash`** needs every axis to have at least two values (`Branching`) and no axis to be called `"metric"`:
  - The two-value requirement is the bug in "## Findings".
  - An axis called `"metric"` overwrites `res["metric"]` (datacube.py:89, 101), so the round trip cannot hold.

  `DehashFacts.DehashInOrderHash` drops the two-value requirement for the corrected dehash.
- **`HashingFacts.ConsArgsRoundTrip`** needs every axis to have a value: an empty axis has no entry to sort back.
- **`CubeBuildFacts.BuiltFill` and the lemmas about a constructed cube** assume two things:
  - every row names the same parameters (`Uniform`);
  - `str` keeps observed values apart (`StrFaithful`).

  Without them the source's hasher raises `IndexError` or `KeyError` during construction. That path is modelled by `Cube.Datacube.Make` and `CubeBuild.Built` but not described by a lemma.
- **`IterFacts.IterDimensionsProduct`** assumes three things:
  - The cube has no one-value axis (`NoSingle`). When such an axis exists, `self(**{dim: v})` demotes it and later dimensions may name metadata.
  - The dimensions are distinct (`NoDup(dims)`). The source accepts a repeated dimension, but its first occurrence demotes the axis to metadata (datacube.py:473), so the second occurrence contributes only that value. `iter_dimensions("a", "a")` yields `|a|` tuples, not `|a|²`. The model does not describe that case.
  - No dimension is an axis called `"metric"` (`MetricBound`). For such an axis, `self(metric=value)` binds the value to `__call__`'s `metric` parameter (datacube.py:402), so it selects a metric instead of narrowing the axis. `CubeQuery.KeywordCall` models that binding, and `IterFacts.IterMetricAxis` shows the resulting KeyError when the first value is not a metric name. The product is not described for that case.
- **`CloneFacts.CallOne` and `CubeSelectFacts.CallLookup`** also cover a keyword called `"metric"` in `kwargs`. No Python call can pass one, because such a keyword binds to `__call__`'s `metric` parameter (datacube.py:402). For those calls the lemmas describe `CubeSelect.Call` with that keyword, not a call the source can receive.
- **`Hashing.Hasher.AddMetadata` and `Cube.Datacube.AddMetadata`** take string values. `add_metadata(**kwargs)` (datacube.py:65-68, 209-211) stores any value as given, without `str`; only the constructor stringifies metadata. No caller in the modelled files passes a non-string, so the model keeps metadata as strings throughout.
- **`Monitors.Refreshed`** states only that the length is kept. `MonitorFacts.RefreshSettles` states what `refresh` does to each state.
- **Not modelled: I/O and external services.**
  - Storage: `load_states`, `update_state`, `load_notifications`, the `*_job_update` writers, `build_datacube`, `build_result_cube`, `load_results`.
  - Pickling: `__setstate__`, `__hash__` through `repr`.
  - The notification files.
  - Logging in `is_launchable`, `getpass` and `os.environ`.
  - The environment's `list_up_jobs` and `queued_or_running_jobs`, whose results are parameters.
- **Not modelled: time and floats in the states.**
  - `State.date` (a `datetime`) is left out.
  - `progress` is an exact `real`, not a float, and is carried unchanged.
  - `Monitor.get_working_progress` (state.py:364-367) is not modelled.
  - The exception of an aborted state is an opaque value.
- **Not modelled: the rest of the datacube.** This covers:
  - `numpify` (NumPy), `compute_data_hash`/`hashlist`, `__repr__`/`__str__`, `diagnose` (a float report built from `out_of_domain` and the two modelled functions), `full_parameters`;
  - `maximal_hypercube`/`minimal_hypercube` (a greedy heuristic over `_some_miss_vs_all_there`);
  - `Datacube.__iter__` and `__getslice__`;
  - the `Mapping` base class's derived methods.
- **Not modelled: the rest of the Historic.** `Historic.already_up` and the `*_jobs` accessors are `_filter` applied to one state. `Historic.*_to_launchable`, `reset` and `print_log` only write to storage.
- **Not modelled: `Experiment.__iter__` with no parameters.** It calls a `serialize` method that does not exist. The model gives `AttributeError` (`Experiments.Points`).

## Findings

| source | as written | input that shows it | evidently intended | confidence | as-written member | corrected member |
|---|---|---|---|---|---|---|
| clustertools/state.py:202-205 | `update_progress` rebuilds the state with `self.__class__.from_(self)`, so a critical state gets `first_critical=False` | `CriticalState("c", 0.5, first_critical=True).update_progress(0.75).is_not_up()` is an `IncompleteState`, where the state before the update is found launchable | only the progress changes; `first_critical` is kept | not executed | StateFacts.UpdateProgressDropsFlag, StateFacts.UpdateProgressDropsFlagAlways (on States.UpdateProgressAsWritten) | States.UpdateProgress, StateFacts.UpdateProgressKeepsFate |
| clustertools/parameterset.py:325-326 | `ConstrainedParameterSet.get_indices_with` and `PrioritizedParamSet.get_indices_with` (391-392) call the wrapped set's method without `return`, so they return `None` | a wrapped set enumerating `(0, {"a": 1})`, `get_indices_with(a={1})`: the wrapped set yields 0, each decorator returns `None` | `return self.param_set.get_indices_with(**kwargs)` | not executed | ParamSetFacts.DecoratorsDropIndices, ParamSetFacts.DecoratorsDropIndicesAlways (on ParamSets.DecoratorIndicesAsWritten) | ParamSets.DecoratorIndices |
| clustertools/datacube.py:93-101 | `dehash` visits the dimensions by `dims.sort(reverse=True)` on `(stride, name)`. A one-value axis has the same stride as the next axis, and the name may put it first, so it takes the whole remaining index and indexes past its single value | `Hasher(["m"], {"b": ["v"], "a": ["x", "y", "z"]})`: `hash("m", {"b": "v", "a": "z"})` is 2 and `dehash(2)` raises `IndexError`. The datacube never builds such a hasher, because its constructor demotes one-value parameters to metadata (datacube.py:153-158). | visit the axes from the largest stride down in reverse insertion order, so `dehash(hash(m, p))` gives back `m` and `p` | not executed | DehashFacts.DehashOneValueAxis | DehashFacts.DehashInOrderHash (on DehashFacts.DehashInOrder) |
